# A verified model of the private data objects contract state

A contract's state is a key-value store that lives outside the enclave as encrypted blocks, each
filed under its own hash. Inside the enclave the same state is a path-compressed trie of 32-byte
nodes and value records, laid out in one flat memory that is cut into 8 KB data nodes, cached in 512
slots, reused through a free list, and finally named by one root id. This project models that
machinery byte by byte and proves that, over every run and across any number of finalize and open
steps, it behaves as a finite map.

The layers, from the bottom up:

| module | models |
|---|---|
| `ByteCodec`, `Addressing`, `DataNodes` | little-endian integers, block offsets, data nodes |
| `FreeSpace`, `FreeTable` | the free space collector and its stored table |
| `SecureBlockIo`, `BlockCache` | content-addressed block store, block-id list, block cache |
| `FlatMemory`, `DataNodeIo` | reads and writes across data nodes as one growing byte array |
| `Tries`, `TrieHeap`, `TrieStack`, `TrieWalk`, `TrieOps`, `TrieMap`, `TrieUpdate` | the trie: its meaning, its layout in memory, the iterative walk with its explicit stack |
| `TrieMark`, `TrieGuard` | what the mark of a deletion leaves intact; a check for the one case in which it does not |
| `TrieRead`, `EmptyValues` | a get as a function of arbitrary bytes; what marking an empty value does to the other keys |
| `Base64`, `JsonText`, `JsonBuffer`, `StateNodes` | the root block: base64, JSON writer and parser, hash chain and authenticator |
| `JsonSyntax`, `JsonComplete`, `JsonSound`, `JsonRoundTrip` | what a JSON text is, by the letters of RFC 8259; the parser accepts all of these texts and no others; the writer writes one of them |
| `ProbeTables`, `ObjectTables` | the hash table of a JSON object |
| `StateContents`, `StateKeyValue`, `StateHistory`, `EmptyTails` | what a store holds, the store itself, whole histories, a store that cannot be finalized |
| `RootBinding`, `InterpreterKeys` | what a root id binds, the two key spaces |
| `WorkerProtocol` | the handshake between the contract worker and the request threads |

How to read the contracts:

* Cryptography is a record of functions (`Crypto`). Nothing is assumed about it except that hashes
  have 32 bytes and that decryption undoes encryption under every nonce. In particular no hash is
  assumed to be injective. An operation that would replace a stored block by a different block with
  the same hash ends with the outcome `Collision`, which carries the two blocks; every contract
  promises that a reported collision is one (`Genuine`).
* The block store is not trusted. `held` is what it answers, and nothing is assumed about it: blocks
  may be missing, changed or invented. `blocks` is the record of all that was ever evicted; contracts
  speak about it, and `AllHeld()` says that the store still answers with all of it. In a run an
  arbitrary `Keeper` decides anew, before every operation, what the block store answers from then on;
  `Honest` says that it never loses or changes a block.
* `Unavailable` is the exception for a block that the block store has lost or forged, `Exhausted` the
  outcome of adding a data node that would leave the 32-bit address space, `Thrown` any other
  exception of the program. Every operation of the store promises `Fair`: a collision is genuine,
  no block is unavailable if the block store is intact, and space runs out only if the stated number
  of bytes does not fit. A put needs at most `PutNeed(key, value)` bytes, a delete one byte if the
  value is empty, all else none.
  Next to it every contract says when `Thrown` can occur: never, exactly when, or in `Session` and
  `History` at most when.
* Object state that is only there for the proofs is `ghost`: the flat memory `mem` and append cursor
  `end` of `DataNodeIo`, the set `free` of the collector, the trie `top` and the map `contents` of
  `StateKV`. `Valid()` ties them to the real fields.

Where the code does not do what one would expect, the model follows the code and the condition is
proved:

* A deletion writes its mark behind the length of a value, not on its header, so on the first byte of
  the value. For an empty value that byte belongs to somebody else. `MarkKeepsAnswers` proves, for
  every memory that holds a trie, that marking an empty value keeps the answers to all keys if and
  only if no node that carries key bytes starts right behind the record. `EmptyValueLosesKey` gives the
  memory of a short run of puts and deletes in which the mark loses another key. `Put` and `Delete`
  ask for this condition (`MarkSafe`) and are then right for empty values too, although the mark may
  change the header of another value, set a bit of a node that ends a key, or go past the end of the
  memory. Putting an empty value, and reading it, need no condition. A run (`Run`, `Session`,
  `History`, `Serve`) has no such condition at all: before a put or delete that would break it, which
  `TrieGuard.Hits` finds out exactly, the run ends with the outcome `Damaging`. That happens only if
  some operation replaces or deletes an empty value.
* The end-of-key node at the head of the top list is never reclaimed. When the empty key was the
  first key ever put, in this session or an earlier one, and has no value now, a get or delete of
  the empty key throws; otherwise none does (`EmptyKeyThrows`, `Throws`).
* `Finalize` throws exactly when the free list is to be saved and the append node is still empty.
  Only a put that splits a node while the append node has less than 32 bytes left can bring this
  about, so it takes two different keys that begin with the same byte (`SplitMeansClash`,
  `TailAfterPut`); a put that splits such a node and finds all the space it needs in one free range
  always does (`PutGrew`). `SplitThenFinalize` starts from the memory that three operations leave and
  shows the failure after a fourth.
* The free list counts as modified only when a range is allocated from it or is collected behind all
  others. So a session that only gives space back may end with the table it began with, and what it
  gave back is lost. `SavedAll` says exactly when a finalize forgets no free address, `UnnoticedRange`
  gives an input for which it does, and `Reopen` says what is there after the next open.
* Two free ranges that meet at the end of a data node are not merged if the second begins at the
  offset just past that node (`AliasNotMerged`). With normal offsets coalescing is maximal.
* The table of free ranges holds 682 entries; ranges beyond that are lost, never reused and never
  confused with live records. Otherwise no address is ever lost: what a put or delete does not use it
  gives back, but for the byte behind an empty value that was marked at the append position (`Leaks`).
* The parser takes a comma before a closing bracket, and the blanks of the C library, which are more
  than those of RFC 8259. It takes any byte from 32 on inside a string. Names must not hold a zero byte
  and must differ. `ParseIff` counts these texts in, and no others.

## Model

| member | source | states |
|---|---|---|
| Addressing.Advance | common/state/data_node.cpp:96-111 | advancing an offset keeps it proper, makes it normal and adds to its linear address |
| Addressing.OffsetRoundTrip | common/state/block_offset.cpp:35-71 | an offset within 32 bits survives serialization |
| ByteCodec.LittleEndianAt | common/state/block_offset.cpp:53-57 | byte `i` of a stored number counts units of 256 to the power `i` |
| Addressing.OffsetLayout | common/state/block_offset.h:22-26 | four bytes of the block number, then four of the position, least significant first |
| DataNodes.HeaderRoundTrip | common/state/data_node.cpp:65-82 | writing the header and reading the node back gives the same number, free count and payload |
| DataNodes.HeaderLayout | common/state/data_node.cpp:20-28 | every byte of a stored data node: block number, free count, payload |
| DataNodes.WriteAt | common/state/data_node.cpp:113-132 | writes as many bytes as fit in the node, changes no other payload byte, and moves the free count only forward |
| DataNodes.ReadAt | common/state/data_node.cpp:134-159 | reads exactly the payload bytes at the offset, as many as the node has |
| SecureBlockIo.BlockStore.Fetch | common/state/sebio.cpp:79-119 | succeeds exactly on blocks filed under their own hash, and tells a missing block from a forged one |
| SecureBlockIo.BlockStore.FetchStored | common/state/sebio.cpp:79-119 | a block that was evicted comes back as it was, unless the store has lost or forged it, which is reported exactly then, or a collision is found |
| SecureBlockIo.BlockStore.Evict | common/state/sebio.cpp:126-161 | files a block under its hash and never changes a stored one; the only other outcome is a genuine collision |
| FreeSpace.AdjacentTouches | common/state/free_space_collector.cpp:20-28 | the adjacency test holds if and only if the ranges touch and the second offset is normal |
| FreeSpace.CoalescedIsMaximal | common/state/free_space_collector.cpp:30-54 | with normal offsets a coalesced list is one in which no two ranges touch, across data nodes too |
| FreeSpace.AliasNotMerged | common/state/free_space_collector.cpp:20-54 | the family of touching ranges that the adjacency test misses |
| FreeSpace.MergedItem | common/state/free_space_collector.cpp:30-54 | merging with either neighbour keeps the list sorted and coalesced and covers exactly the old addresses and the new ones |
| FreeSpace.CollectedOk | common/state/free_space_collector.cpp:30-76 | the list after a collection is sorted and coalesced and covers exactly the old addresses and the range |
| FreeSpace.FreeSpaceCollector.InsertItem | common/state/free_space_collector.cpp:30-54 | the list becomes the one with the range merged into it at that position; the adjacency check meets no operands out of order, so it cannot throw |
| FreeSpace.FreeSpaceCollector.DoCollect | common/state/free_space_collector.cpp:56-76 | the range is merged in before the first range that begins later; the covered addresses grow by exactly it and the list stays sorted and coalesced; the list counts as modified only if the range came last |
| FreeSpace.FreeSpaceCollector.Collect | common/state/free_space_collector.cpp:78-93 | the free addresses grow by exactly the collected range; it is deferred, and the range that was deferred before joins the list |
| FreeSpace.FreeSpaceCollector.FirstFit | common/state/free_space_collector.cpp:95-140 | the first range that is long enough is found, the offset and the whole list after it are told; or none is long enough |
| FreeSpace.FreeSpaceCollector.Allocate | common/state/free_space_collector.cpp:95-140 | a deferred range of just this length is returned, else the front of the first range of the whole list that is long enough; the free addresses lose exactly that interval; it fails, changing no address, only if no range is long enough |
| FreeTable.ItemRoundTrip | common/state/free_space_collector.cpp:147-194 | a range within 32-bit fields survives its twelve bytes |
| FreeTable.ItemLayout | common/state/free_space_collector.h:24-27 | the twelve bytes of a range, one by one |
| FreeTable.TableLayout | common/state/free_space_collector.cpp:159-173 | range after range in twelve bytes each; 682 fit in a data node and 683 do not |
| FreeTable.TableRoundTrip | common/state/free_space_collector.cpp:147-194 | reading a stored table gives back the ranges it was made from, in order |
| FreeTable.WriteTable | common/state/free_space_collector.cpp:147-174 | the node holds exactly the first 682 ranges, or all of them if there are fewer |
| FreeTable.ReadTable | common/state/free_space_collector.cpp:176-194 | fails exactly when the used bytes are not whole entries, else returns every stored range |
| FreeTable.SerializeInDataNode | common/state/free_space_collector.cpp:147-174 | the deferred range joins the list before it is stored, and the node holds the first 682 ranges of that list; the free addresses do not change |
| FreeTable.DeserializeFromDataNode | common/state/free_space_collector.cpp:176-194 | whatever the node holds: loaded exactly when the used bytes are whole entries, then the items are the stored ones, unmodified, and a sorted coalesced list makes a valid collector |
| FreeTable.PrefixCovers | common/state/free_space_collector.cpp:147-174 | a truncated table is sorted, coalesced and covers only addresses of the whole list |
| FreeTable.PrefixWhole | common/state/free_space_collector.cpp:159-173 | a stored part covers everything if and only if it is the whole list |
| FreeTable.UnnoticedRange | common/state/free_space_collector.cpp:56-93 | the failing input: a loaded list that collects two ranges before its own one does not count as modified |
| BlockCache.Cache.DropEntry | common/state/cache.cpp:107-113 | forgetting a clean block loses nothing: every block still has its bytes, cached or stored |
| BlockCache.Cache.SyncEntry | common/state/cache.cpp:141-160 | a modified block goes to the store under a new id; bytes of all blocks stay, the id list stays coherent |
| BlockCache.Cache.Flush | common/state/cache.cpp:124-139 | the cache ends empty, every block's bytes and kept free counts are in the store, and a modified block is counted as synced |
| BlockCache.Cache.EvictMostRecent | common/state/cache.cpp:74-94 | the victim is unpinned, unreferenced and put strictly later than every other such block; no bytes change |
| BlockCache.Cache.ReplacementPolicy | common/state/cache.cpp:96-105 | there is room for one more block afterwards; pinned and referenced blocks stay; nothing happens to a cache with room |
| BlockCache.Cache.Retrieve | common/state/cache.cpp:188-214 | hands out the block with one reference more, or finds it unavailable; no bytes of any block change, whatever is evicted for it |
| BlockCache.Cache.Load | common/state/cache.cpp:188-214 | a listed block that is not cached is fetched, decrypted and put in a free slot at a time of its own; unavailable exactly when the block store has lost or forged it |
| BlockCache.Cache.Done | common/state/cache.cpp:216-226 | takes one reference back and marks the block as modified if the caller says so, and changes nothing else |
| BlockCache.Cache.SetPinned | common/state/cache.cpp:228-242 | changes the pin of one entry and nothing else |
| BlockCache.Cache.Append | common/state/data_node_io.cpp:60-85 | a new block is cached, pinned and modified under an all-zero id, and the other blocks keep their bytes |
| BlockCache.Cache.ReadBlock | common/state/data_node_io.cpp:135-161 | one retrieve, read and done returns the block's own bytes and leaves all blocks as they were |
| BlockCache.Cache.WriteBlock | common/state/data_node_io.cpp:113-133 | one retrieve, write and done overwrites those bytes of that block and no other byte |
| BlockCache.Cache.ListIds | common/state/block_warehouse.cpp:30-34 | listing ids of blocks that were evicted gives a coherent cache with their contents, whether or not the block store still has them |
| BlockCache.Cache.RemoveLast | common/state/block_warehouse.cpp:77-81 | the last id leaves the list while its block may stay cached and clean |
| BlockCache.Cache.AddStored | common/state/block_warehouse.cpp:46-60 | a stored block joins the list with its own number, bytes and free count, even if it was still cached |
| BlockCache.SyncCoherent | common/state/cache.cpp:141-160 | replacing a dirty node by its stored image keeps cache, store and contents coherent |
| FlatMemory.WriteFlatIsWritten | common/state/data_node_io.cpp:113-133 | a write to the growing memory puts the buffer at its address and changes no other old address |
| FlatMemory.FlatWrite | common/state/data_node.cpp:113-132 | a write inside one block is that write to the flat memory |
| DataNodeIo.DataNodeIo.Read | common/state/data_node_io.cpp:135-161 | returns exactly the bytes of the flat memory, across any number of data nodes; nothing changes |
| DataNodeIo.DataNodeIo.Write | common/state/data_node_io.cpp:113-133 | is a write to the flat memory; data nodes are appended exactly when the bytes pass the last one; the append cursor moves to the end of the written bytes and never back; space runs out only if the end of the write lies beyond the limit |
| DataNodeIo.DataNodeIo.WriteNext | common/state/data_node_io.cpp:113-133 | one round writes what fits into one block, after adding a block exactly if the offset lies past the last one |
| DataNodeIo.DataNodeIo.AddAppendBlock | common/state/data_node_io.cpp:60-85 | one zeroed data node more; throws exactly when the last one is still empty |
| DataNodeIo.DataNodeIo.ConsumeAppendBlock | common/state/data_node_io.cpp:87-99 | the rest of the append node becomes free space and a new one begins; space runs out only if one more byte than the memory has does not fit |
| DataNodeIo.DataNodeIo.InitAppendBlock | common/state/data_node_io.cpp:48-58 | the last listed block is pinned and aliased by the append slot, unless it is unavailable; nothing else can fail |
| DataNodeIo.DataNodeIo.AppendOffset | common/state/data_node_io.cpp:20-23 | the append position is the linear end of the written memory |
| DataNodeIo.DataNodeIo.Place | common/state/trie.cpp:241-262 | new bytes go where the allocator says, to an interval that then is free no more, and to the append position exactly if the allocator has none |
| DataNodeIo.DataNodeIo.Release | common/state/trie.cpp:149-172 | exactly the released interval becomes free, and is the deferred one |
| DataNodeIo.SomeCandidate | common/state/cache.cpp:74-94 | with only the last block pinned a full cache always has a victim, so replacement never throws |
| DataNodeIo.PinsAfterUse | common/state/cache.cpp:188-226 | after every use the pinned set is again exactly the last block, in the same slot |
| Tries.LookupFindsPairs | common/state/trie.cpp:309-418 | in a well-shaped trie the walk by first byte finds a value if and only if some path spells the key |
| Tries.PlugUpdates | common/state/trie.cpp:309-472 | a change of one key below a place on its path is a change of that key in the whole trie, and of no other |
| Tries.SplitKeepsLookup | common/state/trie.cpp:174-200 | splitting a node changes no key's value |
| Tries.SplitKeepsPairs | common/state/trie.cpp:174-200 | the set of keys and values spelled by the sibling list is the same before and after a split |
| Tries.DropKeepsLookup | common/state/trie.cpp:31-49 | removing a childless node from its list changes no key's value |
| TrieHeap.NodeRoundTrip | common/state/trie.cpp:227-262 | a node record survives its 32 bytes |
| TrieHeap.NodeLayout | common/state/trie.h:33-53 | the 32 bytes of a node: five header fields, next offset, child offset, 15 bytes of key |
| TrieHeap.ValueLayout | common/state/trie.cpp:82-97 | the bytes of a value record: the header 8, eight bytes of the length, the value |
| TrieHeap.ReprFrame | common/state/trie.cpp:227-262 | a trie in memory survives every change outside its own addresses |
| TrieOps.WriteNode | common/state/trie.cpp:241-262 | the record lies where it was, or in space nobody used; all other used addresses keep their bytes; used, free and lost still partition everything below the append cursor; space runs out only for a new node that does not fit |
| TrieOps.ReadValueInfo | common/state/trie.cpp:103-119 | on a value record the header check passes and length and position are right |
| TrieOps.ReadValue | common/state/trie.cpp:121-147 | reads the value of the record |
| TrieOps.PlaceValue | common/state/trie.cpp:64-97 | the record is written to space of its own; a range of just its length that was freed last is taken again, without growth |
| TrieOps.WriteValue | common/state/trie.cpp:51-101 | the old record is marked and becomes free, the new one is written to space of its own, every other used byte stays as the mark left it; a value of the same length goes to the same place; no address is lost but for the mark of an empty value; space runs out only if the record, and that mark, do not fit |
| TrieOps.DeleteValue | common/state/trie.cpp:149-172 | the whole record becomes free and one byte is written, the one behind the length; only for an empty value does it lie outside the record, and only at the end of the memory does it take space |
| TrieOps.MarkSparesNeighbours | common/state/trie.cpp:149-163 | the deletion mark leaves all bytes outside the record alone if and only if the value is not empty, the record ends the memory, or the mark is there already |
| TrieMark.ReprMarked | common/state/trie.cpp:149-163 | the mark keeps every trie in memory that does not hold the byte before it and has no node with a non-empty chunk at it: headers of values and of nodes that end keys may change, what they stand for does not |
| TrieMark.StackMarked | common/state/trie.cpp:149-163 | the same for all nodes on the stack of the walk and all that hangs around them |
| TrieMark.SafeBehind | common/state/trie.cpp:149-163 | a key is safe to overwrite or delete if the byte behind its record belongs to no record, or starts a node that ends a key |
| EmptyValues.MarkKeepsAnswers | common/state/trie.cpp:149-163 | for every memory that holds a trie: marking an empty value of it keeps the result of every search if and only if no node with a non-empty chunk starts right behind the record |
| EmptyValues.EmptyValueLosesKey | common/state/trie.cpp:149-172 | the failing input: a memory that holds a trie, in which marking the empty value of one key makes another key unreadable |
| TrieMap.SharedPrefixLength | common/state/trie.cpp:20-29 | the longest common prefix of the chunk and the rest of the key |
| TrieMap.SplitNode | common/state/trie.cpp:174-200 | the two records of a split lie in memory without touching any other used byte; an append node without room for a node is given up first, and its successor stays empty if a free range holds the new node |
| TrieMap.SplitHere | common/state/trie.cpp:404-411 | after a split the walk stands at a list with the same meaning and shape, one step nearer to the key, and no second split is due |
| TrieMap.MatchNode | common/state/trie.cpp:338-417 | each round of the walk follows the key, creates what is missing for a put, or shows that the key is absent; only a put that splits writes or needs space |
| TrieMap.Descend | common/state/trie.cpp:309-418 | the walk ends for every key: at the node that ends it, or, if the key is absent and nothing is put, with the trie untouched; it writes exactly if a put splits a node, at most once, and creates at most one node for each 15 bytes of the key |
| TrieUpdate.AfterMark | common/state/trie.cpp:149-172 | a mark that falls into the value, or behind an empty value on no node that carries key bytes, keeps the stack, the siblings and everything around the key |
| TrieUpdate.PutHere | common/state/trie.cpp:366-370 | the key gets the new value, whatever the old one was, and the trie in memory is again sound; space runs out only if the record does not fit |
| TrieUpdate.DeleteHere | common/state/trie.cpp:376-380 | the key loses its value, empty or not, and the record its space |
| TrieUpdate.Reclaim | common/state/trie.cpp:31-49 | a childless node leaves its list, its space becomes free with the record marked as deleted in it, no key changes, no space is needed |
| TrieUpdate.Rise | common/state/trie.cpp:422-471 | one step up the stack saves the node and relinks or reclaims it, with the same meaning; only a node without a place needs space |
| TrieUpdate.ActHere | common/state/trie.cpp:363-389 | at the node that ends the key the operation does what a map does there, and throws exactly for a get or delete at a node without a value |
| TrieUpdate.Climb | common/state/trie.cpp:422-471 | from any depth of the stack the walk up reaches the head of the top list with the same meaning |
| TrieUpdate.Ascend | common/state/trie.cpp:420-472 | after unwinding the stack, memory, links and partition describe the updated trie; the space used is at most one record for each new node |
| TrieUpdate.Operate | common/state/trie.cpp:289-472 | put, get and delete answer and change as a map does; get writes nothing; it throws exactly for a get or delete of the empty key with a dead head; a key with an empty value may be put and deleted like any other if its mark hits no node that carries key bytes; space runs out only in a put, or for the mark of an empty value, that does not fit |
| TrieGuard.Hits | common/state/trie.cpp:149-163 | finds out, reading only, whether a put or delete of the key would put its mark on a node that carries key bytes |
| TrieRead.WalkIsSearch | common/state/trie.cpp:309-418 | reading the bytes of a represented trie is searching the trie, in at most as many rounds as it has nodes |
| TrieRead.ReadIsMeant | common/state/trie.cpp:289-418 | over a memory that holds a trie, a get as a function of the bytes gives the value of the map, none, or the exception of the dead empty key |
| TrieRead.ReadStays | common/state/trie.cpp:289-418 | a get that comes to an end comes to the same end with more bytes and more rounds |
| TrieRead.ReadConsistent | common/state/trie.cpp:289-418 | two gets over memories that nowhere contradict each other, however much is missing from either, give the same if both come to an end |
| Base64.DecodeEncode | common/packages/base64/base64.cpp:51-136 | decoding undoes encoding for every byte sequence |
| Base64.SymbolIsLetter | common/packages/base64/base64.cpp:41-44 | value `v` is written as letter `v` of the alphabet, which is spelled out |
| Base64.EncodeMeans | common/packages/base64/base64.cpp:51-93 | every byte of an encoded text: letter `j` of a group names its `j`-th six bits, the highest first, and `=` stands where no byte is left |
| Base64.DecodeMeans | common/packages/base64/base64.cpp:95-136 | what any text decodes to: the whole bytes in the bits of its leading letters |
| Base64.Encode | common/packages/base64/base64.cpp:51-93 | the length is four bytes for each started group of three |
| Base64.EncodeBuffer | common/packages/base64/base64.cpp:51-93 | the grouping loop with its padding tail computes the encoding |
| Base64.DecodeText | common/packages/base64/base64.cpp:95-136 | the decoding loop, which stops at the first padding or foreign byte, computes the decoding |
| JsonSyntax.Utf8Means | common/packages/parson/parson.cpp:821-868 | the UTF-8 bytes of a code point stand for it by the rules of RFC 3629 |
| JsonComplete.StringRead | common/packages/parson/parson.cpp:804-939 | however a string is spelled, with letters, code units or surrogate pairs, the parser gets its bytes |
| JsonComplete.FormRead | common/packages/parson/parson.cpp:941-1123 | every text of a value, with any blanks between its tokens, parses to the value and the position behind it, exactly if it is nested at most 2048 deep |
| JsonSound.StringFrom | common/packages/parson/parson.cpp:804-939 | a string that the parser accepts is a spelling of the bytes that it returns |
| JsonSound.FormFrom | common/packages/parson/parson.cpp:941-1123 | what the parser accepts as a value is a text of a value |
| JsonSound.ParseForm | common/packages/parson/parson.cpp:1408-1416 | after a byte order mark and blanks, and whatever follows, a text of a value parses to it exactly if it is nested at most 2048 deep |
| JsonSound.ParseIff | common/packages/parson/parson.cpp:1408-1416 | the parser returns a value if and only if the input begins with a text of that value and it is nested at most 2048 deep |
| JsonRoundTrip.EscapeIs | common/packages/parson/parson.cpp:1311-1376 | the escape of every byte, spelled out |
| JsonRoundTrip.FormIs | common/packages/parson/parson.cpp:1163-1376 | what the writer writes is a text of the value, without blanks |
| JsonRoundTrip.ParseText | common/packages/parson/parson.cpp:1408-1416 | parsing a serialized value gives the value back if and only if it is at most 2048 levels deep |
| JsonBuffer.SerializeString | common/packages/parson/parson.cpp:1311-1376 | writes the quoted text, or only measures it, and reports its exact length; no byte behind the terminating zero changes |
| JsonBuffer.Serialize | common/packages/parson/parson.cpp:1163-1309 | measuring and writing agree: the buffer receives exactly the text and a zero, the bytes before and behind stay as they were |
| JsonBuffer.SerializeToBuffer | common/packages/parson/parson.cpp:1824-1841 | succeeds exactly when the buffer has room for the text and its terminating zero; the rest of the buffer, and on failure all of it, stays as it was |
| JsonBuffer.GetQuotedString | common/packages/parson/parson.cpp:930-939 | cursor code computes the string and the position after it |
| JsonBuffer.ParseValueAt | common/packages/parson/parson.cpp:941-964 | cursor code computes the parse of a value at a nesting |
| JsonBuffer.ParseObjectAt | common/packages/parson/parson.cpp:966-1037 | the member loop, run over the hash table of the object, computes the parse of an object, with its duplicate and separator rules |
| JsonBuffer.ParseRound | common/packages/parson/parson.cpp:987-1029 | one round adds one member to the table, or fails on a malformed member, a repeated name or a missing separator |
| JsonBuffer.ParseArrayAt | common/packages/parson/parson.cpp:1039-1086 | the item loop computes the parse of an array |
| JsonBuffer.ParseString | common/packages/parson/parson.cpp:1408-1416 | the whole parser computes the parse of a text |
| ProbeTables.MaskedProbe | common/packages/parson/parson.cpp:572-585 | masking with the capacity less one is the remainder, for the home cell and for every probe |
| ProbeTables.MaskedStep | common/packages/parson/parson.cpp:701 | the masked step of the deletion loop goes to the next cell, from the last one to the first |
| ProbeTables.SomeVacant | common/packages/parson/parson.cpp:572-601 | a table always has a vacant cell, so every search ends |
| ProbeTables.MissingName | common/packages/parson/parson.cpp:572-601 | a search that meets a vacant cell has shown that no member has the name |
| ProbeTables.AddKeeps | common/packages/parson/parson.cpp:603-637 | appending a member at the cell where its search stopped keeps the table linked and every entry reachable |
| ProbeTables.SwapKeeps | common/packages/parson/parson.cpp:687-696 | after the last member takes the removed one's slot, everything is linked but the removed member's cell |
| ProbeTables.MustMoveIsCrossing | common/packages/parson/parson.cpp:705-711 | the cyclic comparison of the deletion loop holds if and only if the search for the entry passes the hole |
| ProbeTables.CloseStep | common/packages/parson/parson.cpp:698-713 | each round of the backward shift keeps every entry reachable; at a vacant cell the hole may be cleared |
| ObjectTables.HashString | common/packages/parson/parson.cpp:436-454 | the 64-bit hash of the part before the first zero byte, wrap-around included |
| ProbeTables.HashMeans | common/packages/parson/parson.cpp:436-454 | the hash in closed form: 5381 and the bytes as digits in base 33, modulo 2 to the power 64 |
| ObjectTables.ObjectTable.FindCell | common/packages/parson/parson.cpp:572-601 | finds the cell of a name if and only if a member has it, else the vacant cell that may take it |
| ObjectTables.ObjectTable.GrowAndRehash | common/packages/parson/parson.cpp:542-570 | a larger table with the same members in the same order and with room for one more |
| ObjectTables.ObjectTable.Add | common/packages/parson/parson.cpp:603-637 | fails exactly on a name that is there; else the member comes last and only its name answers differently |
| ObjectTables.ObjectTable.GetValue | common/packages/parson/parson.cpp:639-655 | the answer of the list of members |
| ObjectTables.ObjectTable.Listing | common/packages/parson/parson.cpp:1503-1515 | reading name and value by index gives all members in order |
| ObjectTables.ObjectTable.SetValue | common/packages/parson/parson.cpp:2113-2154 | replaces in place or appends; only the name that is set answers differently |
| ObjectTables.ObjectTable.CloseGap | common/packages/parson/parson.cpp:698-713 | the backward shift ends with a valid table of the same members |
| ObjectTables.ObjectTable.Remove | common/packages/parson/parson.cpp:657-715 | fails exactly on a missing name; else the last member takes the place and only that name answers differently |
| ObjectTables.RemoveIsRemoval | common/packages/parson/parson.cpp:657-715 | swapping in the last member removes exactly one name from the map |
| StateNodes.ChainCollision | common/state/StateUtils.cpp:63-175 | from two different id lists of any lengths with one chain value, two different messages with one hash are computed |
| StateNodes.ChainOfThree | common/state/StateUtils.cpp:84-94 | the chain over three ids, written out |
| StateNodes.AuthenticatorDecides | common/state/StateUtils.cpp:130-175 | a block that holds a list of ids, however it is laid out, is accepted if and only if its authenticator is that of the chain over the ids |
| StateNodes.AnyAuthenticator | common/state/StateUtils.cpp:130-175 | the same for the text with any bytes in the place of the authenticator |
| StateNodes.OneListPerAuthenticator | common/state/StateUtils.cpp:166-174 | two blocks accepted with one authenticator but different lists show two messages with one hash or two chain values with one authenticator |
| StateNodes.RootText | common/state/StateUtils.cpp:63-128 | the root block byte by byte |
| StateNodes.RootBlockRoundTrip | common/state/StateUtils.cpp:63-175 | a root block lists exactly the ids it was made from |
| StateNodes.StateNode.BlockifyChildren | common/state/StateUtils.cpp:63-128 | the loop over the ids produces the root block |
| StateNodes.StateNode.UnBlockifyChildren | common/state/StateUtils.cpp:130-175 | succeeds exactly when the block parses, lists strings and carries the authenticator of its list, and then yields the listed ids |
| StateKeyValue.StateKV.Create | common/state/state_kv.cpp:20-47 | a new store is valid and empty; it cannot throw, run out of space, or miss a block of an intact block store |
| StateKeyValue.StateKV.Get | common/state/state_kv.cpp:118-134 | the value last put or the empty value; no byte changes; throws exactly on a dead empty key; never out of space; the bytes of the store, read as a function, give the same |
| StateKeyValue.StateKV.Put | common/state/state_kv.cpp:136-150 | the contents change at this key only; replaces empty values too, if no node that carries key bytes starts right behind the record; never throws; out of space only if `PutNeed` more bytes do not fit, a node for each 15 bytes of the key among them; a value of the same length takes no space; no address is lost; leaves the append block empty only by a split |
| StateKeyValue.StateKV.Delete | common/state/state_kv.cpp:152-167 | the contents lose this key only, also one with an empty value under the same condition; throws exactly on a dead empty key; uses no space and loses no address, but one byte for the mark of an empty value at the end |
| StateKeyValue.StateKV.Turn | common/state/sebio.cpp:79-119 | whatever the block store answers from now on, the store and its contents stay valid |
| StateKeyValue.StateKV.SaveTable | common/state/state_kv.cpp:80-85 | the stored table holds the first 682 ranges of the whole free list; throws exactly after an empty data node; out of space only if one more block does not fit |
| StateKeyValue.StateKV.ReuseTable | common/state/state_kv.cpp:86-90 | an unmodified free list is covered by the table it was loaded from, which is listed again |
| StateKeyValue.StateKV.WriteRoot | common/state/block_warehouse.cpp:20-28 | the root block in the store lists the block ids |
| StateKeyValue.StateKV.Finalize | common/state/state_kv.cpp:72-116 | the store holds the contents under the returned id, with this memory, this trie and this free list (`Saved`), and everything stored before; throws exactly when a table is due after an empty data node; out of space only if the table does not fit |
| StateKeyValue.StateKV.SavedAll | common/state/state_kv.cpp:80-90 | no free address is forgotten if and only if a table is written and the list fits in it, or nothing has been collected since the table was loaded |
| StateHistory.Reopen | common/state/state_kv.cpp:49-116 | finalize and open: the same contents, trie, memory and append position; the free list is the saved one, and what is not in it is lost |
| StateKeyValue.StateKV.Open | common/state/state_kv.cpp:49-70 | yields a valid store with exactly the persisted contents, memory and free list; throws exactly when no authentic root block has that id; from an intact block store nothing is unavailable; the block store does not change |
| StateKeyValue.StateKV.Initialize | common/state/data_node_io.cpp:25-46 | the last listed block is the table, the one before it the append node, and the loaded free list covers no live record; a block that is lost or forged is reported as unavailable |
| StateKeyValue.Recorded | common/state/state_kv.cpp:72-116 | flushed blocks, a table of part of the free space and a root block make a persisted state |
| StateKeyValue.PersistedStays | common/state/sebio.cpp:126-161 | what is persisted stays persisted, whatever is stored later |
| StateContents.SplitMeansClash | common/state/trie.cpp:404-411 | a put splits a node only if another key that was ever put begins with the same byte |
| StateContents.TailAfterPut | common/state/data_node_io.cpp:60-99 | one more put keeps it true that the append block is left empty only if two different keys that were ever put begin with the same byte |
| EmptyTails.SplitThenFinalize | common/state/trie.cpp:174-200 | the failing input: the memory and free ranges that a put, a long put and its deletion leave, whatever bytes remain in the free space; one more put splits a node and leaves the append block empty, and the attempt to finalize throws |
| StateHistory.Run | common/state/state_kv.cpp:118-167 | every sequence of operations gives the replies and the contents of a map, whatever the block store answers from one operation to the next; it throws only where `Throws` says, passes only if nothing throws, runs out of space only if its operations do not fit, and stops before a harmful mark only if it replaces or deletes an empty value |
| StateHistory.OtherKeyFirst | common/state/trie.cpp:427-433 | after a first key that is not empty no run ever throws |
| StateHistory.EmptyKeyFirst | common/state/trie.cpp:427-433 | the failing input: the empty key put first and deleted cannot be read |
| Tries.DeadHeadIff | common/state/trie.cpp:427-433 | the head that is never reclaimed is dead exactly when the empty key was put first and has no value |
| Tries.PlugHead | common/state/trie.cpp:427-433 | no change below or after the head of the top list turns it into another kind of head |
| StateHistory.Session | common/state/state_kv.cpp:20-167 | create or open, any operations, finalize: the new id holds the contents that a map would have; it throws only for a dead empty key, two keys that begin alike, or a block store that is not intact; the block store may change its answers before every step |
| StateHistory.History | common/state/state_kv.cpp:20-167 | over any number of sessions each goes on where the last one ended, and every id ever returned keeps the contents of its time; it throws and runs out of space only for the same reasons, over all keys and operations; the block store may change its answers before every operation of every session |
| RootBinding.ReprUnique | common/state/trie.cpp:227-239 | a memory and an offset determine the trie |
| RootBinding.OneReadingPerRoot | common/state/sebio.cpp:79-119 | for any two block stores, whatever they lost, forged or made up, any root id, key and numbers of rounds: two gets that both come to an end give the same, or two different blocks with one hash are found |
| RootBinding.ReadPersisted | common/state/state_kv.cpp:49-134 | under the id of a persisted state a get as a function of the block store gives what the contents say |
| RootBinding.OneMapPerRoot | common/state/sebio.cpp:79-119 | two block stores that both hold all blocks of a state under one root id hold the same map, or two different blocks with one hash are found |
| InterpreterKeys.NoInterference | common/state/interpreter_kv.cpp:24-110 | in every interleaving of privileged and unprivileged operations each side sees only its own |
| InterpreterKeys.KeysApart | common/state/interpreter_kv.cpp:24-38 | the prefixes are `P` and `p`; different keys stay different and no key of one interface is a key of the other |
| InterpreterKeys.Serve | common/state/interpreter_kv.cpp:66-110 | over the real store, whatever the block store answers from one operation to the next, both interfaces behave as separate maps and neither ever throws; space runs out only if the operations do not fit |
| WorkerProtocol.WorkerKeeps | eservice/lib/libpdo_enclave/contract_worker.cpp:34-69 | every step of the worker keeps the invariant |
| WorkerProtocol.RequestKeeps | eservice/lib/libpdo_enclave/contract_worker.cpp:72-95 | every step of a request thread keeps the invariant |
| WorkerProtocol.Safe | eservice/lib/libpdo_enclave/contract_enclave.cpp:63-67 | every interleaving of any number of threads keeps the invariant, wake-ups without a signal included |
| WorkerProtocol.OneHolder | eservice/lib/libpdo_enclave/contract_worker.cpp:72-95 | at most one request has the interpreter |
| WorkerProtocol.OrderIsLocal | eservice/lib/libpdo_enclave/contract_worker.cpp:34-95 | the order of events is kept if and only if each has the right predecessor |
| WorkerProtocol.EveryRun | eservice/lib/libpdo_enclave/contract_worker.cpp:34-95 | Initialize and Finalize alternate, every holder gets a freshly initialized interpreter, nobody else touches it while it is held |
| WorkerProtocol.CanGoOn | eservice/lib/libpdo_enclave/contract_worker.cpp:34-95 | no wake-up is lost: while a request is under way some thread can go on |
| WorkerProtocol.EveryRequestServed | eservice/lib/libpdo_enclave/contract_worker.cpp:34-95 | from every reachable state, without spurious wake-ups and new requests, every run of steps is bounded, and when no thread can go on every request that was waiting has had the interpreter, has released it and is idle |
| WorkerProtocol.EveryRequestCanBegin | eservice/lib/libpdo_enclave/contract_worker.cpp:72-95 | an idle thread can begin in every reachable state; it then waits, and there is a run in which it gets the interpreter and releases it |

## Left out

- JSON numbers, comments, pretty printing, UTF-8 validation of set strings, and the dotted-path functions of parson.
- Allocation failures, logging, and errors of the block store other than a missing or forged block.
- The cryptographic primitives; encryption keys are part of the `Crypto` functions, nonces are arbitrary.
- Stores beyond 524,800 data nodes: 32-bit addresses would wrap around there, and the model stops with `Exhausted`.
- Fields of a freshly made trie node that the program leaves uninitialized are zero in the model.
- The two header bits of a node that no code reads are always written as set.
- A delete on the dead empty key reads the header of block 0 as a value header in the program; the model throws at once, as the program does after that read.
- StateKeyValue.StateKV.Put: does not cover replacing an empty value where a node that carries key bytes starts right behind the record, because the mark then destroys that node; what it does there is `EmptyValues.MarkKeepsAnswers`.
- StateKeyValue.StateKV.Delete: does not cover deleting an empty value there, for the same reason, not even where the same deletion writes or reclaims the node it has hit.
- TrieUpdate.Operate: a put or delete asks for the same, and so do `PutHere`, `DeleteHere` and `ActHere` at the node that ends the key.
- StateHistory.Run: reads the trie with `TrieGuard.Hits` before a put or delete and stops instead of doing harm, which the program does not; `Session`, `History` and `InterpreterKeys.Serve` likewise. The extra reads change no content.
- EmptyValues.MarkKeepsAnswers: is about the mark alone; the rest of the deletion is `TrieUpdate.Operate`.
- BlockCache.Cache.ListIds: takes it that the listed blocks were once evicted, as those of a root block from Finalize were.
- StateKeyValue.StateKV.Open: takes it that a root block that authenticates was written by Finalize.
- StateKeyValue.StateKV.Initialize: takes the same of the root whose blocks it lists.
- StateKeyValue.StateKV.Finalize: says nothing about further use of the object, whose cache is empty and whose append slot is stale afterwards.
- StateHistory.History: says at most when it throws, as `Session` does.
- StateHistory.Session: says at most when it throws, since whether a split leaves the append block empty depends on the layout of the memory; `Finalize` says exactly when.
- RootBinding.OneReadingPerRoot: a link that leads into the eight header bytes of a block counts as a fault, where the program would read them.
- JsonBuffer.ParseValueAt: a number is a failure here, where the program reads it.
- JsonBuffer.ParseString: likewise for a text with a number in it.
- JsonSound.ParseIff: likewise, a text with a number in it is no text of a value here.
- StateNodes.StateNode.UnBlockifyChildren: likewise for a root block with an extra member that holds a number; the program writes none.
- Data nodes in cache slots are values and a slot is an index, so two slots cannot share a node; that a pinned append slot stays in place is proved.
- Cache.sync and Cache.drop, which nothing in the store calls.
- The shutdown of the contract worker, which forces the done state on purpose.
- The root block is written as in the enclave, where slashes are not escaped.
- The request and response code of the contract enclave, key sealing, and the Python services.
