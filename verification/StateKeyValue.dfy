/** The key-value store of a contract: created, opened under a root id, used, and finalized. */
module StateKeyValue {
  import opened ByteCodec
  import opened Addressing
  import opened DataNodes
  import opened SecureBlockIo
  import opened BlockCache
  import opened FlatMemory
  import opened FreeSpace
  import opened FreeTable
  import opened DataNodeIo
  import opened Tries
  import opened TrieHeap
  import opened TrieStack
  import opened TrieMark
  import opened TrieWalk
  import opened TrieMap
  import opened TrieOps
  import opened TrieUpdate
  import opened TrieGuard
  import opened TrieRead
  import opened StateNodes
  import opened StateContents

  datatype Mode = Uninitialized | Created | Opened

  /** A stored block is the table of these free ranges. */
  ghost predicate TableAt(c: Crypto, blocks: map<Bytes, Bytes>, id: Bytes, items: seq<FreeItem>) {
    && id in blocks && |c.unseal(blocks[id])| == 8192 && HoldsTable(Deserialize(c.unseal(blocks[id]), id), items)
    && TableOk(items)
  }

  /** Everything that a root block stands for: the data blocks, the memory they make up, the trie
      in it and the ranges of the table. */
  datatype Snapshot = Snapshot(
    ids: seq<Bytes>, data: seq<Bytes>, mem: Bytes, end: nat, top: Tree, lost: set<int>, items: seq<FreeItem>)

  /** The data blocks of a snapshot are in the store, with the free count of the last. */
  ghost predicate BlocksStored(c: Crypto, blocks: map<Bytes, Bytes>, s: Snapshot) {
    && 0 < |s.data| <= MAX_BLOCKS && |s.ids| == |s.data| + 1 && Flat(s.data, s.mem)
    && (forall b :: 0 <= b < |s.data| ==> Image(c, blocks, s.ids[b], b, s.data[b]))
    && s.end <= |s.mem| && |s.mem| - s.end <= 8184
    && FreeStored(c, blocks, s.ids, |s.data| - 1, |s.mem| - s.end)
  }

  /** The data blocks and the table of a snapshot are in the store. */
  ghost predicate InBlocks(c: Crypto, blocks: map<Bytes, Bytes>, s: Snapshot) {
    BlocksStored(c, blocks, s) && TableAt(c, blocks, s.ids[|s.data|], s.items)
  }

  ghost predicate Holds(s: Snapshot, state: Contents) {
    && Represents(s.top, state.pairs) && HeadOf(s.top) == state.first && OnlyKeys(s.top, state.ever)
    && TailOk(Space(|s.mem|, s.end, s.items), state.ever) && s.end <= state.size
  }

  /** Opening `id` leads to this snapshot, which holds these contents. */
  ghost predicate PersistedAs(c: Crypto, blocks: map<Bytes, Bytes>, id: Bytes, state: Contents, s: Snapshot) {
    && id in blocks && Listed(c, blocks[id]) == Some(s.ids)
    && InBlocks(c, blocks, s)
    && TrieAt(s.mem, s.end, Covered(s.items), s.lost, s.top)
    && Holds(s, state)
  }

  ghost predicate Persisted(c: Crypto, blocks: map<Bytes, Bytes>, id: Bytes, state: Contents) {
    exists s :: PersistedAs(c, blocks, id, state, s)
  }

  /** What has been persisted stays, whatever is stored later. */
  lemma PersistedStays(c: Crypto, blocks: map<Bytes, Bytes>, later: map<Bytes, Bytes>, id: Bytes, state: Contents)
    requires Extends(blocks, later) && Persisted(c, blocks, id, state)
    ensures Persisted(c, later, id, state)
  {
    hide TrieAt, Holds, Listed, HoldsTable, Sorted, Coalesced, Flat;
    var s :| PersistedAs(c, blocks, id, state, s);
    assert PersistedAs(c, later, id, state, s);
  }

  lemma TableStays(c: Crypto, blocks: map<Bytes, Bytes>, later: map<Bytes, Bytes>, id: Bytes, items: seq<FreeItem>)
    requires Extends(blocks, later) && TableAt(c, blocks, id, items)
    ensures TableAt(c, later, id, items)
  {
  }

  /** Ranges as a table holds them. */
  ghost predicate TableOk(items: seq<FreeItem>) {
    Sorted(items) && Coalesced(items) && forall i :: 0 <= i < |items| ==> Storable(items[i])
  }

  /** Blocks that make up `mem`, then a block that holds a table. */
  ghost predicate StagedView(v: View, mem: Bytes, end: nat, items: seq<FreeItem>) {
    && 1 < |v.ids| <= MAX_BLOCKS + 1 && |v.nums| == |v.data| == |v.ids|
    && var n := |v.ids| - 1;
       && (forall b :: 0 <= b < n ==> v.nums[b] == b) && Flat(v.data[..n], mem)
       && end <= |mem| && |mem| - end <= 8184 && n - 1 in v.frees && v.frees[n - 1] == |mem| - end
       && n in v.frees && exists dn :: HoldsTable(dn, items) && Payload(dn) == v.data[n] && v.frees[n] == dn.freeBytes
  }

  /** The blocks of a snapshot are listed, with the free counts of the last two. */
  ghost predicate Listing(v: View, s: Snapshot) {
    && |v.nums| == |v.data| == |v.ids| == |s.data| + 1 && |s.data| > 0
    && var n := |s.data|;
       && (forall b :: 0 <= b < n ==> v.nums[b] == b) && v.data[..n] == s.data
       && s.end <= |s.mem| && v.frees.Keys == {n - 1, n} && v.frees[n - 1] == |s.mem| - s.end
       && exists dn :: HoldsTable(dn, s.items) && Payload(dn) == v.data[n] && v.frees[n] == dn.freeBytes
  }

  /** At most block `b` is cached, and nobody uses it. */
  ghost predicate OnlyCached(entries: map<nat, Entry>, b: nat) {
    forall d :: d in entries ==> d == b && Candidate(entries[d]) && !entries[d].modified
  }

  /** What an opened store was loaded from is still there. */
  ghost predicate OpenedAt(c: Crypto, g: Ground, tableId: Bytes, table: seq<FreeItem>, id: Bytes) {
    && tableId == g.spare && TableAt(c, g.stored.blocks, tableId, table) && table == g.loaded
    && id in g.stored.blocks && Listed(c, g.stored.blocks[id]) == Some(g.origin + [tableId])
  }

  lemma OpenedLater(c: Crypto, g: Ground, g': Ground, tableId: Bytes, table: seq<FreeItem>, id: Bytes)
    requires Later(g, g')
    ensures Grows(g.stored, g'.stored)
    ensures OpenedAt(c, g, tableId, table, id) ==> OpenedAt(c, g', tableId, table, id)
  {
    hide Listed, HoldsTable, TableOk, Covered;
  }

  class StateKV {
    const io: DataNodeIo
    const root: StateNode
    var mode: Mode
    var tableId: Bytes

    ghost var top: Tree
    ghost var lost: set<int>
    ghost var contents: map<Bytes, Bytes>
    ghost var ever: set<Bytes>
    ghost var table: seq<FreeItem>

    /** An opened store can return the root it was opened with, if nothing is to be written. */
    ghost predicate OpenedOk()
      reads this, io, io.cache, io.cache.store, io.collector, root
    {
      OpenedAt(io.cache.store.crypto, io.Base(), tableId, table, root.blockId)
    }

    ghost predicate Valid()
      reads this, io, io.cache, io.cache.warehouse, io.cache.store, io.collector, root
    {
      && !mode.Uninitialized? && io.Valid() && HoldsTrie(io, top, lost) && Represents(top, contents)
      && OnlyKeys(top, ever) && TailOk(io.Room(), ever)
      && (mode.Opened? ==> OpenedOk())
    }

    /** Whether any key was ever put, and whether the first one was empty. */
    ghost function First(): First
      reads this
    {
      HeadOf(top)
    }

    /** All that the store holds, and how much of the memory it has used. */
    ghost function State(): Contents
      reads this, io
    {
      Contents(contents, First(), ever, io.end)
    }

    ghost function Objects(): set<object> {
      {this, root} + io.Parts()
    }

    constructor (store: BlockStore)
      requires store.Valid()
      ensures Blank() && io.cache.store == store && fresh(Objects() - {store})
    {
      hide Cache.Valid, FreeSpaceCollector.Valid;
      io := new DataNodeIo(store);
      root := new StateNode();
      mode, tableId := Uninitialized, [];
      top, lost, contents, ever, table := Leaf, {}, map[], {}, [];
    }

    /** The state that a store has right after its constructor. */
    ghost predicate Blank()
      reads this, io, io.cache, io.cache.warehouse, io.cache.store, io.collector, root
    {
      && mode.Uninitialized? && io.cache.Valid() && io.collector.Valid()
      && io.cache.entries == map[] && io.cache.warehouse.ids == [] && io.cache.nums == [] && io.cache.data == []
      && io.cache.frees == map[] && io.cache.synced == 0
      && io.collector.free == {} && io.collector.items == [] && !io.collector.isDeferred && !io.collector.isModified
      && root.children == []
    }

    /** The first data node is written to the store, listed, loaded and pinned. */
    method FirstBlock() returns (r: Outcome)
      requires Blank()
      modifies Objects()
      ensures Fair(io.cache.store.crypto, r, old(io.cache.store.AllHeld()), 0) && !r.Thrown?
      ensures r.Pass? ==> io.Valid() && io.mem == Zeros(8184) && io.end == 0 && io.collector.free == {}
      ensures r.Pass? ==> Grows(old(io.cache.store.State()), io.cache.store.State())
    {
      hide Coherent, SlotsOk, CryptoOk, ContentAddressed, FreeSpaceCollector.Valid, Deserialize, SerializeHeader;
      var c := io.cache.store.crypto;
      var dn := EmptyNode(0);
      var nonce: nat := *;
      var id;
      id :- io.cache.store.Evict(c.seal(nonce, SerializeHeader(dn)));
      FirstImage(c, io.cache.store.blocks, id, nonce);
      EmptyCoherent(c, old(io.cache.Now()), io.cache.Now());
      io.cache.AddStored(id, 0, Zeros(8184));
      FlatOne(io.cache.data[0]);
      r := io.InitAppendBlock(Zeros(8184));
    }

    /** The constructor that creates an empty store. */
    method Create() returns (r: Outcome)
      requires Blank()
      modifies Objects()
      ensures Fair(io.cache.store.crypto, r, old(io.cache.store.AllHeld()), 0) && !r.Thrown?
      ensures r.Pass? ==> Valid() && mode.Created? && State() == Contents(map[], NoKey, {}, 32)
      ensures r.Pass? ==> Grows(old(io.cache.store.State()), io.cache.store.State())
    {
      hide DataNodeIo.Valid, WriteFlat, EncodeNode, Cache.Valid, FreeSpaceCollector.Valid, TrieAt, Extends, Intact,
        SizeTo;
      hide OnlyKeys, TailOk, Represents, Lookup, Zeros;
      :- FirstBlock();
      ghost var stored := io.cache.store.State();
      var rec := NewRecord([], 0);
      :- io.Write(EncodeNode(rec), ROOT);
      EmptyTrie(Zeros(8184), io.mem, rec, io.collector.items);
      top, lost, contents, ever, mode := Leaf, {}, map[], {}, Created;
      GrowsInTurn(old(io.cache.store.State()), old(io.cache.store.State()), stored, io.cache.store.State());
      r := Pass;
    }

    /** A store depends on all blocks that were ever evicted, not on what the block store answers. */
    method Turn(keeper: Keeper, at: Moment)
      requires Valid()
      modifies io.cache.store`held
      ensures Valid() && State() == old(State())
      ensures GrowsUnder(Honest(keeper), old(io.cache.store.State()), io.cache.store.State())
    {
      hide Coherent, SlotsOk, CryptoOk, ContentAddressed, FreeSpaceCollector.Valid, TrieAt, Represents, OnlyKeys,
        TailOk,
        TableAt, Listed, Covered, Flat, Honest, GrowsUnder;
      io.cache.store.Turn(keeper, at);
    }

    /** The empty key was the first key ever put and has no value now: the one case in which a get
        or a delete throws. */
    ghost predicate EmptyKeyThrows(key: Bytes)
      reads this
    {
      key == [] && First() == FirstKey(true) && [] !in contents
    }

    /** Get: the value last put, or the empty value. No byte of the store changes. */
    method Get(key: Bytes) returns (r: Outcome, value: Bytes)
      requires Valid()
      modifies io.Parts()
      ensures Fair(io.cache.store.crypto, r, old(io.cache.store.AllHeld()), 0)
      ensures r.Pass? || r.Thrown? ==> Valid() && io.mem == old(io.mem) && io.end == old(io.end)
      ensures r.Pass? || r.Thrown? ==> Grows(old(io.cache.store.State()), io.cache.store.State())
      ensures r.Pass? ==> value == if key in contents then contents[key] else []
      ensures r.Pass? ==> !EmptyKeyThrows(key)
      ensures r.Thrown? ==> EmptyKeyThrows(key)
      ensures r.Pass? ==> ReadsAs(key, if key in contents then Found(value) else Missing)
      ensures r.Thrown? ==> ReadsAs(key, Throws)
    {
      hide DataNodeIo.Valid, TrieAt, OpenedAt, Later, Grows, OnlyKeys, Grew, TailOk, Intact, ReadKey;
      DeadTop();
      MeansOf(top, contents, key);
      ghost var top', lost';
      r, value, top', lost' := Operate(io, GetOp, key, [], top, lost);
      if r.Pass? || r.Thrown? {
        OpenedLater(io.cache.store.crypto, old(io.Base()), io.Base(), tableId, table, root.blockId);
        TailSame(old(io.Room()), io.Room(), ever);
        ReadMeans(key);
      }
    }

    /** What the key reads as in the bytes of the store, in as many rounds as there is room for nodes. */
    ghost predicate ReadsAs(key: Bytes, reading: Reading)
      reads io
    {
      forall n: nat :: 32 * n > io.end ==> ReadKey(MemoryOf(io.mem), key, n) == reading
    }

    lemma ReadMeans(key: Bytes)
      requires io.Valid() && HoldsTrie(io, top, lost)
      ensures ReadsAs(key, Meant(top, key))
    {
      hide DataNodeIo.Valid, TrieAt, ReadKey, Meant;
      io.Bounds();
      forall n: nat | 32 * n > io.end ensures ReadKey(MemoryOf(io.mem), key, n) == Meant(top, key) {
        ReadIsMeant(io.mem, io.end, io.collector.free, lost, top, key, n);
      }
    }

    lemma DeadTop()
      requires Valid()
      ensures DeadHead(top) <==> First() == FirstKey(true) && [] !in contents
    {
      DeadMeans(top, contents);
    }

    /** The value may be overwritten or deleted: it is not empty, or the mark that goes past its
        record hits no node of another key. */
    ghost predicate Replaceable(key: Bytes)
      reads this
    {
      MarkSafe(top, key)
    }

    /** The key has the empty value. */
    ghost predicate EmptyAt(key: Bytes)
      reads this
    {
      key in contents && contents[key] == []
    }

    /** A check that the program does not make: whether the key may be overwritten or deleted. Only
        the deletion of an empty value can do harm. */
    method Check(key: Bytes) returns (r: Outcome, safe: bool)
      requires Valid()
      modifies io.Parts()
      ensures Fair(io.cache.store.crypto, r, old(io.cache.store.AllHeld()), 0) && !r.Thrown?
      ensures r.Pass? ==> Valid() && (safe <==> Replaceable(key)) && (!safe ==> EmptyAt(key))
      ensures r.Pass? ==> State() == old(State())
      ensures r.Pass? ==> Grows(old(io.cache.store.State()), io.cache.store.State())
    {
      hide DataNodeIo.Valid, TrieAt, OpenedAt, Later, Grows, OnlyKeys, TailOk, Intact;
      safe := false;
      MeansOf(top, contents, key);
      var hit;
      hit :- Hits(io, key, top, lost);
      OpenedLater(io.cache.store.crypto, old(io.Base()), io.Base(), tableId, table, root.blockId);
      r, safe := Pass, !hit;
    }

    /** Put: the key has the new value and no other key changes. */
    method Put(key: Bytes, value: Bytes) returns (r: Outcome)
      requires Valid() && Replaceable(key)
      modifies this`top, this`lost, this`contents, this`ever, io.Parts()
      ensures Fair(io.cache.store.crypto, r, old(io.cache.store.AllHeld()), old(io.end) + PutNeed(key, value))
      ensures !r.Thrown?
      ensures r.Pass? ==> Valid() && contents == old(contents)[key := value] && ever == old(ever) + {key}
      ensures r.Pass? ==> First() == if old(First()) == NoKey then FirstKey(key == []) else old(First())
      ensures r.Pass? ==> Leaks(old(lost), lost, old(io.end), old(EmptyAt(key)))
      ensures r.Pass? && old(key in contents && |contents[key]| == |value| > 0) ==> io.end == old(io.end)
      ensures r.Pass? ==> PutGrew(old(io.Room()), io.Room(), old(Splits(top, key)), PutNeed(key, value))
      ensures r.Pass? ==> Grows(old(io.cache.store.State()), io.cache.store.State())
    {
      hide DataNodeIo.Valid, TrieAt, OpenedAt, Later, Grows, Represents, OnlyKeys, PutGrew, TailOk, Intact, Splits,
        Operated, MarkSafe, PutNeed;
      MeansOf(top, contents, key);
      var out;
      ghost var top', lost';
      r, out, top', lost' := Operate(io, PutOp, key, value, top, lost);
      if r.Pass? {
        Added(top, top', contents, ever, key, value, out, old(io.Room()), io.Room());
        OpenedLater(io.cache.store.crypto, old(io.Base()), io.Base(), tableId, table, root.blockId);
        top, lost := top', lost';
        contents, ever := contents[key := value], ever + {key};
      }
    }

    /** Delete: the key has no value and no other key changes. */
    method Delete(key: Bytes) returns (r: Outcome)
      requires Valid() && Replaceable(key)
      modifies this`top, this`lost, this`contents, io.Parts()
      ensures Fair(io.cache.store.crypto, r, old(io.cache.store.AllHeld()),
                   old(if EmptyAt(key) then io.end + 1 else 0))
      ensures r.Pass? || r.Thrown? ==> Valid() && Grows(old(io.cache.store.State()), io.cache.store.State())
      ensures r.Pass? || r.Thrown? ==> old(io.end) <= io.end <= old(io.end + if EmptyAt(key) then 1 else 0)
      ensures r.Pass? || r.Thrown? ==> |io.mem| == old(|io.mem|) || old(EmptyAt(key))
      ensures r.Pass? ==> Leaks(old(lost), lost, old(io.end), old(EmptyAt(key)))
      ensures r.Pass? ==> contents == old(contents) - {key} && First() == old(First()) && !old(EmptyKeyThrows(key))
      ensures r.Thrown? ==> contents == old(contents) && First() == old(First()) && old(EmptyKeyThrows(key))
    {
      hide DataNodeIo.Valid, TrieAt, OpenedAt, Later, Grows, Represents, OnlyKeys, TailOk, Intact, MarkSafe, Operated,
        Leaks;
      MeansOf(top, contents, key);
      DeadTop();
      var out;
      ghost var top', lost';
      r, out, top', lost' := Operate(io, DelOp, key, [], top, lost);
      if r.Pass? || r.Thrown? {
        OpenedLater(io.cache.store.crypto, old(io.Base()), io.Base(), tableId, table, root.blockId);
      }
      if r.Thrown? {
        TailSame(old(io.Room()), io.Room(), ever);
      }
      if r.Pass? {
        Deleted(top, top', contents, ever, key, out, old(io.Room()), io.Room());
        top, lost := top', lost';
        contents := contents - {key};
      }
    }

    ghost predicate NothingAppended()
      reads io, io.collector
    {
      EmptyTail(io.Room())
    }

    /** The table of free ranges is to be written anew. */
    predicate TableDue()
      reads this, io.collector
    {
      mode.Created? || io.collector.isModified
    }

    /** The free ranges that a finalize leaves in the stored table: the whole list, as far as 682
        ranges fit, or the table that was loaded. */
    ghost function Saved(): seq<FreeItem>
      requires Valid()
      reads this, io, io.cache, io.cache.warehouse, io.cache.store, io.collector, root
    {
      if TableDue() then Storing(io.collector.Ranges()) else table
    }

    /** No free address is forgotten if and only if the table is written and the list fits, or nothing
        has been collected since the table was loaded. */
    lemma SavedAll()
      requires Valid()
      ensures Covered(Saved()) <= io.collector.free
      ensures Covered(Saved()) == io.collector.free <==>
              if TableDue() then |io.collector.Ranges()| <= 682
              else !io.collector.isDeferred && io.collector.items == table
    {
      hide Covered, Coalesced, Collected, TrieAt, Represents, OnlyKeys, TailOk, Cache.Valid;
      io.collector.RangesOk();
      var all := io.collector.Ranges();
      PrefixSubset(all, |Storing(all)|);
      PrefixWhole(all, |Storing(all)|);
      if io.collector.isDeferred {
        var d := io.collector.deferred;
        assert Start(d) in Area(d);
      }
    }

    /** Everything is ready to be written out: data blocks that make up `mem`, then a table. */
    ghost predicate Staged(mem: Bytes, end: nat, items: seq<FreeItem>)
      reads io.cache, io.cache.warehouse, io.cache.store
    {
      && io.cache.Valid() && StagedView(io.cache.Now(), mem, end, items)
      && forall b :: b in io.cache.entries ==> io.cache.entries[b].references == 0
    }

    /** The table goes into the new last block. */
    method FillTable(ghost mem: Bytes, ghost end: nat) returns (ghost items: seq<FreeItem>)
      requires io.Valid() && |io.cache.warehouse.ids| > 1 && io.mem == mem + Zeros(8184) && io.end == |mem|
      requires end <= |mem| && |mem| - end <= 8184 && |io.cache.warehouse.ids| - 2 in io.cache.frees
      requires io.cache.frees[|io.cache.warehouse.ids| - 2] == |mem| - end
      requires io.collector.free <= Interval(0, end)
      modifies io.collector, io.cache
      ensures Staged(mem, end, items) && TableOk(items) && Covered(items) <= old(io.collector.free)
      ensures items == Storing(old(io.collector.Ranges()))
      ensures Dirty(io.cache.entries) && io.cache.store.State() == old(io.cache.store.State())
    {
      hide Cache.Valid, FreeSpaceCollector.Valid, Flat, HoldsTable, Sorted, Coalesced, Covered;
      ghost var n := |io.cache.warehouse.ids| - 1;
      FlatSize(io.cache.data, io.mem);
      LastCached(io.cache.entries, n);
      io.cache.Cached(n);
      FlatPrefix(io.cache.data, mem);
      var dn := SerializeInDataNode(io.collector, io.cache.nodes[io.appendSlot]);
      SavedItems(io.collector, end);
      items := Storing(io.collector.items);
      ghost var data := io.cache.data;
      io.cache.Write(|io.cache.warehouse.ids| - 1, dn);
      assert io.cache.data[..n] == data[..n];
      assert io.cache.entries[n].modified;
    }

    /** serialize_in_data_node into a new last block. */
    method SaveTable() returns (r: Outcome, ghost items: seq<FreeItem>)
      requires Valid()
      modifies io.Parts()
      ensures Fair(io.cache.store.crypto, r, old(io.cache.store.AllHeld()), old(|io.mem|) + 1)
      ensures r.Thrown? <==> old(NothingAppended())
      ensures r.Pass? ==> Staged(old(io.mem), old(io.end), items) && TableOk(items)
      ensures r.Pass? ==> Covered(items) <= old(io.collector.free) && Dirty(io.cache.entries)
      ensures r.Pass? ==> items == old(Storing(io.collector.Ranges()))
      ensures r.Pass? ==> Grows(old(io.cache.store.State()), io.cache.store.State())
    {
      hide Cache.Valid, FreeSpaceCollector.Valid, TrieAt, Flat, Covered, Represents, OnlyKeys, TailOk, OpenedAt, Intact,
        Extends, Staged, TableOk, Dirty, Numbered, Zeros;
      items := [];
      ghost var n := |io.cache.warehouse.ids|;
      io.Bounds();
      LastCached(io.cache.entries, n - 1);
      io.cache.Cached(n - 1);
      FreeBelow(io.mem, io.end, io.collector.free, lost, top);
      :- io.AddAppendBlock();
      io.Bounds();
      items := FillTable(old(io.mem), old(io.end));
      r := Pass;
    }

    /** The stored table is listed again. */
    method ReuseTable()
      requires Valid() && !TableDue()
      modifies io.Parts()
      ensures Staged(old(io.mem), old(io.end), table) && TableOk(table)
      ensures Covered(table) <= old(io.collector.free)
      ensures io.cache.synced == old(io.cache.synced) && io.cache.entries == old(io.cache.entries)
      ensures io.cache.store.State() == old(io.cache.store.State())
      ensures io.cache.origin == old(io.cache.origin) + [tableId]
    {
      hide Cache.Valid, TrieAt, Listed, Flat, Sorted, Coalesced, Covered, Represents, TableBytes;
      ghost var n := |io.cache.warehouse.ids|;
      ghost var dn := Deserialize(io.cache.store.crypto.unseal(io.cache.store.blocks[tableId]), tableId);
      io.Bounds();
      io.cache.AddStored(tableId, dn.blockNum, Payload(dn));
      assert io.cache.data[..n] == old(io.cache.data);
    }

    /** Finalize: the state is stored under the returned id. It throws exactly when a new table is
        to be appended right after a data node that is still empty. */
    method Finalize() returns (r: Outcome, id: Bytes, ghost s: Snapshot)
      requires Valid()
      modifies Objects()
      ensures r.Thrown? <==> old(TableDue() && NothingAppended())
      ensures Fair(io.cache.store.crypto, r, old(io.cache.store.AllHeld()), old(if TableDue() then |io.mem| + 1 else 0))
      ensures r.Pass? ==> PersistedAs(io.cache.store.crypto, io.cache.store.blocks, id, old(State()), s)
      ensures r.Pass? ==> s.mem == old(io.mem) && s.end == old(io.end) && s.top == old(top) && s.items == old(Saved())
      ensures r.Pass? ==> s.lost == old(lost) + (old(io.collector.free) - Covered(s.items))
      ensures r.Pass? ==> io.cache.store.Valid() && Grows(old(io.cache.store.State()), io.cache.store.State())
    {
      hide Valid, Cache.Valid, FreeSpaceCollector.Valid, TrieAt, Listed, Flat, HoldsTable, Sorted, Coalesced, Covered,
        Holds;
      hide Staged, StagedView, TableOk, TableAt, BlocksStored, InBlocks, Intact;
      id := [];
      ghost var state, items := State(), table;
      s := Snapshot([], [], [], 0, top, lost, []);
      Standing();
      if TableDue() {
        items :- SaveTable();
      } else {
        Facts();
        ReuseTable();
      }
      ghost var staged := io.cache.store.State();
      :- FlushStaged(old(io.mem), old(io.end), items);
      ghost var flushed := io.cache.store.State();
      s := Snapshot(io.cache.warehouse.ids, io.cache.data[..|io.cache.data| - 1], old(io.mem), old(io.end),
                              top, lost, items);
      if io.cache.synced > 0 {
        :- WriteRoot();
      }
      GrowsInTurn(old(io.cache.store.State()), staged, flushed, io.cache.store.State());
      s := Recorded(io.cache.store.crypto, flushed.blocks, io.cache.store.blocks, root.blockId, s, state,
                    old(io.collector.free), old(lost));
      r, id := Pass, root.blockId;
    }

    lemma Standing()
      requires Valid()
      ensures TrieAt(io.mem, io.end, io.collector.free, lost, top)
      ensures forall s: Snapshot :: s.mem == io.mem && s.end == io.end && s.top == top ==> Holds(s, State())
    {
    }

    lemma Facts()
      requires Valid() && !TableDue()
      ensures root.blockId in io.cache.store.blocks
      ensures Listed(io.cache.store.crypto, io.cache.store.blocks[root.blockId]) == Some(io.cache.origin + [tableId])
    {
    }

    /** cache.flush, before the root block is made. */
    method FlushStaged(ghost mem: Bytes, ghost end: nat, ghost items: seq<FreeItem>) returns (r: Outcome)
      requires Staged(mem, end, items) && TableOk(items)
      modifies io.cache, io.cache.warehouse, io.cache.store
      ensures Genuine(io.cache.store.crypto, r) && (r.Pass? || r.Collision?)
      ensures r.Pass? ==> io.cache.store.Valid() && Grows(old(io.cache.store.State()), io.cache.store.State())
      ensures r.Pass? ==> |io.cache.warehouse.ids| > 0 && |io.cache.data| == |io.cache.warehouse.ids|
      ensures r.Pass? ==>
                var s := Snapshot(io.cache.warehouse.ids, io.cache.data[..|io.cache.data| - 1], mem, end, top, lost,
                                  items);
                InBlocks(io.cache.store.crypto, io.cache.store.blocks, s)
      ensures r.Pass? && old(Dirty(io.cache.entries)) ==> io.cache.synced > 0
      ensures r.Pass? && io.cache.synced == 0 ==> io.cache.warehouse.ids == old(io.cache.origin)
    {
      hide Coherent, SlotsOk, CryptoOk, ContentAddressed, Flat, HoldsTable, TableOk;
      :- io.cache.Flush();
      StoredBlocks(mem, end, items);
      r := Pass;
    }

    /** The block store answers with a root block that has this id and authenticates. */
    ghost predicate Known(id: Bytes)
      reads io.cache.store
    {
      && id in io.cache.store.held && io.cache.store.crypto.hash(io.cache.store.held[id]) == id
      && Listed(io.cache.store.crypto, io.cache.store.held[id]).Some?
    }

    /** Memory, trie and free list are those of the snapshot, and nothing has been done yet. */
    ghost predicate Restored(s: Snapshot)
      reads this, io, io.collector
    {
      && io.mem == s.mem && io.end == s.end && top == s.top && lost == s.lost && table == s.items
      && io.collector.items == s.items && !io.collector.isDeferred && !io.collector.isModified
      && io.collector.free == Covered(s.items)
    }

    /** The constructor that opens the state stored under `id`: what authenticates was written by
        Finalize. It throws exactly when there is no such root block, or when the block store has
        lost or forged one of the first blocks that are read. */
    method Open(id: Bytes, ghost state: Contents, ghost s: Snapshot) returns (r: Outcome)
      requires Blank() && (Known(id) ==> PersistedAs(io.cache.store.crypto, io.cache.store.blocks, id, state, s))
      modifies Objects()
      ensures r.Thrown? <==> !old(Known(id))
      ensures Fair(io.cache.store.crypto, r, old(io.cache.store.AllHeld()), 0)
      ensures r.Pass? ==> Valid() && mode.Opened? && root.blockId == id && Within(State(), state) && Restored(s)
      ensures io.cache.store.State() == old(io.cache.store.State())
    {
      hide Coherent, SlotsOk, FromOrigin, FreeSpaceCollector.Valid, Listed, InBlocks, TrieAt, Holds, CryptoOk, Intact;
      root.blockId := id;
      var status, block := io.cache.store.Fetch(id);
      if status != Success {
        return Thrown;
      }
      root.block := block;
      var ok := root.UnBlockifyChildren(io.cache.store.crypto);
      if !ok {
        return Thrown;
      }
      if block != io.cache.store.blocks[id] {
        return Collision(block, io.cache.store.blocks[id]);
      }
      r := Initialize(s, state);
    }

    /** data_node_io::initialize: the last listed block is the table of free ranges, the one before
        it the append block. */
    method Initialize(ghost s: Snapshot, ghost state: Contents) returns (r: Outcome)
      requires PersistedAs(io.cache.store.crypto, io.cache.store.blocks, root.blockId, state, s)
      requires root.children == s.ids
      requires io.cache.Valid() && io.collector.Valid() && io.cache.entries == map[] && io.cache.synced == 0
      requires io.collector.items == [] && !io.collector.isDeferred && !io.collector.isModified
      modifies Objects()
      ensures Fair(io.cache.store.crypto, r, old(io.cache.store.AllHeld()), 0) && !r.Thrown?
      ensures r.Pass? ==> Valid() && mode.Opened? && root.blockId == old(root.blockId) && Within(State(), state)
      ensures r.Pass? ==> Restored(s)
      ensures io.cache.store.State() == old(io.cache.store.State())
    {
      hide FreeSpaceCollector.Valid, Listed, TrieAt, Represents, TableAt, InBlocks, DataNodeIo.Valid, Covered, OnlyKeys,
        Intact;
      SnapshotSize(io.cache.store.crypto, io.cache.store.blocks, s);
      :- LoadBlocks(s);
      mode, top, lost, contents, ever, table := Opened, s.top, s.lost, state.pairs, state.ever, s.items;
      r := Pass;
    }

    /** Everything that initialize reads, step by step. */
    method LoadBlocks(ghost s: Snapshot) returns (r: Outcome)
      requires InBlocks(io.cache.store.crypto, io.cache.store.blocks, s) && root.children == s.ids
      requires io.cache.Valid() && io.collector.Valid() && io.cache.entries == map[] && io.cache.synced == 0
      requires io.collector.items == [] && !io.collector.isDeferred && !io.collector.isModified
      modifies this`tableId, io.Parts()
      ensures Fair(io.cache.store.crypto, r, old(io.cache.store.AllHeld()), 0) && !r.Thrown?
      ensures r.Pass? ==> io.Valid() && io.mem == s.mem && io.end == s.end && io.collector.items == s.items
      ensures r.Pass? ==> !io.collector.isDeferred && !io.collector.isModified
      ensures r.Pass? ==> io.collector.free == Covered(s.items) && io.collector.loaded == s.items
      ensures |s.ids| == |s.data| + 1
      ensures r.Pass? ==> tableId == io.cache.spare == s.ids[|s.data|] && io.cache.origin + [tableId] == s.ids
      ensures io.cache.store.State() == old(io.cache.store.State())
    {
      hide Cache.Valid, FreeSpaceCollector.Valid, TableOk, Covered, Flat, TableAt;
      hide InBlocks, Listing, OnlyCached, DataNodeIo.Valid, Numbered;
      SnapshotSize(io.cache.store.crypto, io.cache.store.blocks, s);
      ListBlocks(s);
      :- LoadTable(s);
      UnlistTable(s);
      r := StartAppending(s);
    }

    /** The table of free ranges is read. */
    method LoadTable(ghost s: Snapshot) returns (r: Outcome)
      requires io.cache.Valid() && io.cache.entries == map[] && io.cache.synced == 0
      requires io.cache.warehouse.ids == io.cache.origin == s.ids && Listing(io.cache.Now(), s) && TableOk(s.items)
      requires io.collector.Valid() && io.collector.items == [] && !io.collector.isDeferred && !io.collector.isModified
      modifies this`tableId, io.Parts()
      ensures Fair(io.cache.store.crypto, r, old(io.cache.store.AllHeld()), 0) && !r.Thrown?
      ensures r.Pass? ==> io.cache.Valid() && io.collector.Valid() && io.collector.items == s.items
      ensures r.Pass? ==> !io.collector.isDeferred && !io.collector.isModified
      ensures r.Pass? ==> io.collector.free == Covered(s.items) && io.collector.loaded == s.items
      ensures r.Pass? ==> io.cache.warehouse.ids == io.cache.origin == s.ids && Listing(io.cache.Now(), s)
      ensures |s.ids| == |s.data| + 1
      ensures r.Pass? ==> tableId == s.ids[|s.data|] && OnlyCached(io.cache.entries, |s.data|)
      ensures io.cache.store.State() == old(io.cache.store.State())
    {
      hide Cache.Valid, FreeSpaceCollector.Valid, Sorted, Coalesced, Storable, Covered, Listing, HoldsTable, WellFormed,
        Payload, TableItems, Intact;
      ListingParts(io.cache.Now(), s);
      var n := |io.cache.warehouse.ids| - 1;
      var slot;
      slot :- io.cache.Retrieve(n, false);
      io.cache.Cached(n);
      ListedTable(old(io.cache.Now()), s, io.cache.nodes[slot]);
      ReadBack(io.cache.nodes[slot], s.items);
      tableId := io.cache.warehouse.ids[n];
      var ok := DeserializeFromDataNode(io.collector, io.cache.nodes[slot]);
      OneCached(io.cache.entries, n);
      io.cache.Done(n, false);
      SameListing(old(io.cache.Now()), io.cache.Now(), s);
      r := Pass;
    }

    /** The block of the table is taken off the list. */
    method UnlistTable(ghost s: Snapshot)
      requires io.cache.Valid() && io.cache.warehouse.ids == io.cache.origin == s.ids && Listing(io.cache.Now(), s)
      requires |s.ids| == |s.data| + 1 && OnlyCached(io.cache.entries, |s.data|)
      modifies io.cache, io.cache.warehouse
      ensures io.cache.Valid() && io.cache.warehouse.ids == io.cache.origin && io.cache.entries == old(io.cache.entries)
      ensures io.cache.spare == s.ids[|s.data|] && io.cache.origin + [io.cache.spare] == s.ids
      ensures Numbered(io.cache.nums) && |io.cache.nums| == |s.data| && io.cache.data == s.data
      ensures s.end <= |s.mem| && |s.data| > 0 && io.cache.frees == map[|s.data| - 1 := |s.mem| - s.end]
    {
      hide Cache.Valid, Listing, Numbered;
      ListingParts(io.cache.Now(), s);
      io.cache.RemoveLast();
      assert s.ids == s.ids[..|s.data|] + [s.ids[|s.data|]];
    }

    /** The last block that is listed now becomes the append block. */
    method StartAppending(ghost s: Snapshot) returns (r: Outcome)
      requires io.cache.Valid() && io.collector.Valid() && OnlyCached(io.cache.entries, |s.data|)
      requires |io.cache.warehouse.ids| == |s.data| && Numbered(io.cache.nums) && |io.cache.nums| == |s.data|
      requires io.cache.data == s.data
      requires 0 < |s.data| <= MAX_BLOCKS && Flat(s.data, s.mem) && s.end <= |s.mem| && |s.mem| - s.end <= 8184
      requires io.cache.frees == map[|s.data| - 1 := |s.mem| - s.end]
      modifies io, io.cache, io.cache.warehouse, io.cache.store
      ensures Fair(io.cache.store.crypto, r, old(io.cache.store.AllHeld()), 0) && !r.Thrown?
      ensures r.Pass? ==> io.Valid() && io.mem == s.mem && io.end == s.end && io.Base() == old(io.Base())
      ensures io.cache.store.State() == old(io.cache.store.State())
    {
      hide Cache.Valid, FreeSpaceCollector.Valid, Flat, Numbered, DataNodeIo.Valid;
      FewCached(io.cache.entries, |s.data|);
      FlatSize(s.data, s.mem);
      r := io.InitAppendBlock(s.mem);
    }

    method ListBlocks(ghost s: Snapshot)
      requires io.cache.Valid() && io.cache.entries == map[]
      requires InBlocks(io.cache.store.crypto, io.cache.store.blocks, s) && root.children == s.ids
      modifies io.cache, io.cache.warehouse
      ensures io.cache.Valid() && io.cache.entries == map[] && io.cache.synced == old(io.cache.synced)
      ensures io.cache.warehouse.ids == io.cache.origin == s.ids
      ensures Listing(io.cache.Now(), s)
    {
      hide Cache.Valid, Flat, TableOk, TableBytes;
      ghost var c, n := io.cache.store.crypto, |s.data|;
      ghost var dn := Deserialize(c.unseal(io.cache.store.blocks[s.ids[n]]), s.ids[n]);
      ghost var nums := seq(n, i => i) + [dn.blockNum];
      ghost var frees := map[n - 1 := |s.mem| - s.end, n := dn.freeBytes];
      io.cache.ListIds(root.children, nums, s.data + [Payload(dn)], frees);
      assert HoldsTable(dn, s.items) && io.cache.frees[n] == dn.freeBytes;
      assert io.cache.data[..n] == s.data;
    }

    /** What a flush leaves in the store. */
    lemma StoredBlocks(mem: Bytes, end: nat, items: seq<FreeItem>)
      requires Staged(mem, end, items) && io.cache.entries == map[] && TableOk(items)
      ensures |io.cache.warehouse.ids| > 0 && |io.cache.data| == |io.cache.warehouse.ids|
      ensures var n := |io.cache.warehouse.ids| - 1;
              InBlocks(io.cache.store.crypto, io.cache.store.blocks,
                       Snapshot(io.cache.warehouse.ids, io.cache.data[..n], mem, end, top, lost, items))
    {
      hide Cache.Valid, Flat, TableBytes, TableOk;
      var n := |io.cache.warehouse.ids| - 1;
      forall b | 0 <= b < n
        ensures Image(io.cache.store.crypto, io.cache.store.blocks, io.cache.warehouse.ids[b], b, io.cache.data[b])
      {
        io.cache.InStore(b);
      }
      io.cache.InStore(n - 1);
      io.cache.InStore(n);
      var dn :| HoldsTable(dn, items) && Payload(dn) == io.cache.data[n] && io.cache.frees[n] == dn.freeBytes;
      SameTable(dn, Deserialize(io.cache.store.crypto.unseal(io.cache.store.blocks[io.cache.warehouse.ids[n]]),
                                io.cache.warehouse.ids[n]), items);
    }

    /** serialize_block_ids, and the root block written to the store. */
    method WriteRoot() returns (r: Outcome)
      requires io.cache.store.Valid()
      modifies root, io.cache.store
      ensures Genuine(io.cache.store.crypto, r) && (r.Pass? || r.Collision?)
      ensures r.Pass? ==> root.blockId in io.cache.store.blocks && io.cache.store.Valid()
      ensures r.Pass? ==>
                Listed(io.cache.store.crypto, io.cache.store.blocks[root.blockId]) == Some(io.cache.warehouse.ids)
      ensures r.Pass? ==> Grows(old(io.cache.store.State()), io.cache.store.State())
    {
      hide CryptoOk, ContentAddressed, RootBlock, Listed;
      var ids := io.cache.warehouse.ids;
      root.ClearChildren();
      var i := 0;
      while i < |ids|
        invariant i <= |ids| && root.children == ids[..i]
        modifies root
      {
        root.AppendChildId(ids[i]);
        i := i + 1;
      }
      assert ids[..i] == ids;
      root.BlockifyChildren(io.cache.store.crypto);
      RootBlockRoundTrip(io.cache.store.crypto, ids);
      var id;
      id :- io.cache.store.Evict(root.block);
      root.blockId := id;
      r := Pass;
    }
  }

  lemma FreeBelow(mem: Bytes, end: nat, free: set<int>, lost: set<int>, top: Tree)
    requires TrieAt(mem, end, free, lost, top)
    ensures free <= Interval(0, end)
  {
    hide Sound, Repr, Interval;
  }

  lemma FlatPrefix(data: seq<Bytes>, mem: Bytes)
    requires |data| > 0 && |mem| == 8184 * (|data| - 1) && Flat(data, mem + Zeros(8184))
    ensures Flat(data[..|data| - 1], mem)
  {
    var d, m := data[..|data| - 1], mem + Zeros(8184);
    forall b | 0 <= b < |d| ensures |d[b]| == 8184 && d[b] == mem[b * 8184..b * 8184 + 8184] {
      assert d[b] == data[b] == m[b * 8184..b * 8184 + 8184];
    }
  }

  /** As much of a free list as the table holds. */
  function Storing(items: seq<FreeItem>): seq<FreeItem> {
    items[..Min(|items|, MAX_ITEMS)]
  }

  /** The ranges that are saved: those that fit in the table. */
  lemma SavedItems(f: FreeSpaceCollector, end: nat)
    requires f.Valid() && !f.isDeferred && f.free <= Interval(0, end) && end <= MAX_BLOCKS * 8184
    ensures var items := f.items[..Min(|f.items|, MAX_ITEMS)]; TableOk(items) && Covered(items) <= f.free
  {
    hide Covered, Interval, Sorted, Coalesced, Storable;
    var items := f.items[..Min(|f.items|, MAX_ITEMS)];
    PrefixCovers(f.items, |items|);
    forall i | 0 <= i < |items| ensures Storable(items[i]) { BelowIsStorable(items, i, end); }
  }

  lemma SameTable(dn: DataNode, other: DataNode, items: seq<FreeItem>)
    requires HoldsTable(dn, items) && WellFormed(other) && Payload(other) == Payload(dn)
    requires other.freeBytes == dn.freeBytes
    ensures HoldsTable(other, items)
  {
  }

  lemma FewerFree(mem: Bytes, end: nat, free: set<int>, lost: set<int>, top: Tree, kept: set<int>)
    requires TrieAt(mem, end, free, lost, top) && kept <= free
    ensures TrieAt(mem, end, kept, lost + (free - kept), top)
  {
    hide Sound, Repr, Stored, TrieWalk.Used, Interval;
  }

  lemma SnapshotSize(c: Crypto, blocks: map<Bytes, Bytes>, s: Snapshot)
    requires InBlocks(c, blocks, s)
    ensures |s.ids| == |s.data| + 1 && 0 < |s.data| <= MAX_BLOCKS && Flat(s.data, s.mem) && |s.mem| - s.end <= 8184
    ensures TableAt(c, blocks, s.ids[|s.data|], s.items) && TableOk(s.items)
  {
  }

  lemma ListingParts(v: View, s: Snapshot)
    requires Listing(v, s)
    ensures |v.nums| == |v.data| == |v.ids| == |s.data| + 1 && |s.data| > 0 && s.end <= |s.mem|
    ensures Numbered(v.nums[..|s.data|]) && v.data[..|s.data|] == s.data && |s.data| in v.frees
    ensures v.frees - {|s.data|} == map[|s.data| - 1 := |s.mem| - s.end]
  {
    hide HoldsTable;
  }

  lemma ListedTable(v: View, s: Snapshot, other: DataNode)
    requires Listing(v, s) && WellFormed(other) && Payload(other) == v.data[|s.data|]
    requires other.freeBytes == v.frees[|s.data|]
    ensures HoldsTable(other, s.items)
  {
    hide TableBytes;
    var dn :| HoldsTable(dn, s.items) && Payload(dn) == v.data[|s.data|] && v.frees[|s.data|] == dn.freeBytes;
    SameTable(dn, other, s.items);
  }

  lemma SameListing(v: View, w: View, s: Snapshot)
    requires Listing(v, s) && w == v.(entries := w.entries, nodes := w.nodes)
    ensures Listing(w, s)
  {
    hide HoldsTable;
  }

  lemma OneCached(entries: map<nat, Entry>, b: nat)
    requires HandedOut(map[], entries, b, false)
    ensures entries[b].references > 0
    ensures OnlyCached(entries[b := entries[b].(references := entries[b].references - 1)], b)
  {
  }

  lemma FewCached(entries: map<nat, Entry>, b: nat)
    requires OnlyCached(entries, b)
    ensures |entries| < CAPACITY
  {
    SubsetSize(entries.Keys, {b});
    assert |entries| == |entries.Keys|;
  }

  /** Ranges that the table leaves out are lost, and nothing else changes. */
  lemma Recorded(c: Crypto, blocks: map<Bytes, Bytes>, later: map<Bytes, Bytes>, id: Bytes, s: Snapshot,
                 state: Contents, free: set<int>, lost: set<int>) returns (s': Snapshot)
    requires InBlocks(c, blocks, s) && Extends(blocks, later)
    requires id in later && Listed(c, later[id]) == Some(s.ids)
    requires TrieAt(s.mem, s.end, free, lost, s.top) && Covered(s.items) <= free && Holds(s, state)
    ensures s' == s.(lost := lost + (free - Covered(s.items))) && PersistedAs(c, later, id, state, s')
  {
    hide Represents, Listed, HoldsTable, TableOk, Flat, Covered, TrieAt, OnlyKeys, Clash;
    s' := s.(lost := lost + (free - Covered(s.items)));
    FewerFree(s.mem, s.end, free, lost, s.top, Covered(s.items));
    TableStays(c, blocks, later, s.ids[|s.data|], s.items);
    assert PersistedAs(c, later, id, state, s');
  }

  lemma FirstImage(c: Crypto, blocks: map<Bytes, Bytes>, id: Bytes, nonce: nat)
    requires CryptoOk(c) && id in blocks && blocks[id] == c.seal(nonce, SerializeHeader(EmptyNode(0)))
    ensures Image(c, blocks, id, 0, Zeros(8184)) && ImageFree(c, blocks, id) == 8184
  {
    HeaderRoundTrip(EmptyNode(0), id);
    assert Payload(EmptyNode(0)) == Zeros(8184);
  }

  lemma EmptyCoherent(c: Crypto, v: View, w: View)
    requires Coherent(c, v) && v.ids == [] && v.entries == map[] && w == v.(blocks := w.blocks)
    ensures Coherent(c, w)
  {
  }

  lemma FlatOne(payload: Bytes)
    requires |payload| == 8184
    ensures Flat([payload], payload)
  {
    assert payload[0..8184] == payload;
  }

  lemma EmptyTrie(before: Bytes, mem: Bytes, rec: NodeRecord, items: seq<FreeItem>)
    requires |before| == 8184 && rec == NewRecord([], 0) && mem == WriteFlat(before, 0, EncodeNode(rec))
    ensures TrieAt(mem, 32, {}, {}, Leaf) && Represents(Leaf, map[]) && OnlyKeys(Leaf, {})
    ensures TailOk(Space(|mem|, 32, items), {})
  {
    WriteFlatIsWritten(before, 0, EncodeNode(rec));
    NodeRoundTrip(rec);
    RootOwn();
  }
}
