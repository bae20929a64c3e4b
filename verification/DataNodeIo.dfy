/** Reads and writes that cross block boundaries, and the growth of the store at its end. */
module DataNodeIo {
  import opened ByteCodec
  import opened Addressing
  import opened DataNodes
  import opened SecureBlockIo
  import opened BlockCache
  import opened FlatMemory
  import opened FreeSpace

  /** Between operations no node is in use and exactly the last block is pinned. */
  ghost predicate PinsOk(entries: map<nat, Entry>, last: nat) {
    && last in entries
    && forall b :: b in entries ==> entries[b].references == 0 && (entries[b].pinned <==> b == last)
  }

  ghost predicate Numbered(nums: seq<nat>) {
    forall b :: 0 <= b < |nums| ==> nums[b] == b
  }

  /** A full cache with one pinned block has something to evict. */
  lemma SomeCandidate(entries: map<nat, Entry>, last: nat)
    requires PinsOk(entries, last) && |entries| == CAPACITY
    ensures exists b :: b in entries && Candidate(entries[b])
  {
    var others := entries.Keys - {last};
    assert |others| == CAPACITY - 1;
    var b :| b in others;
    assert Candidate(entries[b]);
  }

  /** What an operation may only extend or must leave alone: the blocks of the store, and where
      the ids and the free list were loaded from. */
  datatype Ground = Ground(stored: Vault, spare: Bytes, origin: seq<Bytes>, loaded: seq<FreeItem>)

  ghost predicate Later(g: Ground, g': Ground) {
    Grows(g.stored, g'.stored) && g'.spare == g.spare && g'.origin == g.origin && g'.loaded == g.loaded
  }

  lemma LaterInTurn(a: Ground, b: Ground, c: Ground)
    ensures Later(a, a)
    ensures Later(a, b) && Later(b, c) ==> Later(a, c)
    ensures Later(a, b) && Intact(a.stored) ==> Intact(b.stored)
    ensures Later(a, b) && Later(b, c) && Intact(a.stored) ==> Intact(c.stored)
  {
  }

  /** How much memory there is, where the append cursor stands in it, and which ranges are free. */
  datatype Space = Space(size: nat, end: nat, items: seq<FreeItem>)

  /** Nothing has been written to the append block. */
  predicate EmptyTail(s: Space) {
    s.size == s.end + 8184
  }

  /** A memory of so many bytes has grown to hold the addresses below `to`, by whole blocks. */
  ghost predicate SizeTo(size: nat, size': nat, to: nat) {
    size <= size' && (size' == size || size' < to + 8184) && (to <= size ==> size' == size)
  }

  lemma SizeInTurn(a: nat, b: nat, c: nat, x: nat, y: nat)
    requires SizeTo(a, b, x) && SizeTo(b, c, y) && x <= y
    ensures SizeTo(a, c, y)
  {
  }

  /** At most `need` bytes have been appended, and the append block is not left empty. */
  ghost predicate Wider(before: Space, after: Space, need: nat) {
    && before.size <= after.size && before.end <= after.end <= before.end + need
    && (EmptyTail(after) ==> EmptyTail(before))
    && RangeLeft(before.items, after.items, need)
  }

  /** The same, and nothing has been appended if a free range was long enough. */
  ghost predicate Grew(before: Space, after: Space, need: nat) {
    && Wider(before, after, need)
    && (HasRange(before.items, need) ==> after.size == before.size && after.end == before.end)
  }

  /** The same for a step that may also have deleted an empty value: its mark takes one more byte if
      the record ends at the append cursor. */
  ghost predicate Spent(before: Space, after: Space, need: nat, marked: bool) {
    if marked then Wider(before, after, need + 1) else Grew(before, after, need)
  }

  lemma SpentInTurn(a: Space, b: Space, c: Space, first: nat, second: nat, marked: bool)
    requires Spent(a, b, first, marked) && Grew(b, c, second)
    ensures Spent(a, c, first + second, marked)
  {
    if marked {
      RangeLeftInTurn(a.items, b.items, c.items, first + 1, second);
    } else {
      GrewInTurn(a, b, c, first, second);
    }
  }

  lemma SpentEnd(before: Space, after: Space, need: nat, marked: bool)
    requires Spent(before, after, need, marked)
    ensures after.end <= before.end + need + if marked then 1 else 0
  {
  }

  /** What a split does to the space. If the append block has no room for a node its rest is given
      up; when the new node then fits in a free range, the new append block stays empty. */
  ghost predicate SplitGrew(before: Space, after: Space) {
    && before.end <= after.end <= before.end + 64 && RangeLeft(before.items, after.items, 32)
    && (before.size >= before.end + 32 ==> Grew(before, after, 32))
    && (before.size < before.end + 32 && HasRange(before.items, 32) ==> EmptyTail(after))
  }

  lemma GrewAfterConsume(before: Space, middle: Space, after: Space)
    requires before.end <= before.size < before.end + 32 && middle.end == before.size
    requires middle.size == before.size + 8184
    requires RangeLeft(before.items, middle.items, 0) && Grew(middle, after, 32)
    ensures SplitGrew(before, after)
  {
    RangeLeftInTurn(before.items, middle.items, after.items, 0, 32);
    assert HasRange(before.items, 0 + 32) ==> HasRange(middle.items, 32);
  }

  lemma GrewBySplit(before: Space, after: Space)
    requires Grew(before, after, 32) && before.size >= before.end + 32
    ensures SplitGrew(before, after)
  {
  }

  /** What a put does to the space: only a split that finds no room for a node at the end of the
      append block can leave an empty one behind, and it does if a free range holds all the rest. */
  ghost predicate PutGrew(before: Space, after: Space, splits: bool, need: nat) {
    && before.end <= after.end <= before.end + need
    && (!splits || before.size >= before.end + 32 ==> Wider(before, after, need))
    && (splits && before.size < before.end + 32 && HasRange(before.items, need) ==> EmptyTail(after))
  }

  lemma FewerBytes(items: seq<FreeItem>, more: nat, less: nat)
    requires less <= more
    ensures HasRange(items, more) ==> HasRange(items, less)
  {
  }

  lemma GrewLess(before: Space, after: Space, less: nat, more: nat)
    requires Grew(before, after, less) && less <= more
    ensures Grew(before, after, more)
  {
    FewerBytes(before.items, more, less);
    forall n: nat | HasRange(before.items, more + n) ensures HasRange(after.items, n) {
      FewerBytes(before.items, more + n, less + n);
    }
  }

  lemma PutGrewUnsplit(before: Space, after: Space, rest: nat, need: nat, marked: bool)
    requires Spent(before, after, rest, marked) && rest < need
    ensures PutGrew(before, after, false, need)
  {
    var less := if marked then rest + 1 else rest;
    forall n: nat | HasRange(before.items, need + n) ensures HasRange(after.items, n) {
      FewerBytes(before.items, need + n, less + n);
    }
  }

  lemma PutGrewSplit(before: Space, middle: Space, after: Space, rest: nat, need: nat)
    requires SplitGrew(before, middle) && Grew(middle, after, rest) && 64 + rest <= need
    ensures PutGrew(before, after, true, need)
  {
    if before.size >= before.end + 32 {
      GrewInTurn(before, middle, after, 32, rest);
      GrewLess(before, after, 32 + rest, need);
    } else if HasRange(before.items, need) {
      FewerBytes(before.items, need, 32);
      FewerBytes(before.items, need, 32 + rest);
    }
  }

  lemma GrewInTurn(a: Space, b: Space, c: Space, first: nat, second: nat)
    requires Grew(a, b, first) && Grew(b, c, second)
    ensures Grew(a, c, first + second)
  {
    RangeLeftInTurn(a.items, b.items, c.items, first, second);
    assert HasRange(a.items, first + second) ==> HasRange(b.items, second);
  }

  lemma GrewNot(s: Space)
    ensures Grew(s, s, 0)
  {
  }

  /** The memory after a write inside it. */
  ghost predicate Patched(before: Bytes, after: Bytes, at: int, piece: Bytes) {
    0 <= at && at + |piece| <= |before| && after == Overwrite(before, at, piece)
  }

  class DataNodeIo {
    const cache: Cache
    const collector: FreeSpaceCollector
    var appendSlot: nat

    /** The bytes of all blocks, and the linear address of the append cursor. */
    ghost var mem: Bytes
    ghost var end: nat

    ghost function Parts(): set<object> {
      {this, cache, cache.warehouse, cache.store, collector}
    }

    ghost function Base(): Ground
      reads cache, cache.store, collector
    {
      Ground(cache.store.State(), cache.spare, cache.origin, collector.loaded)
    }

    ghost function Room(): Space
      reads this, collector
    {
      Space(|mem|, end, collector.items)
    }

    ghost predicate Core()
      reads this, cache, cache.warehouse, cache.store
    {
      && cache.Valid()
      && 0 < |cache.warehouse.ids| <= MAX_BLOCKS
      && |cache.nums| == |cache.warehouse.ids| && Numbered(cache.nums)
      && |cache.data| == |cache.warehouse.ids| && Flat(cache.data, mem)
      && PinsOk(cache.entries, |cache.warehouse.ids| - 1)
      && appendSlot == cache.entries[|cache.warehouse.ids| - 1].slot
    }

    ghost predicate AtEnd()
      reads this, cache, cache.warehouse
    {
      && |cache.warehouse.ids| > 0
      && |cache.warehouse.ids| - 1 in cache.frees
      && end == |cache.warehouse.ids| * 8184 - cache.frees[|cache.warehouse.ids| - 1]
      && cache.frees[|cache.warehouse.ids| - 1] <= 8184
    }

    ghost predicate Valid()
      reads this, cache, cache.warehouse, cache.store, collector
    {
      Core() && AtEnd() && collector.Valid()
    }

    /** An object over the given store that lists no block yet. */
    constructor (store: BlockStore)
      requires store.Valid()
      ensures cache.Valid() && collector.Valid() && cache.store == store
      ensures fresh(cache) && fresh(cache.warehouse) && fresh(collector)
      ensures cache.entries == map[] && cache.warehouse.ids == [] && cache.nums == [] && cache.data == []
      ensures cache.frees == map[] && cache.synced == 0
      ensures collector.free == {} && collector.items == [] && !collector.isDeferred && !collector.isModified
    {
      cache := new Cache(store);
      collector := new FreeSpaceCollector();
      appendSlot, mem, end := 0, [], 0;
    }

    /** init_append_data_node: loads and pins the last block. Only a block that is no longer listed
        may be cached before. */
    method InitAppendBlock(ghost bytes: Bytes) returns (r: Outcome)
      requires cache.Valid() && collector.Valid()
      requires 0 < |cache.warehouse.ids| <= MAX_BLOCKS && |cache.nums| == |cache.data| == |cache.warehouse.ids|
      requires Numbered(cache.nums) && Flat(cache.data, bytes)
      requires |cache.warehouse.ids| - 1 in cache.frees && cache.frees[|cache.warehouse.ids| - 1] <= 8184
      requires |cache.entries| < CAPACITY
      requires forall b :: b in cache.entries ==> b >= |cache.warehouse.ids| && Candidate(cache.entries[b])
      modifies this, cache, cache.warehouse, cache.store
      ensures Fair(cache.store.crypto, r, old(cache.store.AllHeld()), 0) && !r.Thrown?
      ensures r.Pass? ==> Valid() && mem == bytes && end == |bytes| - old(cache.frees)[|old(cache.warehouse.ids)| - 1]
      ensures r.Pass? ==> Base() == old(Base()) && cache.warehouse.ids == old(cache.warehouse.ids)
      ensures cache.store.State() == old(cache.store.State())
    {
      hide Cache.Valid, FreeSpaceCollector.Valid, Flat;
      var last := |cache.warehouse.ids| - 1;
      var slot;
      slot :- cache.Retrieve(last, true);
      cache.Done(last, false);
      appendSlot := slot;
      FlatSize(cache.data, bytes);
      mem := bytes;
      end := |bytes| - cache.frees[last];
      r := Pass;
    }

    /** block_offset_for_appending */
    method AppendOffset() returns (bo: BlockOffset)
      requires Valid()
      ensures Proper(bo) && Linear(bo) == end && bo.blockNum < MAX_BLOCKS
    {
      hide Cache.Valid, Flat, PinsOk;
      LastCached(cache.entries, |cache.warehouse.ids| - 1);
      cache.Cached(|cache.warehouse.ids| - 1);
      bo := Cursor(cache.nodes[appendSlot]);
    }

    /** The unwritten bytes of the append block. */
    method AppendFree() returns (n: nat)
      requires Valid()
      ensures n == |mem| - end
    {
      hide Cache.Valid, Flat, PinsOk;
      Bounds();
      LastCached(cache.entries, |cache.warehouse.ids| - 1);
      cache.Cached(|cache.warehouse.ids| - 1);
      n := cache.nodes[appendSlot].freeBytes;
    }

    /** One round of the loop of read_across_data_nodes. */
    method ReadPiece(bo: BlockOffset, length: nat) returns (r: Outcome, piece: Bytes)
      requires Valid() && Proper(bo) && bo.blockNum < |cache.warehouse.ids|
      modifies cache, cache.warehouse, cache.store
      ensures Fair(cache.store.crypto, r, old(cache.store.AllHeld()), 0) && !r.Thrown?
      ensures r.Pass? ==> Valid() && Linear(bo) + |piece| <= |mem|
      ensures r.Pass? ==> |piece| == Min(length, 8192 - bo.bytes) && piece == mem[Linear(bo)..Linear(bo) + |piece|]
      ensures r.Pass? ==> |cache.warehouse.ids| == |old(cache.warehouse.ids)| && cache.frees == old(cache.frees)
      ensures r.Pass? ==> cache.spare == old(cache.spare) && cache.origin == old(cache.origin)
      ensures r.Pass? ==> Grows(old(cache.store.State()), cache.store.State())
    {
      hide Cache.Valid, FreeSpaceCollector.Valid, Flat, PinsOk, Used, Extends, Intact;
      piece := [];
      ghost var last := |cache.warehouse.ids| - 1;
      NeedsCandidate(cache.entries, last);
      piece :- cache.ReadBlock(bo, length);
      FlatSlice(cache.data, mem, bo.blockNum, bo.bytes - 8, bo.bytes - 8 + |piece|);
      PinsAfterUse(old(cache.entries), cache.entries, bo.blockNum, last);
      r := Pass;
    }

    /** read_across_data_nodes: the bytes of the flat memory from that address on. */
    method Read(from: BlockOffset, length: nat) returns (r: Outcome, out: Bytes)
      requires Valid() && Proper(from) && Linear(from) + length <= |mem|
      modifies cache, cache.warehouse, cache.store
      ensures Fair(cache.store.crypto, r, old(cache.store.AllHeld()), 0) && !r.Thrown?
      ensures r.Pass? ==> Valid() && out == mem[Linear(from)..Linear(from) + length]
      ensures r.Pass? ==> |cache.warehouse.ids| == |old(cache.warehouse.ids)| && cache.frees == old(cache.frees)
      ensures r.Pass? ==> Later(old(Base()), Base())
    {
      hide Cache.Valid, FreeSpaceCollector.Valid, Flat, PinsOk;
      out := [];
      var bo := from;
      while |out| < length
        invariant Valid() && Proper(bo) && Linear(bo) == Linear(from) + |out| && |out| <= length
        invariant out == mem[Linear(from)..Linear(bo)]
        invariant |cache.warehouse.ids| == |old(cache.warehouse.ids)| && cache.frees == old(cache.frees)
        invariant cache.spare == old(cache.spare) && cache.origin == old(cache.origin)
        invariant Grows(old(cache.store.State()), cache.store.State())
        decreases length - |out|, bo.bytes == 8192
      {
        FlatSize(cache.data, mem);
        var piece;
        piece :- ReadPiece(bo, length - |out|);
        ghost var done := Linear(bo);
        bo := Advance(bo, |piece|);
        assert mem[Linear(from)..Linear(bo)] == mem[Linear(from)..done] + mem[done..Linear(bo)];
        out := out + piece;
      }
      r := Pass;
    }

    /** One round of the loop of write_across_data_nodes, once the block exists. */
    method WritePiece(buffer: Bytes, from: nat, bo: BlockOffset) returns (r: Outcome, count: nat)
      requires Valid() && Proper(bo) && bo.blockNum < |cache.warehouse.ids| && from <= |buffer|
      requires Linear(bo) <= end
      modifies this`mem, this`end, cache, cache.warehouse, cache.store
      ensures Fair(cache.store.crypto, r, old(cache.store.AllHeld()), 0) && !r.Thrown?
      ensures r.Pass? ==> Valid() && count == Min(|buffer| - from, 8192 - bo.bytes)
      ensures r.Pass? ==> Patched(old(mem), mem, Linear(bo), buffer[from..from + count])
      ensures r.Pass? ==> end == Max(old(end), Linear(bo) + count)
      ensures r.Pass? ==> |cache.warehouse.ids| == |old(cache.warehouse.ids)|
      ensures r.Pass? ==> cache.spare == old(cache.spare) && cache.origin == old(cache.origin)
      ensures r.Pass? ==> Grows(old(cache.store.State()), cache.store.State())
    {
      hide Cache.Valid, FreeSpaceCollector.Valid, Flat, PinsOk, Used, Extends, Intact;
      count := 0;
      ghost var last := |cache.warehouse.ids| - 1;
      NeedsCandidate(cache.entries, last);
      count :- cache.WriteBlock(bo, buffer, from);
      FlatWrite(old(cache.data), mem, bo.blockNum, bo.bytes - 8, buffer[from..from + count]);
      PinsAfterUse(old(cache.entries), cache.entries, bo.blockNum, last);
      EndAfter(old(cache.frees), cache.frees, bo, count, last);
      mem := Overwrite(mem, Linear(bo), buffer[from..from + count]);
      end := Max(end, Linear(bo) + count);
      r := Pass;
    }

    /** add_and_init_append_data_node_cond: a new block if `bo` is past the last one. */
    method AddBlockIfPast(bo: BlockOffset) returns (r: Outcome)
      requires Valid() && Proper(bo) && Linear(bo) <= end
      modifies this`appendSlot, this`mem, this`end, cache, cache.warehouse, cache.store
      ensures Fair(cache.store.crypto, r, old(cache.store.AllHeld()), Linear(bo) + 1) && !r.Thrown?
      ensures r.Pass? ==> Valid() && end == old(end) && bo.blockNum < |cache.warehouse.ids|
      ensures r.Pass? ==> mem == if bo.blockNum * 8184 < |old(mem)| then old(mem) else old(mem) + Zeros(8184)
      ensures r.Pass? ==> cache.spare == old(cache.spare) && cache.origin == old(cache.origin)
      ensures r.Pass? ==> Grows(old(cache.store.State()), cache.store.State())
    {
      hide Cache.Valid, FreeSpaceCollector.Valid, Flat, PinsOk, Numbered;
      FlatSize(cache.data, mem);
      if bo.blockNum > |cache.warehouse.ids| - 1 {
        FullBlock();
        :- AddAppendBlock();
        FlatSize(cache.data, mem);
      }
      r := Pass;
    }

    /** One round of the loop of write_across_data_nodes. */
    method WriteNext(buffer: Bytes, from: nat, bo: BlockOffset) returns (r: Outcome, count: nat)
      requires Valid() && Proper(bo) && Linear(bo) <= end && from < |buffer|
      modifies this`appendSlot, this`mem, this`end, cache, cache.warehouse, cache.store
      ensures Fair(cache.store.crypto, r, old(cache.store.AllHeld()), Linear(bo) + 1) && !r.Thrown?
      ensures r.Pass? ==> count == Min(|buffer| - from, 8192 - bo.bytes) && Linear(bo) + count <= |mem|
      ensures r.Pass? ==> |mem| == if bo.blockNum * 8184 < |old(mem)| then |old(mem)| else |old(mem)| + 8184
      ensures r.Pass? ==> mem == Overwrite(Padded(old(mem), |mem|), Linear(bo), buffer[from..from + count])
      ensures r.Pass? ==> Valid() && end == Max(old(end), Linear(bo) + count)
      ensures r.Pass? ==> cache.spare == old(cache.spare) && cache.origin == old(cache.origin)
      ensures r.Pass? ==> Grows(old(cache.store.State()), cache.store.State())
    {
      hide Valid, Overwrite, Zeros, Extends, Intact;
      count := 0;
      ghost var before := cache.store.State();
      :- AddBlockIfPast(bo);
      PaddedGrows(old(mem), mem);
      ghost var stored := cache.store.State();
      count :- WritePiece(buffer, from, bo);
      GrowsInTurn(before, before, stored, cache.store.State());
      r := Pass;
    }

    /** write_across_data_nodes: a write to the flat memory; new blocks appear exactly when the
        bytes go past the last one. */
    method Write(buffer: Bytes, at: BlockOffset) returns (r: Outcome)
      requires Valid() && Proper(at) && Linear(at) <= end
      modifies this`appendSlot, this`mem, this`end, cache, cache.warehouse, cache.store
      ensures Fair(cache.store.crypto, r, old(cache.store.AllHeld()), Linear(at) + |buffer|) && !r.Thrown?
      ensures r.Pass? ==> Valid() && mem == WriteFlat(old(mem), Linear(at), buffer)
      ensures r.Pass? ==> end == Max(old(end), Linear(at) + |buffer|)
      ensures r.Pass? ==> Later(old(Base()), Base()) && SizeTo(|old(mem)|, |mem|, Linear(at) + |buffer|)
    {
      hide Valid, Overwrite, Padded, Zeros, WriteFlat, WholeBlocks, Extends, Intact, Partly, SizeTo;
      Bounds();
      GrowsInTurn(cache.store.State(), cache.store.State(), cache.store.State(), cache.store.State());
      var bo, total := at, 0;
      PartlyNone(mem, Linear(at), buffer);
      while total < |buffer|
        invariant Valid() && Proper(bo) && Linear(bo) == Linear(at) + total && total <= |buffer| && Linear(bo) <= end
        invariant Partly(old(mem), mem, Linear(at), buffer, total) && end == Max(old(end), Linear(at) + total)
        invariant cache.spare == old(cache.spare) && cache.origin == old(cache.origin)
        invariant Grows(old(cache.store.State()), cache.store.State())
        decreases |buffer| - total, bo.bytes == 8192
      {
        ghost var stored, before := cache.store.State(), mem;
        Bounds();
        var count;
        count :- WriteNext(buffer, total, bo);
        GrowsInTurn(old(cache.store.State()), old(cache.store.State()), stored, cache.store.State());
        PartlyMore(old(mem), before, mem, Linear(at), buffer, total, count, bo);
        total := total + count;
        bo := Advance(bo, count);
      }
      Bounds();
      PartlyAll(old(mem), mem, Linear(at), buffer);
      r := Pass;
    }

    lemma Bounds()
      requires Valid()
      ensures |mem| == 8184 * |cache.warehouse.ids| && |mem| - 8184 <= end <= |mem|
      ensures |cache.warehouse.ids| <= MAX_BLOCKS
    {
      FlatSize(cache.data, mem);
    }

    /** consume_add_and_init_append_data_node: the rest of the append block becomes free space. */
    method ConsumeAppendBlock() returns (r: Outcome)
      requires Valid() && Interval(end, |mem| - end) !! collector.free
      modifies Parts()
      ensures Fair(cache.store.crypto, r, old(cache.store.AllHeld()), |old(mem)| + 1) && !r.Thrown?
      ensures r.Pass? ==> Valid() && mem == old(mem) + Zeros(8184) && end == |old(mem)|
      ensures r.Pass? ==> collector.free == old(collector.free) + Interval(old(end), |old(mem)| - old(end))
      ensures r.Pass? ==> Later(old(Base()), Base()) && RangeLeft(old(collector.items), collector.items, 0)
    {
      hide Cache.Valid, FreeSpaceCollector.Valid, Flat;
      Bounds();
      var last := |cache.warehouse.ids| - 1;
      cache.Cached(last);
      var bo := Cursor(cache.nodes[appendSlot]);
      if cache.nodes[appendSlot].freeBytes > 0 {
        collector.Collect(bo, cache.nodes[appendSlot].freeBytes);
        cache.ForgetFree(last, 0);
      }
      r := AddAppendBlock();
    }

    /** Space that is no longer in use goes to the free space collector. */
    method Release(bo: BlockOffset, length: nat)
      requires Valid() && Proper(bo) && Interval(Linear(bo), length) !! collector.free
      modifies collector
      ensures Valid() && collector.free == old(collector.free) + Interval(Linear(bo), length)
      ensures collector.loaded == old(collector.loaded) && Grew(old(Room()), Room(), 0)
      ensures length > 0 ==> collector.isDeferred && collector.deferred == FreeItem(bo, length)
    {
      hide Cache.Valid, FreeSpaceCollector.Valid, Flat, Numbered, PinsOk;
      collector.Collect(bo, length);
    }

    /** allocate, or else the append position: where write_trie_node and do_write_value put
        `length` new bytes. */
    method Place(length: nat) returns (bo: BlockOffset)
      requires Valid() && length > 0
      modifies collector
      ensures Valid() && Proper(bo)
      ensures || (Interval(Linear(bo), length) <= old(collector.free) &&
                  collector.free == old(collector.free) - Interval(Linear(bo), length))
              || (Linear(bo) == end && collector.free == old(collector.free))
      ensures collector.loaded == old(collector.loaded)
      ensures RangeLeft(old(collector.items), collector.items, length)
      ensures HasRange(old(collector.items), length) ==> Interval(Linear(bo), length) <= old(collector.free)
      ensures var given := old(collector.Allocation(length));
              && collector.items == given.0
              && if given.1.Some? then bo == given.1.value else Linear(bo) == end
    {
      hide Cache.Valid, FreeSpaceCollector.Valid, Flat, Numbered, PinsOk;
      var found;
      found, bo := collector.Allocate(length);
      if !found {
        bo := AppendOffset();
      }
    }

    lemma FullBlock()
      requires Valid() && end == |mem|
      ensures appendSlot < |cache.nodes| && cache.nodes[appendSlot].freeBytes == 0
    {
      hide Flat, PinsOk, Numbered;
      FlatSize(cache.data, mem);
      LastCached(cache.entries, |cache.warehouse.ids| - 1);
      cache.Cached(|cache.warehouse.ids| - 1);
    }

    /** The last block is unpinned and the cache is given room for one more. */
    method MakeRoom() returns (r: Outcome)
      requires Core()
      modifies cache, cache.warehouse, cache.store
      ensures Genuine(cache.store.crypto, r) && (r.Pass? || r.Collision?)
      ensures r.Pass? ==> cache.Valid() && |cache.entries| < CAPACITY
      ensures r.Pass? ==> Unpinned(old(cache.entries), cache.entries, |old(cache.warehouse.ids)| - 1)
      ensures r.Pass? ==> cache.nums == old(cache.nums) && cache.data == old(cache.data)
      ensures r.Pass? ==> cache.frees == old(cache.frees)
      ensures r.Pass? ==> |cache.warehouse.ids| == |old(cache.warehouse.ids)|
      ensures r.Pass? ==> cache.spare == old(cache.spare) && cache.origin == old(cache.origin)
      ensures r.Pass? ==> Grows(old(cache.store.State()), cache.store.State())
    {
      hide Cache.Valid, Flat, PinsOk, Numbered, Extends, Intact;
      var last := |cache.warehouse.ids| - 1;
      LastCached(cache.entries, last);
      cache.SetPinned(last, false);
      AllCandidates(old(cache.entries), last, cache.entries);
      :- cache.ReplacementPolicy();
      r := Pass;
    }

    /** add_and_init_append_data_node: it throws exactly when the append block is still empty. */
    method AddAppendBlock() returns (r: Outcome)
      requires Core()
      modifies this`appendSlot, this`mem, this`end, cache, cache.warehouse, cache.store
      ensures Fair(cache.store.crypto, r, old(cache.store.AllHeld()), |old(mem)| + 1) && !r.Unavailable?
      ensures r.Thrown? <==> old(cache.nodes[appendSlot].freeBytes) == 8184
      ensures r.Pass? ==> Core() && AtEnd() && mem == old(mem) + Zeros(8184) && end == |old(mem)|
      ensures r.Pass? ==> cache.frees == old(cache.frees)[|old(cache.warehouse.ids)| := 8184]
      ensures r.Pass? ==> cache.spare == old(cache.spare) && cache.origin == old(cache.origin)
      ensures r.Pass? ==> Grows(old(cache.store.State()), cache.store.State())
    {
      hide Cache.Valid, Flat, PinsOk, Numbered, Extends, Intact, Payload, EmptyNode, Zeros, WellFormed, Unpinned;
      var n := |cache.warehouse.ids|;
      LastCached(cache.entries, n - 1);
      cache.Cached(n - 1);
      FlatSize(cache.data, mem);
      if cache.nodes[appendSlot].freeBytes == 8184 {
        return Thrown;
      }
      if n == MAX_BLOCKS {
        return Exhausted;
      }
      :- MakeRoom();
      EmptyPayload(n);
      FlatAppend(cache.data, mem, Payload(EmptyNode(n)));
      ghost var kept := cache.entries;
      cache.Append(EmptyNode(n));
      NewPins(old(cache.entries), kept, cache.entries, n);
      assert Numbered(cache.nums) by { NumberedAppend(old(cache.nums)); }
      appendSlot := cache.entries[n].slot;
      mem := mem + Zeros(8184);
      end := n * 8184;
      r := Pass;
    }
  }

  lemma EmptyPayload(n: nat)
    requires n < MAX_BLOCKS
    ensures WellFormed(EmptyNode(n)) && EmptyNode(n).blockNum == n && EmptyNode(n).freeBytes == 8184
    ensures Payload(EmptyNode(n)) == Zeros(8184)
  {
  }

  /** `total` bytes of the buffer have been written, and whole blocks were added only for them. */
  ghost predicate Partly(mem: Bytes, now: Bytes, at: nat, buffer: Bytes, total: nat) {
    && total <= |buffer| && |mem| % 8184 == 0 && |now| % 8184 == 0 && |mem| <= |now| && at + total <= |now|
    && now == Overwrite(Padded(mem, |now|), at, buffer[..total])
    && (|now| == |mem| || |now| < at + total + 8184)
  }

  lemma PartlyNone(mem: Bytes, at: nat, buffer: Bytes)
    requires |mem| % 8184 == 0 && at <= |mem|
    ensures Partly(mem, mem, at, buffer, 0)
  {
    OverwriteNothing(mem, at, buffer);
  }

  lemma PartlyMore(mem: Bytes, before: Bytes, now: Bytes, at: nat, buffer: Bytes, total: nat, count: nat,
                   bo: BlockOffset)
    requires Partly(mem, before, at, buffer, total) && Proper(bo) && Linear(bo) == at + total
    requires total < |buffer| && count == Min(|buffer| - total, 8192 - bo.bytes)
    requires |now| == (if bo.blockNum * 8184 < |before| then |before| else |before| + 8184)
    requires at + total + count <= |now|
    requires now == Overwrite(Padded(before, |now|), at + total, buffer[total..total + count])
    ensures Partly(mem, now, at, buffer, total + count)
  {
    hide Overwrite, Zeros;
    OverwriteGrows(mem, |before|, at, buffer[..total], |now| - |before|);
    OverwriteExtends(Padded(mem, |now|), at, buffer, total, count);
  }

  lemma PartlyAll(mem: Bytes, now: Bytes, at: nat, buffer: Bytes)
    requires Partly(mem, now, at, buffer, |buffer|)
    ensures now == WriteFlat(mem, at, buffer) && SizeTo(|mem|, |now|, at + |buffer|)
  {
    hide Overwrite, Padded;
    assert buffer[..|buffer|] == buffer;
    SizeIsWholeBlocks(|mem| / 8184, |now| / 8184, at + |buffer|);
    SizeByWrite(|mem| / 8184, |now|, at + |buffer|);
    WriteFlatSize(mem, |now|, at, buffer);
  }

  lemma PaddedGrows(mem: Bytes, mem': Bytes)
    requires mem' == mem || mem' == mem + Zeros(8184)
    ensures mem' == Padded(mem, |mem'|)
  {
  }

  lemma SizeByWrite(blocks: nat, size': nat, to: nat)
    requires size' == Max(8184 * blocks, WholeBlocks(to))
    ensures SizeTo(8184 * blocks, size', to)
  {
  }

  /** Using a block leaves the pins as they were. */
  lemma PinsAfterUse(before: map<nat, Entry>, after: map<nat, Entry>, b: nat, last: nat)
    requires PinsOk(before, last) && Used(before, after, b)
    ensures PinsOk(after, last) && after[last].slot == before[last].slot
  {
    assert !Candidate(before[last]);
  }

  /** A write that begins at or before the append cursor moves it to the end of the written bytes. */
  lemma EndAfter(before: map<nat, nat>, after: map<nat, nat>, bo: BlockOffset, count: nat, last: nat)
    requires FreesAfter(before, after, bo, count) && last in before && before[last] <= 8184
    requires Proper(bo) && bo.blockNum <= last && Linear(bo) <= last * 8184 + 8184 - before[last]
    ensures last in after && after[last] <= 8184
    ensures last * 8184 + 8184 - after[last] == Max(last * 8184 + 8184 - before[last], Linear(bo) + count)
  {
  }

  lemma NumberedAppend(nums: seq<nat>)
    requires Numbered(nums)
    ensures Numbered(nums + [|nums|])
  {
  }

  /** Some of the entries are left, and `last` is not pinned any more. */
  ghost predicate Unpinned(before: map<nat, Entry>, after: map<nat, Entry>, last: nat) {
    forall b :: b in after ==> b in before && after[b] == if b == last then before[b].(pinned := false) else before[b]
  }

  /** After the old last block is unpinned, some blocks are evicted and a new last block is pinned. */
  lemma NewPins(before: map<nat, Entry>, kept: map<nat, Entry>, after: map<nat, Entry>, n: nat)
    requires n > 0 && PinsOk(before, n - 1) && n in after && after == kept[n := after[n]]
    requires after[n].pinned && after[n].references == 0
    requires Unpinned(before, kept, n - 1)
    ensures PinsOk(after, n)
  {
  }

  lemma LastCached(entries: map<nat, Entry>, last: nat)
    requires PinsOk(entries, last)
    ensures last in entries && entries[last].references == 0
  {
  }

  lemma FlatSlice(data: seq<Bytes>, mem: Bytes, b: nat, i: nat, j: nat)
    requires Flat(data, mem) && b < |data| && i <= j <= 8184
    ensures |data[b]| == 8184 && b * 8184 + 8184 <= |mem|
    ensures data[b][i..j] == mem[b * 8184 + i..b * 8184 + j]
  {
    assert data[b] == mem[b * 8184..b * 8184 + 8184];
    SliceOfSlice(mem, b * 8184, b * 8184 + 8184, i, j);
  }

  lemma NeedsCandidate(entries: map<nat, Entry>, last: nat)
    requires PinsOk(entries, last)
    ensures |entries| == CAPACITY ==> exists b :: b in entries && Candidate(entries[b])
  {
    if |entries| == CAPACITY { SomeCandidate(entries, last); }
  }

  lemma GrowsInTurn(a: Vault, b: Vault, c: Vault, d: Vault)
    ensures Grows(a, a)
    ensures Grows(a, b) && Grows(b, c) && Grows(c, d) ==> Grows(a, d)
    ensures Grows(a, b) && Grows(b, c) && Grows(c, d) && Intact(a) ==> Intact(b) && Intact(c) && Intact(d)
  {
  }

  lemma FlatSize(data: seq<Bytes>, mem: Bytes)
    requires Flat(data, mem)
    ensures |mem| == 8184 * |data|
  {
  }

  lemma AllCandidates(before: map<nat, Entry>, last: nat, entries: map<nat, Entry>)
    requires PinsOk(before, last) && entries == before[last := before[last].(pinned := false)]
    ensures exists b :: b in entries && Candidate(entries[b])
  {
    assert Candidate(entries[last]);
  }
}
