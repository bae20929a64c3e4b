/** The steps of a trie operation: writing nodes, writing, reading and deleting values, splitting. */
module TrieOps {
  import opened ByteCodec
  import opened Addressing
  import opened DataNodes
  import opened SecureBlockIo
  import opened FlatMemory
  import opened FreeSpace
  import opened DataNodeIo
  import opened Tries
  import opened TrieHeap
  import opened TrieStack

  /** New bytes come from the free space, or else move the end; they touch nothing in use. */
  lemma PlaceParts(end: nat, used: set<int>, free: set<int>, lost: set<int>, at: nat, length: nat, free': set<int>)
    requires Partition(end, used, free, lost)
    requires || (Interval(at, length) <= free && free' == free - Interval(at, length))
             || (at == end && free' == free)
    ensures at <= end || length == 0
    ensures Interval(at, length) !! used
    ensures length > 0 ==> Partition(Max(end, at + length), used + Interval(at, length), free', lost)
  {
    if length > 0 && at != end {
      assert at in Interval(at, length);
      assert at + length - 1 in Interval(at, length);
    }
  }

  lemma FreeParts(end: nat, used: set<int>, free: set<int>, lost: set<int>, area: set<int>)
    requires Partition(end, used, free, lost) && area <= used
    ensures area !! free
    ensures Partition(end, used - area, free + area, lost)
  {
  }

  lemma Placed32(bo: BlockOffset, end: nat)
    requires Proper(bo) && Linear(bo) <= end <= MAX_BLOCKS * 8184
    ensures Fits32(bo) && bo != EMPTY
  {
  }

  lemma FreeBelowEnd(end: nat, used: set<int>, free: set<int>, lost: set<int>, at: nat, length: nat)
    requires Partition(end, used, free, lost) && Interval(at, length) <= free && length > 0
    ensures at + length <= end
  {
    assert at + length - 1 in Interval(at, length);
  }

  /** Writing at a place that was found for `need` new bytes. */
  lemma GrewByWrite(s: Space, s': Space, at: nat, length: nat, need: nat)
    requires at <= s.end <= s.size <= s.end + 8184 && at + length <= s.end + need
    requires s'.end == Max(s.end, at + length) && SizeTo(s.size, s'.size, at + length)
    requires RangeLeft(s.items, s'.items, need) && (HasRange(s.items, need) ==> at + length <= s.end)
    ensures Grew(s, s', need)
  {
  }

  /** The bytes that are needed to write a node: none if it has its place. */
  function NodeNeed(at: BlockOffset): nat {
    if at == EMPTY then 32 else 0
  }

  /** The place of a node: the one it has, else free space, else the end. */
  method PlaceNode(io: DataNodeIo, at: BlockOffset, ghost used: set<int>, ghost lost: set<int>)
    returns (bo: BlockOffset)
    requires io.Valid() && Partition(io.end, used, io.collector.free, lost)
    requires at != EMPTY ==> Proper(at) && Linear(at) + 32 <= io.end
    modifies io.collector
    ensures io.Valid() && Proper(bo) && Fits32(bo) && bo != EMPTY && Linear(bo) <= io.end
    ensures if at != EMPTY then bo == at else Own(bo) !! used
    ensures Linear(bo) + 32 <= io.end + NodeNeed(at)
    ensures Partition(Max(io.end, Linear(bo) + 32), if at == EMPTY then used + Own(bo) else used,
                      io.collector.free, lost)
    ensures RangeLeft(old(io.collector.items), io.collector.items, NodeNeed(at))
    ensures HasRange(old(io.collector.items), NodeNeed(at)) ==> Linear(bo) + 32 <= io.end
    ensures io.collector.loaded == old(io.collector.loaded)
  {
    hide DataNodeIo.Valid, Partition, RangeLeft, HasRange;
    bo := at;
    io.Bounds();
    RangeKept(io.collector.items);
    if at == EMPTY {
      bo := io.Place(32);
      if Interval(Linear(bo), 32) <= old(io.collector.free) {
        FreeBelowEnd(io.end, used, old(io.collector.free), lost, Linear(bo), 32);
      }
      PlaceParts(io.end, used, old(io.collector.free), lost, Linear(bo), 32, io.collector.free);
    }
    Placed32(bo, io.end);
  }

  /** write_trie_node: to the place it has, else to free space, else at the end. */
  method WriteNode(io: DataNodeIo, given: Item, ghost used: set<int>, ghost lost: set<int>)
    returns (r: Outcome, it: Item)
    requires io.Valid() && RecordOk(given.rec)
    requires Partition(io.end, used, io.collector.free, lost)
    requires given.at != EMPTY ==> Proper(given.at) && Linear(given.at) + 32 <= io.end
    modifies io.Parts()
    ensures Fair(io.cache.store.crypto, r, old(io.cache.store.AllHeld()),
                 if given.at == EMPTY then old(io.end) + 32 else 0)
    ensures !r.Thrown? && (r.Pass? ==> Grew(old(io.Room()), io.Room(), NodeNeed(given.at)))
    ensures r.Pass? ==> io.Valid() && it == given.(at := it.at, modified := false)
    ensures r.Pass? ==> (if given.at != EMPTY then it.at == given.at else Own(it.at) !! used) && Fits32(it.at)
    ensures r.Pass? ==> Inside(io.mem, it.at, 32) && io.mem[Linear(it.at)..Linear(it.at) + 32] == EncodeNode(given.rec)
    ensures r.Pass? ==> Agree(old(io.mem), io.mem, used - Own(it.at))
    ensures r.Pass? ==> io.end >= old(io.end) && Linear(it.at) + 32 <= io.end
    ensures r.Pass? ==>
              Partition(io.end, if given.at == EMPTY then used + Own(it.at) else used, io.collector.free, lost)
    ensures r.Pass? ==> Later(old(io.Base()), io.Base())
  {
    hide DataNodeIo.Valid, EncodeNode, Partition, WriteFlat, Agree, Written, RangeLeft, HasRange, Extends, SizeTo, Grew,
      Wider, Later, Intact;
    it := given;
    io.Bounds();
    var bo := PlaceNode(io, it.at, used, lost);
    it := it.(at := bo);
    :- io.Write(EncodeNode(it.rec), it.at);
    io.Bounds();
    GrewByWrite(old(io.Room()), io.Room(), Linear(it.at), 32, NodeNeed(given.at));
    WriteFlatIsWritten(old(io.mem), Linear(it.at), EncodeNode(it.rec));
    FromWritten(old(io.mem), io.mem, Linear(it.at), EncodeNode(it.rec), used - Own(it.at));
    it := it.(modified := false);
    r := Pass;
  }

  lemma RangeKept(items: seq<FreeItem>)
    ensures RangeLeft(items, items, 0) && HasRange(items, 0)
  {
  }

  lemma FromWritten(mem: Bytes, mem': Bytes, at: nat, data: Bytes, area: set<int>)
    requires Written(mem, mem', at, data) && Interval(at, |data|) !! area
    ensures Agree(mem, mem', area) && |mem| <= |mem'| && at + |data| <= |mem'| && mem'[at..at + |data|] == data
  {
    WrittenAgrees(mem, mem', at, data, area);
  }

  lemma ValueParts(mem: Bytes, at: BlockOffset, v: Bytes)
    requires ValueAt(mem, at, v) && |mem| <= MAX_BLOCKS * 8184
    ensures mem[Linear(at)..Linear(at) + 1] == [VALUE_HEADER] || mem[Linear(at)..Linear(at) + 1] == [MARK]
    ensures FromLittleEndian(mem[Linear(at) + 1..Linear(at) + 9]) == |v|
    ensures mem[Linear(at) + 9..Linear(at) + 9 + |v|] == v
    ensures Inside(mem, at, 9 + |v|) && at != EMPTY && 0 <= Linear(at)
  {
    hide ToLittleEndian;
    ProperIsPlaced(at);
    BodyParts(mem, at, v);
  }

  lemma HeaderBit(header: Bytes)
    requires header == [VALUE_HEADER] || header == [MARK]
    ensures header[0] / 8 % 2 == 1
  {
  }

  /** do_read_value_info: header and length, and the offset just after them. It throws if the
      header is not that of a value. */
  method ReadValueInfo(io: DataNodeIo, at: BlockOffset, ghost v: Bytes)
    returns (r: Outcome, header: Bytes, size: nat, after: BlockOffset)
    requires io.Valid() && ValueAt(io.mem, at, v)
    modifies io.cache, io.cache.warehouse, io.cache.store
    ensures Fair(io.cache.store.crypto, r, old(io.cache.store.AllHeld()), 0) && !r.Thrown?
    ensures r.Pass? ==> io.Valid() && (header == [VALUE_HEADER] || header == [MARK]) && size == |v|
    ensures r.Pass? ==> Normal(after) && Linear(after) == Linear(at) + 9
    ensures r.Pass? ==> Later(old(io.Base()), io.Base())
  {
    hide DataNodeIo.Valid, ValueAt;
    header, size, after := [], 0, at;
    io.Bounds();
    ValueParts(io.mem, at, v);
    header :- io.Read(after, 1);
    HeaderBit(header);
    after := Advance(after, 1);
    if header[0] / 8 % 2 != 1 {
      return Thrown, header, size, after;
    }
    var length;
    length :- io.Read(after, 8);
    after := Advance(after, 8);
    size := FromLittleEndian(length);
    r := Pass;
  }

  /** do_read_value */
  method ReadValue(io: DataNodeIo, at: BlockOffset, ghost v: Bytes) returns (r: Outcome, value: Bytes)
    requires io.Valid() && ValueAt(io.mem, at, v)
    modifies io.cache, io.cache.warehouse, io.cache.store
    ensures Fair(io.cache.store.crypto, r, old(io.cache.store.AllHeld()), 0) && !r.Thrown?
    ensures r.Pass? ==> io.Valid() && value == v && Later(old(io.Base()), io.Base())
  {
    hide DataNodeIo.Valid, ValueAt;
    value := [];
    io.Bounds();
    ValueParts(io.mem, at, v);
    var header, size, after;
    header, size, after :- ReadValueInfo(io, at, v);
    value :- io.Read(after, size);
    r := Pass;
  }

  /** The bytes up to which the mark of a deletion may write. */
  function MarkNeed(v: Bytes, end: nat): nat {
    if v == [] then end + 1 else 0
  }

  /** The part of do_delete_value that writes the mark. */
  method MarkDeleted(io: DataNodeIo, at: BlockOffset, ghost v: Bytes) returns (r: Outcome, length: nat)
    requires io.Valid() && ValueAt(io.mem, at, v) && Linear(at) + 9 + |v| <= io.end
    modifies io`appendSlot, io`mem, io`end, io.cache, io.cache.warehouse, io.cache.store
    ensures Fair(io.cache.store.crypto, r, old(io.cache.store.AllHeld()), MarkNeed(v, old(io.end))) && !r.Thrown?
    ensures r.Pass? ==> io.Valid() && length == 9 + |v| && Later(old(io.Base()), io.Base())
    ensures r.Pass? ==> Written(old(io.mem), io.mem, Linear(at) + 9, [MARK])
    ensures r.Pass? ==> io.end == Max(old(io.end), Linear(at) + 10) && SizeTo(|old(io.mem)|, |io.mem|, Linear(at) + 10)
  {
    hide DataNodeIo.Valid, ValueAt, WriteFlat, Written;
    length := 0;
    io.Bounds();
    var header, size, after;
    header, size, after :- ReadValueInfo(io, at, v);
    ghost var base := io.Base();
    LaterInTurn(old(io.Base()), base, base);
    var mark := [if header[0] % 2 == 1 then header[0] else header[0] + 1];
    assert mark == [MARK];
    :- io.Write(mark, after);
    LaterInTurn(old(io.Base()), base, io.Base());
    WriteFlatIsWritten(old(io.mem), Linear(after), mark);
    length := |header| + 8 + size;
    r := Pass;
  }

  /** The space after the mark. */
  lemma MarkSpent(s: Space, s': Space, a: nat, v: Bytes)
    requires s.end <= s.size <= s.end + 8184 && a + |v| <= s.end && s'.items == s.items
    requires s'.end == Max(s.end, a + 1) && SizeTo(s.size, s'.size, a + 1)
    ensures Spent(s, s', 0, v == [])
  {
    hide RangeLeft;
    RangesKept(s.items, s.items, s.items, 1);
  }

  /** The mark leaves every byte outside the record of `v` as it was, if and only if the record has
      a byte for it, or it ends the memory, or the mark happens to be there already. */
  lemma MarkSparesNeighbours(mem: Bytes, at: BlockOffset, v: Bytes, mark: byte)
    requires ValueAt(mem, at, v)
    ensures (forall x :: 0 <= x < |mem| && x !in Interval(Linear(at), 9 + |v|) ==>
               WriteFlat(mem, Linear(at) + 9, [mark])[x] == mem[x])
            <==> v != [] || Linear(at) + 9 == |mem| || mem[Linear(at) + 9] == mark
  {
    hide WriteFlat, ToLittleEndian;
    MarkWritten(mem, Linear(at) + 9, mark);
  }

  lemma MarkWritten(mem: Bytes, a: nat, mark: byte)
    requires a <= |mem|
    ensures var mem' := WriteFlat(mem, a, [mark]);
            |mem| <= |mem'| && a < |mem'| && mem'[a] == mark && forall x :: 0 <= x < |mem| && x != a ==>
              mem'[x] == mem[x]
  {
    hide WriteFlat;
    var mem' := WriteFlat(mem, a, [mark]);
    WriteFlatIsWritten(mem, a, [mark]);
    assert mem'[a] == mem'[a..a + 1][0];
  }

  /** A byte at the append cursor that carries a mark belongs to nobody. */
  function LostTo(lost: set<int>, end: nat, end': nat): set<int>
    requires end <= end'
  {
    lost + Interval(end, end' - end)
  }

  /** No address is lost, except for the one behind an empty value that ends at the append cursor. */
  ghost predicate Leaks(lost: set<int>, lost': set<int>, end: nat, marked: bool) {
    lost' == lost || (marked && lost' == lost + {end})
  }

  lemma LeaksMark(lost: set<int>, s: Space, s': Space, marked: bool)
    requires Spent(s, s', 0, marked)
    ensures s.end <= s'.end && Leaks(lost, LostTo(lost, s.end, s'.end), s.end, marked) && (marked || s'.end == s.end)
  {
    assert s'.end == s.end + 1 ==> Interval(s.end, 1) == {s.end};
  }

  lemma MarkParts(end: nat, end': nat, used: set<int>, free: set<int>, lost: set<int>)
    requires Partition(end, used, free, lost) && end <= end'
    ensures Partition(end', used, free, LostTo(lost, end, end'))
  {
  }

  /** do_delete_value: the deletion mark goes to the offset after the length, so onto the first
      byte of the value, or for an empty value past the record; then the whole record is free space. */
  method DeleteValue(io: DataNodeIo, given: Item, ghost v: Bytes, ghost used: set<int>, ghost lost: set<int>)
    returns (r: Outcome, it: Item)
    requires io.Valid() && ValueAt(io.mem, given.rec.child, v)
    requires Partition(io.end, used, io.collector.free, lost)
    requires Interval(Linear(given.rec.child), 9 + |v|) <= used
    modifies io.Parts()
    ensures Fair(io.cache.store.crypto, r, old(io.cache.store.AllHeld()), MarkNeed(v, old(io.end))) && !r.Thrown?
    ensures r.Pass? ==> io.Valid() && it == given.(rec := given.rec.(child := EMPTY), modified := true)
    ensures r.Pass? ==> Written(old(io.mem), io.mem, Linear(given.rec.child) + 9, [MARK]) && old(io.end) <= io.end
    ensures r.Pass? ==> Partition(io.end, used - Interval(Linear(given.rec.child), 9 + |v|), io.collector.free,
                                  LostTo(lost, old(io.end), io.end))
    ensures r.Pass? ==> Later(old(io.Base()), io.Base()) && Spent(old(io.Room()), io.Room(), 0, v == [])
    ensures r.Pass? ==> io.collector.isDeferred && io.collector.deferred == FreeItem(given.rec.child, 9 + |v|)
  {
    hide DataNodeIo.Valid, ValueAt, Partition, Written, Spent, Grew, LostTo, Later, Intact, SizeTo;
    it := given;
    ghost var area := Interval(Linear(given.rec.child), 9 + |v|);
    UsedBelow(io.end, used, io.collector.free, lost, area);
    assert Linear(given.rec.child) + 8 + |v| in area;
    io.Bounds();
    ValueParts(io.mem, it.rec.child, v);
    var length;
    length :- MarkDeleted(io, it.rec.child, v);
    ghost var end, base, room := io.end, io.Base(), io.Room();
    LaterInTurn(old(io.Base()), base, base);
    MarkSpent(old(io.Room()), room, Linear(it.rec.child) + 9, v);
    MarkParts(old(io.end), end, used, io.collector.free, lost);
    FreeParts(end, used, io.collector.free, LostTo(lost, old(io.end), end), area);
    io.Release(it.rec.child, length);
    LaterInTurn(old(io.Base()), base, io.Base());
    SpentInTurn(old(io.Room()), room, io.Room(), 0, 0, v == []);
    it := it.(rec := it.rec.(child := EMPTY), modified := true);
    r := Pass;
  }

  lemma UsedBelow(end: nat, used: set<int>, free: set<int>, lost: set<int>, area: set<int>)
    requires Partition(end, used, free, lost) && area <= used
    ensures forall x :: x in area ==> 0 <= x < end
  {
  }

  /** A write that ends inside the memory does not grow it. */
  lemma SameSize(mem: Bytes, at: nat, data: Bytes)
    requires at + |data| <= |mem| && |mem| % 8184 == 0
    ensures |WriteFlat(mem, at, data)| == |mem|
  {
  }

  lemma WrittenInTurn(m0: Bytes, m1: Bytes, m2: Bytes, at: nat, x: Bytes, y: Bytes)
    requires Written(m0, m1, at, x) && Written(m1, m2, at + |x|, y)
    ensures Written(m0, m2, at, x + y)
  {
    assert m2[at..at + |x|] == x by {
      forall i | at <= i < at + |x| ensures m2[i] == m1[i] { }
    }
    assert m2[at..at + |x + y|] == m2[at..at + |x|] + m2[at + |x|..at + |x| + |y|];
  }

  /** One of the writes of do_write_value, after `done`. */
  method WritePart(io: DataNodeIo, data: Bytes, bo: BlockOffset, ghost mem: Bytes, ghost at: nat, ghost done: Bytes)
    returns (r: Outcome)
    requires io.Valid() && Proper(bo) && Linear(bo) == at + |done| && Linear(bo) <= io.end
    requires Written(mem, io.mem, at, done) && SizeTo(|mem|, |io.mem|, at + |done|)
    modifies io`appendSlot, io`mem, io`end, io.cache, io.cache.warehouse, io.cache.store
    ensures Fair(io.cache.store.crypto, r, old(io.cache.store.AllHeld()), Linear(bo) + |data|) && !r.Thrown?
    ensures r.Pass? ==> io.Valid() && io.end == Max(old(io.end), Linear(bo) + |data|)
    ensures r.Pass? ==> Written(mem, io.mem, at, done + data) && SizeTo(|mem|, |io.mem|, at + |done + data|)
    ensures r.Pass? ==> Later(old(io.Base()), io.Base())
  {
    hide DataNodeIo.Valid, WriteFlat, Written, SizeTo, Later, Intact;
    ghost var before := io.mem;
    :- io.Write(data, bo);
    WriteFlatIsWritten(before, at + |done|, data);
    WrittenInTurn(mem, before, io.mem, at, done, data);
    SizeInTurn(|mem|, |before|, |io.mem|, at + |done|, at + |done + data|);
    r := Pass;
  }

  /** The three writes of do_write_value. */
  method WriteRecord(io: DataNodeIo, at: BlockOffset, value: Bytes, ghost area: set<int>) returns (r: Outcome)
    requires io.Valid() && Proper(at) && Linear(at) <= io.end
    requires area !! Interval(Linear(at), 9 + |value|)
    modifies io`appendSlot, io`mem, io`end, io.cache, io.cache.warehouse, io.cache.store
    ensures Fair(io.cache.store.crypto, r, old(io.cache.store.AllHeld()), Linear(at) + 9 + |value|) && !r.Thrown?
    ensures r.Pass? ==> io.Valid() && io.end == Max(old(io.end), Linear(at) + 9 + |value|)
    ensures r.Pass? ==> ValueAt(io.mem, at, value) && Agree(old(io.mem), io.mem, area)
    ensures r.Pass? ==> Later(old(io.Base()), io.Base()) && SizeTo(|old(io.mem)|, |io.mem|, Linear(at) + 9 + |value|)
  {
    hide DataNodeIo.Valid, Agree, Written, ToLittleEndian, Intact, SizeTo, Later;
    ghost var a, mem := Linear(at), io.mem;
    io.Bounds();
    NothingWritten(mem, a);
    var bo := at;
    :- WritePart(io, [VALUE_HEADER], bo, mem, a, []);
    ghost var base := io.Base();
    LaterInTurn(old(io.Base()), base, base);
    bo := Advance(bo, 1);
    var length := ToLittleEndian(|value|, 8);
    assert [] + [VALUE_HEADER] == [VALUE_HEADER];
    :- WritePart(io, length, bo, mem, a, [VALUE_HEADER]);
    LaterInTurn(old(io.Base()), base, io.Base());
    base := io.Base();
    bo := Advance(bo, 8);
    :- WritePart(io, value, bo, mem, a, [VALUE_HEADER] + length);
    LaterInTurn(old(io.Base()), base, io.Base());
    FromWritten(mem, io.mem, a, EncodeValue(value), area);
    ValueWritten(io.mem, at, value);
    r := Pass;
  }

  lemma NothingWritten(mem: Bytes, at: nat)
    requires at <= |mem|
    ensures Written(mem, mem, at, []) && SizeTo(|mem|, |mem|, at)
  {
  }

  lemma DeferredTaken(io: DataNodeIo, length: nat)
    requires io.Valid()
    ensures io.collector.Valid()
    ensures io.collector.isDeferred && io.collector.deferred.length == length ==>
              var bo := io.collector.deferred.bo;
              Interval(Linear(bo), length) <= io.collector.free && io.collector.Allocation(length).1 == Some(bo)
  {
  }

  /** Finding the place for a value and writing it there: a range of just this length that was freed
      last is taken again. */
  method PlaceValue(io: DataNodeIo, value: Bytes, ghost used: set<int>, ghost lost: set<int>)
    returns (r: Outcome, bo: BlockOffset)
    requires io.Valid() && Partition(io.end, used, io.collector.free, lost)
    modifies io.Parts()
    ensures Fair(io.cache.store.crypto, r, old(io.cache.store.AllHeld()), old(io.end) + 9 + |value|) && !r.Thrown?
    ensures r.Pass? ==> io.Valid() && Fits32(bo) && ValueAt(io.mem, bo, value) && Agree(old(io.mem), io.mem, used)
    ensures r.Pass? ==> io.end >= old(io.end) && Interval(Linear(bo), 9 + |value|) !! used
    ensures r.Pass? ==> Partition(io.end, used + Interval(Linear(bo), 9 + |value|), io.collector.free, lost)
    ensures r.Pass? ==> Later(old(io.Base()), io.Base()) && Grew(old(io.Room()), io.Room(), 9 + |value|)
    ensures r.Pass? && old(io.collector.isDeferred && io.collector.deferred.length == 9 + |value|) ==>
              bo == old(io.collector.deferred.bo) && io.end == old(io.end)
  {
    hide DataNodeIo.Valid, EncodeValue, Partition, RangeLeft, HasRange, Agree, Intact, Extends, SizeTo, Grew;
    hide FreeSpaceCollector.Allocation, FreeSpaceCollector.Valid;
    ghost var free := io.collector.free;
    DeferredTaken(io, 9 + |value|);
    bo := io.Place(9 + |value|);
    if Interval(Linear(bo), 9 + |value|) <= free {
      FreeBelowEnd(io.end, used, free, lost, Linear(bo), 9 + |value|);
    }
    PlaceParts(io.end, used, free, lost, Linear(bo), 9 + |value|, io.collector.free);
    io.Bounds();
    Placed32(bo, io.end);
    :- WriteRecord(io, bo, value, used);
    GrewByWrite(old(io.Room()), io.Room(), Linear(bo), 9 + |value|, 9 + |value|);
    r := Pass;
  }

  /** An old value that is empty is to be deleted. */
  predicate Marks(child: Tree) {
    child.Value? && child.value == []
  }

  /** What the deletion of an old value, if there is one, does to the memory. */
  ghost predicate Marked(mem: Bytes, mem': Bytes, child: Tree) {
    if child.Value? then Linear(child.at) >= 0 && Written(mem, mem', Linear(child.at) + 9, [MARK]) else mem' == mem
  }

  /** The first step of do_write_value: an old value is deleted. */
  method DeleteOld(io: DataNodeIo, given: Item, ghost child: Tree, ghost used: set<int>, ghost lost: set<int>)
    returns (r: Outcome, it: Item, ghost lost': set<int>)
    requires io.Valid() && given.rec.child == Pointer(child) && Repr(io.mem, child) && (child.Leaf? || child.Value?)
    requires Partition(io.end, used, io.collector.free, lost) && Footprint(child) <= used
    modifies io.Parts()
    ensures Fair(io.cache.store.crypto, r, old(io.cache.store.AllHeld()), if Marks(child) then old(io.end) + 1 else 0)
    ensures !r.Thrown? && (r.Pass? ==> io.Valid() && Later(old(io.Base()), io.Base()))
    ensures r.Pass? ==> it == given.(rec := given.rec.(child := EMPTY), modified := it.modified)
    ensures r.Pass? ==> Marked(old(io.mem), io.mem, child) && (Marks(child) || io.end == old(io.end))
    ensures r.Pass? ==> Partition(io.end, used - Footprint(child), io.collector.free, lost')
    ensures r.Pass? ==> Spent(old(io.Room()), io.Room(), 0, Marks(child))
    ensures r.Pass? ==> Leaks(lost, lost', old(io.end), Marks(child))
    ensures r.Pass? && child.Value? ==>
              io.collector.isDeferred && io.collector.deferred == FreeItem(child.at, 9 + |child.value|)
  {
    hide DataNodeIo.Valid, ValueAt, Partition, Grew, Spent, Intact, Extends, Written, LostTo, Leaks, Later;
    it, lost' := given, lost;
    LaterInTurn(io.Base(), io.Base(), io.Base());
    NoLeak(lost, io.end, Marks(child));
    NothingSpent(io.Room());
    io.Bounds();
    if it.rec.child != EMPTY {
      ValueParts(io.mem, child.at, child.value);
      it :- DeleteValue(io, it, child.value, used, lost);
      lost' := LostTo(lost, old(io.end), io.end);
      LeaksMark(lost, old(io.Room()), io.Room(), Marks(child));
    } else {
      NoValueThere(io.mem, child);
      assert used - Footprint(child) == used;
    }
    r := Pass;
  }

  lemma NoValueThere(mem: Bytes, child: Tree)
    requires Repr(mem, child) && (child.Leaf? || child.Value?) && Pointer(child) == EMPTY && |mem| <= MAX_BLOCKS * 8184
    ensures child.Leaf?
  {
    hide ValueAt;
    if child.Value? { ValueParts(mem, child.at, child.value); }
  }

  /** do_write_value: an old value is deleted first, then the new one is placed and written. `mid` is
      the memory in between. A value of the same length goes to the same place. */
  method WriteValue(io: DataNodeIo, given: Item, value: Bytes, ghost child: Tree, ghost used: set<int>,
                    ghost lost: set<int>)
    returns (r: Outcome, it: Item, ghost mid: Bytes, ghost lost': set<int>)
    requires io.Valid() && given.rec.child == Pointer(child) && Repr(io.mem, child) && (child.Leaf? || child.Value?)
    requires Partition(io.end, used, io.collector.free, lost) && Footprint(child) <= used
    modifies io.Parts()
    ensures Fair(io.cache.store.crypto, r, old(io.cache.store.AllHeld()),
                 old(io.end) + 9 + |value| + if Marks(child) then 1 else 0) && !r.Thrown?
    ensures r.Pass? ==> io.Valid() && it == given.(rec := given.rec.(child := it.rec.child), modified := true)
    ensures r.Pass? ==> Fits32(it.rec.child) && ValueAt(io.mem, it.rec.child, value)
    ensures r.Pass? ==> Marked(old(io.mem), mid, child) && Agree(mid, io.mem, used - Footprint(child))
    ensures r.Pass? ==> Interval(Linear(it.rec.child), 9 + |value|) !! (used - Footprint(child))
    ensures r.Pass? ==> Partition(io.end, used - Footprint(child) + Interval(Linear(it.rec.child), 9 + |value|),
                                  io.collector.free, lost')
    ensures r.Pass? ==> Later(old(io.Base()), io.Base())
    ensures r.Pass? ==> Spent(old(io.Room()), io.Room(), 9 + |value|, Marks(child))
    ensures r.Pass? ==> Leaks(lost, lost', old(io.end), Marks(child))
    ensures r.Pass? && child.Value? && |child.value| == |value| ==> it.rec.child == child.at
    ensures r.Pass? && child.Value? && |child.value| == |value| > 0 ==> io.end == old(io.end)
  {
    hide DataNodeIo.Valid, ValueAt, Partition, Grew, Spent, Intact, Extends, Written, Agree, Leaks, Marked, Footprint,
      Repr;
    it, mid, lost' := given, io.mem, lost;
    ghost var rest := used - Footprint(child);
    it, lost' :- DeleteOld(io, it, child, used, lost);
    mid := io.mem;
    ghost var room, base := io.Room(), io.Base();
    LaterInTurn(old(io.Base()), base, base);
    SpentEnd(old(io.Room()), room, 0, Marks(child));
    var bo;
    bo :- PlaceValue(io, value, rest, lost');
    SpentInTurn(old(io.Room()), room, io.Room(), 0, 9 + |value|, Marks(child));
    LaterInTurn(old(io.Base()), base, io.Base());
    it := it.(rec := it.rec.(child := bo), modified := true);
    r := Pass;
  }

  lemma NoLeak(lost: set<int>, end: nat, marked: bool)
    ensures Leaks(lost, lost, end, marked)
  {
  }

  lemma NothingSpent(s: Space)
    ensures Spent(s, s, 0, false)
  {
    GrewNot(s);
  }
}
