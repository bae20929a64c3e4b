/** The free list as it is stored: twelve bytes for each range, as many as fit in one data node. */
module FreeTable {
  import opened ByteCodec
  import opened Addressing
  import opened DataNodes
  import opened FreeSpace

  const ITEM_SIZE := 12
  const MAX_ITEMS := 682

  function EncodeItem(item: FreeItem): (b: Bytes)
    ensures |b| == ITEM_SIZE
  {
    EncodeOffset(item.bo) + ToLittleEndian(item.length, 4)
  }

  function DecodeItem(b: Bytes): FreeItem
    requires |b| == ITEM_SIZE
  {
    FreeItem(DecodeOffset(b[..8]), FromLittleEndian(b[8..]))
  }

  /** Twelve bytes: the offset, then four bytes of the length. */
  lemma ItemLayout(item: FreeItem, i: nat)
    requires i < 4
    ensures var b := EncodeItem(item);
            && b[i] == ByteOf(item.bo.blockNum, i) && b[4 + i] == ByteOf(item.bo.bytes, i)
            && b[8 + i] == ByteOf(item.length, i)
  {
    OffsetLayout(item.bo, i);
    LittleEndianAt(item.length, 4, i);
  }

  /** Item after item, and one more than 682 would not fit. */
  lemma {:induction false} TableLayout(items: seq<FreeItem>, k: nat)
    requires k < |items|
    ensures TableBytes(items)[12 * k..12 * k + 12] == EncodeItem(items[k])
    ensures |items| <= MAX_ITEMS <==> |TableBytes(items)| <= 8184
  {
    hide EncodeItem;
    var n := |items| - 1;
    var b := TableBytes(items);
    assert b == TableBytes(items[..n]) + EncodeItem(items[n]);
    if k < n {
      TableLayout(items[..n], k);
      assert items[..n][k] == items[k];
      assert b[12 * k..12 * k + 12] == TableBytes(items[..n])[12 * k..12 * k + 12];
    } else {
      assert b[12 * k..12 * k + 12] == EncodeItem(items[k]);
    }
  }

  /** Ranges that 32-bit fields can hold. */
  predicate Storable(item: FreeItem) {
    Fits32(item.bo) && item.length < 0x1_0000_0000
  }

  lemma ItemRoundTrip(item: FreeItem)
    requires Storable(item)
    ensures DecodeItem(EncodeItem(item)) == item
  {
    OffsetRoundTrip(item.bo);
    SpanOf4And8();
    LittleEndianRoundTrip(item.length, 4);
    assert EncodeItem(item)[..8] == EncodeOffset(item.bo);
    assert EncodeItem(item)[8..] == ToLittleEndian(item.length, 4);
  }

  function TableBytes(items: seq<FreeItem>): (b: Bytes)
    ensures |b| == 12 * |items|
  {
    if items == [] then [] else TableBytes(items[..|items| - 1]) + EncodeItem(items[|items| - 1])
  }

  /** The first `n` ranges of a stored table. */
  function TableItems(b: Bytes, n: nat): (items: seq<FreeItem>)
    requires 12 * n <= |b|
    ensures |items| == n
  {
    if n == 0 then [] else TableItems(b, n - 1) + [DecodeItem(b[12 * n - 12..12 * n])]
  }

  lemma LastItem(items: seq<FreeItem>, b: Bytes)
    requires items != [] && 12 * |items| <= |b| && b[..12 * |items|] == TableBytes(items)
    ensures b[..12 * |items| - 12] == TableBytes(items[..|items| - 1])
    ensures b[12 * |items| - 12..12 * |items|] == EncodeItem(items[|items| - 1])
  {
    hide EncodeItem;
    var n := 12 * |items|;
    var x, y := TableBytes(items[..|items| - 1]), EncodeItem(items[|items| - 1]);
    assert b[..n] == x + y;
    assert b[..n - 12] == b[..n][..n - 12] == x;
    assert b[n - 12..n] == b[..n][n - 12..] == y;
  }

  /** Reading a stored table gives the ranges back. */
  lemma {:induction false} TableRoundTrip(items: seq<FreeItem>, b: Bytes)
    requires 12 * |items| <= |b| && b[..12 * |items|] == TableBytes(items)
    requires forall i :: 0 <= i < |items| ==> Storable(items[i])
    ensures TableItems(b, |items|) == items
  {
    hide EncodeItem, DecodeItem, Storable, TableBytes;
    if items != [] {
      var n := |items|;
      LastItem(items, b);
      TableRoundTrip(items[..n - 1], b);
      ItemRoundTrip(items[n - 1]);
      assert items == items[..n - 1] + [items[n - 1]];
    }
  }

  /** `dn` holds exactly these ranges. */
  predicate HoldsTable(dn: DataNode, items: seq<FreeItem>) {
    && WellFormed(dn) && |items| <= MAX_ITEMS && dn.freeBytes == 8184 - 12 * |items|
    && Payload(dn)[..12 * |items|] == TableBytes(items)
  }

  /** The loop of serialize_in_data_node: ranges that do not fit are discarded. */
  method WriteTable(items: seq<FreeItem>, empty: DataNode) returns (dn: DataNode)
    requires WellFormed(empty) && empty.freeBytes == 8184
    ensures HoldsTable(dn, items[..Min(|items|, MAX_ITEMS)]) && dn.blockNum == empty.blockNum
  {
    hide EncodeItem;
    dn := empty;
    var bo := BlockOffset(dn.blockNum, DATA_BEGIN);
    var i := 0;
    while i < |items| && dn.freeBytes >= ITEM_SIZE
      invariant i <= |items| && i <= MAX_ITEMS && HoldsTable(dn, items[..i]) && dn.blockNum == empty.blockNum
      invariant Proper(bo) && (i < MAX_ITEMS ==> bo == BlockOffset(dn.blockNum, 8 + 12 * i))
    {
      var bytes := EncodeItem(items[i]);
      WriteItem(dn, items, i);
      dn := WriteAt(dn, bytes, 0, bo).0;
      bo := Advance(bo, ITEM_SIZE);
      i := i + 1;
    }
  }

  lemma WriteItem(dn: DataNode, items: seq<FreeItem>, i: nat)
    requires i < |items| && i < MAX_ITEMS && HoldsTable(dn, items[..i])
    ensures var r := WriteAt(dn, EncodeItem(items[i]), 0, BlockOffset(dn.blockNum, 8 + 12 * i));
            HoldsTable(r.0, items[..i + 1]) && r.0.blockNum == dn.blockNum
  {
    hide EncodeItem;
    var e := EncodeItem(items[i]);
    var r := WriteAt(dn, e, 0, BlockOffset(dn.blockNum, 8 + 12 * i));
    assert e[0..0 + r.1] == e;
    assert items[..i + 1][..i] == items[..i];
    assert Payload(r.0)[..12 * (i + 1)] == Payload(dn)[..12 * i] + e;
  }

  /** The loop of deserialize_from_data_node. It throws if the used bytes are not whole items. */
  method ReadTable(dn: DataNode) returns (ok: bool, items: seq<FreeItem>)
    requires WellFormed(dn)
    ensures ok <==> (8184 - dn.freeBytes) % 12 == 0
    ensures ok ==> items == TableItems(Payload(dn), (8184 - dn.freeBytes) / 12)
  {
    hide DecodeItem;
    items := [];
    var left := 8184 - dn.freeBytes;
    if left % ITEM_SIZE != 0 {
      return false, [];
    }
    var bo := BlockOffset(dn.blockNum, DATA_BEGIN);
    while left > 0
      invariant 0 <= left <= 8184 - dn.freeBytes && left % 12 == 0 && 12 * |items| + left == 8184 - dn.freeBytes
      invariant items == TableItems(Payload(dn), |items|)
      invariant left > 0 ==> bo == BlockOffset(dn.blockNum, 8 + 12 * |items|)
    {
      var bytes := ReadAt(dn, bo, ITEM_SIZE);
      bo := Advance(bo, ITEM_SIZE);
      left := left - ITEM_SIZE;
      items := items + [DecodeItem(bytes)];
    }
    ok := true;
  }

  lemma ReadBack(dn: DataNode, items: seq<FreeItem>)
    requires HoldsTable(dn, items) && forall i :: 0 <= i < |items| ==> Storable(items[i])
    ensures (8184 - dn.freeBytes) % 12 == 0 && TableItems(Payload(dn), (8184 - dn.freeBytes) / 12) == items
  {
    hide TableBytes, TableItems, Storable;
    TableRoundTrip(items, Payload(dn));
  }

  /** serialize_in_data_node: the deferred range joins the list first. */
  method SerializeInDataNode(f: FreeSpaceCollector, empty: DataNode) returns (dn: DataNode)
    requires f.Valid() && WellFormed(empty) && empty.freeBytes == 8184
    modifies f
    ensures f.Valid() && f.free == old(f.free) && !f.isDeferred && f.loaded == old(f.loaded)
    ensures f.items == old(f.Ranges())
    ensures HoldsTable(dn, f.items[..Min(|f.items|, MAX_ITEMS)]) && dn.blockNum == empty.blockNum
  {
    if f.isDeferred {
      f.DoCollect(f.deferred);
      f.isDeferred := false;
    }
    dn := WriteTable(f.items, empty);
  }

  /** deserialize_from_data_node into a fresh collector, whatever the node holds. */
  method DeserializeFromDataNode(f: FreeSpaceCollector, dn: DataNode) returns (ok: bool)
    requires f.Valid() && f.items == [] && !f.isDeferred && !f.isModified && WellFormed(dn)
    modifies f
    ensures ok <==> (8184 - dn.freeBytes) % 12 == 0
    ensures ok ==> f.items == TableItems(Payload(dn), (8184 - dn.freeBytes) / 12) && !f.isDeferred && !f.isModified
    ensures ok && Sorted(f.items) && Coalesced(f.items) ==> f.Valid() && f.free == Covered(f.items)
    ensures ok && Sorted(f.items) && Coalesced(f.items) ==> f.loaded == f.items
  {
    var items;
    ok, items := ReadTable(dn);
    if ok {
      f.items := items;
      f.free, f.loaded := Covered(items), items;
    }
  }

  /** A stored part of a list of ranges covers only what the list covers. */
  lemma PrefixCovers(items: seq<FreeItem>, n: nat)
    requires Sorted(items) && Coalesced(items) && n <= |items|
    ensures Sorted(items[..n]) && Coalesced(items[..n]) && Covered(items[..n]) <= Covered(items)
  {
    hide Covered;
    PrefixSubset(items, n);
    var r := items[..n];
    forall i, j | 0 <= i && j == i + 1 && j < |r| ensures Advance(r[i].bo, r[i].length) != r[j].bo {
      assert r[i] == items[i] && r[j] == items[j];
    }
  }

  lemma PrefixSubset(items: seq<FreeItem>, n: nat)
    requires n <= |items|
    ensures Covered(items[..n]) <= Covered(items)
  {
    hide Area;
    CoveredAppend(items[..n], items[n..]);
    assert items == items[..n] + items[n..];
  }

  /** The stored part covers everything if and only if it is the whole list. */
  lemma PrefixWhole(items: seq<FreeItem>, n: nat)
    requires Sorted(items) && n <= |items|
    ensures Covered(items[..n]) == Covered(items) <==> n == |items|
  {
    hide Covered;
    if n == |items| {
      assert items[..n] == items;
    } else {
      var x := Start(items[n]);
      assert x in Area(items[n]);
      CoveredIff(items, x);
      CoveredIff(items[..n], x);
    }
  }

  /** The failing input: a list that is loaded with one range and then collects two earlier ones does
      not count as modified, although more is free than was loaded. */
  method UnnoticedRange(dn: DataNode) returns (f: FreeSpaceCollector)
    requires HoldsTable(dn, [FreeItem(BlockOffset(0, 200), 10)])
    ensures f.Valid() && f.loaded == [FreeItem(BlockOffset(0, 200), 10)] && !f.isModified
    ensures f.free == Interval(42, 5) + Interval(92, 10) + Interval(192, 10)
  {
    hide FreeSpaceCollector.Valid, Collected, TableItems, Covered, Sorted, Coalesced, HoldsTable, WellFormed, Interval,
      RangeLeft;
    f := new FreeSpaceCollector();
    ghost var listed := [FreeItem(BlockOffset(0, 200), 10)];
    OneListed(dn, listed[0]);
    var ok := DeserializeFromDataNode(f, dn);
    f.Collect(BlockOffset(0, 100), 10);
    f.Collect(BlockOffset(0, 50), 5);
  }

  lemma OneListed(dn: DataNode, item: FreeItem)
    requires HoldsTable(dn, [item]) && ItemOk(item) && Storable(item)
    ensures WellFormed(dn) && (8184 - dn.freeBytes) % 12 == 0
    ensures TableItems(Payload(dn), (8184 - dn.freeBytes) / 12) == [item]
    ensures Sorted([item]) && Coalesced([item]) && Covered([item]) == Area(item)
  {
    hide TableItems, TableBytes;
    ReadBack(dn, [item]);
    assert [item][1..] == [];
  }

  /** Free ranges below the address limit fit in 32-bit fields. */
  lemma BelowIsStorable(items: seq<FreeItem>, i: nat, end: nat)
    requires Sorted(items) && i < |items| && end <= MAX_BLOCKS * 8184 && Covered(items) <= Interval(0, end)
    ensures Storable(items[i])
  {
    CoveredIff(items, Start(items[i]));
    CoveredIff(items, End(items[i]) - 1);
    assert Start(items[i]) in Area(items[i]) && End(items[i]) - 1 in Area(items[i]);
  }
}
