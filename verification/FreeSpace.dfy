/** The allocator of the store: a sorted list of free ranges and one deferred range. */
module FreeSpace {
  import opened ByteCodec
  import opened Addressing

  datatype FreeItem = FreeItem(bo: BlockOffset, length: nat)

  function Start(item: FreeItem): int { Linear(item.bo) }

  function End(item: FreeItem): int { Linear(item.bo) + item.length }

  function Area(item: FreeItem): set<int> { Interval(Start(item), item.length) }

  /** All addresses covered by a list of items. */
  function Covered(items: seq<FreeItem>): set<int> {
    if items == [] then {} else Area(items[0]) + Covered(items[1..])
  }

  predicate ItemOk(item: FreeItem) {
    Proper(item.bo) && item.length > 0
  }

  /** Free ranges are non-empty, listed by address, and pairwise disjoint. */
  predicate Sorted(items: seq<FreeItem>) {
    && (forall i :: 0 <= i < |items| ==> ItemOk(items[i]))
    && (forall i, j :: 0 <= i < j < |items| ==> End(items[i]) <= Start(items[j]))
  }

  /** No item ends at the offset where the following item is recorded to begin. */
  ghost predicate Coalesced(items: seq<FreeItem>)
    requires Sorted(items)
  {
    forall i, j :: 0 <= i && j == i + 1 && j < |items| ==>
      Advance(items[i].bo, items[i].length) != items[j].bo
  }

  lemma {:induction false} CoveredIff(items: seq<FreeItem>, x: int)
    ensures x in Covered(items) <==> exists i :: 0 <= i < |items| && x in Area(items[i])
  {
    if items == [] {
    } else {
      CoveredIff(items[1..], x);
      if x in Covered(items[1..]) {
        var i :| 0 <= i < |items[1..]| && x in Area(items[1..][i]);
        assert x in Area(items[i + 1]);
      }
      if i :| 0 <= i < |items| && x in Area(items[i]) {
        assert i > 0 ==> items[1..][i - 1] == items[i];
      }
    }
  }

  lemma {:induction false} CoveredAppend(a: seq<FreeItem>, b: seq<FreeItem>)
    ensures Covered(a + b) == Covered(a) + Covered(b)
  {
    if a == [] {
      assert a + b == b;
    } else {
      CoveredAppend(a[1..], b);
      assert (a + b)[1..] == a[1..] + b;
    }
  }

  /** are_adjacent; the source throws unless the first offset is not after the second. */
  predicate Adjacent(item: FreeItem, bo: BlockOffset)
    requires Proper(item.bo)
    requires !Before(bo, item.bo)
  {
    Advance(item.bo, item.length) == bo
  }

  lemma AdjacentTouches(item: FreeItem, bo: BlockOffset)
    requires Proper(item.bo) && !Before(bo, item.bo) && Proper(bo)
    ensures Adjacent(item, bo) <==> End(item) == Linear(bo) && Normal(bo)
  {
    if Normal(bo) { LinearInjective(Advance(item.bo, item.length), bo); }
  }

  /** Ranges that touch at the end of a data node are not found adjacent when the second begins at
      the offset just past that node, which denotes the first byte of the next one. */
  lemma AliasNotMerged(block: nat, length: nat)
    requires 0 < length
    ensures var items := [FreeItem(BlockOffset(block, 8), 8184), FreeItem(BlockOffset(block, 8192), length)];
            Sorted(items) && Coalesced(items) && End(items[0]) == Start(items[1])
  {
  }

  /** When every offset is normal, coalescing is maximal: listed ranges never touch. */
  lemma CoalescedIsMaximal(items: seq<FreeItem>)
    requires Sorted(items)
    requires forall i :: 0 <= i < |items| ==> Normal(items[i].bo)
    ensures Coalesced(items) <==> forall i, j :: 0 <= i < j < |items| ==> End(items[i]) < Start(items[j])
  {
    forall i, j | 0 <= i && j == i + 1 && j < |items|
      ensures Advance(items[i].bo, items[i].length) != items[j].bo <==> End(items[i]) < Start(items[j])
    {
      LinearInjective(Advance(items[i].bo, items[i].length), items[j].bo);
    }
    if Coalesced(items) {
      forall i, j | 0 <= i < j < |items| ensures End(items[i]) < Start(items[j]) {
        assert End(items[i]) < Start(items[i + 1]);
        assert i + 1 < j ==> Start(items[i + 1]) < End(items[i + 1]) <= Start(items[j]);
      }
    }
  }

  /** Every item before `at` ends before `item`, every later one begins after it. */
  ghost predicate Fits(items: seq<FreeItem>, at: nat, item: FreeItem) {
    && at <= |items| && ItemOk(item)
    && (forall i :: 0 <= i < at ==> End(items[i]) <= Start(item))
    && (forall i :: at <= i < |items| ==> End(item) <= Start(items[i]))
  }

  /** A range disjoint from the list lies between two neighbours of the list. */
  lemma DisjointIsOrdered(items: seq<FreeItem>, i: nat, item: FreeItem)
    requires Sorted(items) && ItemOk(item) && i < |items|
    requires Area(item) !! Covered(items)
    ensures Before(item.bo, items[i].bo) ==> End(item) <= Start(items[i])
    ensures !Before(item.bo, items[i].bo) ==> End(items[i]) <= Start(item)
  {
    CoveredIff(items, Start(item));
    CoveredIff(items, Start(items[i]));
    assert Start(item) in Area(item) && Start(items[i]) in Area(items[i]);
    BeforeIsLinear(item.bo, items[i].bo);
    BeforeIsLinear(items[i].bo, item.bo);
  }

  /** Replacing the items `lo..hi` by one item that lies between their neighbours. */
  lemma ReplaceSorted(items: seq<FreeItem>, lo: nat, hi: nat, item: FreeItem)
    requires Sorted(items) && lo <= hi <= |items| && ItemOk(item)
    requires forall i :: 0 <= i < lo ==> End(items[i]) <= Start(item)
    requires forall i :: hi <= i < |items| ==> End(item) <= Start(items[i])
    ensures Sorted(items[..lo] + [item] + items[hi..])
  {
    hide Linear, Proper;
    var r := items[..lo] + [item] + items[hi..];
    forall i, j | 0 <= i < j < |r| ensures End(r[i]) <= Start(r[j]) {
      if i < lo {
        assert r[i] == items[i];
        assert j > lo ==> r[j] == items[hi + (j - lo - 1)];
      } else {
        assert r[j] == items[hi + (j - lo - 1)];
        assert i > lo ==> r[i] == items[hi + (i - lo - 1)];
      }
    }
  }

  lemma SplitCovered(items: seq<FreeItem>, lo: nat, hi: nat)
    requires lo <= hi <= |items|
    ensures Covered(items) == Covered(items[..lo]) + Covered(items[lo..hi]) + Covered(items[hi..])
  {
    hide Area, Covered;
    assert items == items[..lo] + items[lo..hi] + items[hi..];
    CoveredAppend(items[..lo] + items[lo..hi], items[hi..]);
    CoveredAppend(items[..lo], items[lo..hi]);
  }

  lemma CoveredOne(item: FreeItem)
    ensures Covered([item]) == Area(item)
  {
    assert Covered([]) == {};
  }

  lemma ReplaceCovered(items: seq<FreeItem>, lo: nat, hi: nat, item: FreeItem)
    requires lo <= hi <= |items|
    ensures Covered(items[..lo] + [item] + items[hi..]) == Covered(items[..lo]) + Area(item) + Covered(items[hi..])
    ensures Covered(items) == Covered(items[..lo]) + Covered(items[lo..hi]) + Covered(items[hi..])
  {
    hide Area, Covered;
    CoveredOne(item);
    CoveredAppend(items[..lo] + [item], items[hi..]);
    CoveredAppend(items[..lo], [item]);
    SplitCovered(items, lo, hi);
  }

  lemma CoalescedMiddle(items: seq<FreeItem>, lo: nat, hi: nat, item: FreeItem)
    requires Sorted(items) && Coalesced(items) && lo <= hi <= |items| && ItemOk(item)
    requires Sorted(items[..lo] + [item] + items[hi..])
    requires lo > 0 ==> Advance(items[lo - 1].bo, items[lo - 1].length) != item.bo
    requires hi < |items| ==> Advance(item.bo, item.length) != items[hi].bo
    ensures Coalesced(items[..lo] + [item] + items[hi..])
  {
    hide Advance;
    var r := items[..lo] + [item] + items[hi..];
    forall i, j | 0 <= i && j == i + 1 && j < |r|
      ensures Advance(r[i].bo, r[i].length) != r[j].bo
    {
      if j < lo {
        assert r[i] == items[i] && r[j] == items[j];
      } else if i > lo {
        var k := hi + (i - lo - 1);
        assert r[i] == items[k] && r[j] == items[k + 1];
      } else {
        assert if j == lo then r[i] == items[lo - 1] && r[j] == item else r[i] == item && r[j] == items[hi];
      }
    }
  }

  lemma CoveredUpTo2(items: seq<FreeItem>, lo: nat, hi: nat)
    requires lo <= hi <= |items| && hi <= lo + 2
    ensures hi == lo ==> Covered(items[lo..hi]) == {}
    ensures hi == lo + 1 ==> Covered(items[lo..hi]) == Area(items[lo])
    ensures hi == lo + 2 ==> Covered(items[lo..hi]) == Area(items[lo]) + Area(items[lo + 1])
  {
    hide Area;
    if hi == lo + 1 { assert items[lo..hi] == [items[lo]]; }
    if hi == lo + 2 {
      assert items[lo..hi] == [items[lo]] + [items[lo + 1]];
      CoveredAppend([items[lo]], [items[lo + 1]]);
    }
  }

  /** `item` is what insert_free_space_item inserts in place of the items `lo..hi`. */
  ghost predicate Merged(items: seq<FreeItem>, at: nat, given: FreeItem, lo: nat, hi: nat, item: FreeItem)
    requires Sorted(items) && Fits(items, at, given)
  {
    && lo <= at <= hi <= |items|
    && (if lo < at
        then lo == at - 1 && Advance(items[lo].bo, items[lo].length) == given.bo && item.bo == items[lo].bo
        else lo == at && item.bo == given.bo &&
             (at > 0 ==> Advance(items[at - 1].bo, items[at - 1].length) != given.bo))
    && (if at < hi
        then hi == at + 1 && End(given) == Start(items[at]) && End(item) == End(items[at])
        else hi == at && End(item) == End(given) && (at < |items| ==> Advance(item.bo, item.length) != items[at].bo))
  }

  lemma MergedArea(items: seq<FreeItem>, at: nat, given: FreeItem, lo: nat, hi: nat, item: FreeItem)
    requires Sorted(items) && Fits(items, at, given) && Merged(items, at, given, lo, hi, item)
    ensures Area(item) == Area(given) + Covered(items[lo..hi])
  {
    hide Covered;
    CoveredUpTo2(items, lo, hi);
  }

  lemma MergedItem(items: seq<FreeItem>, at: nat, given: FreeItem, lo: nat, hi: nat, item: FreeItem)
    requires Sorted(items) && Coalesced(items) && Fits(items, at, given)
    requires Merged(items, at, given, lo, hi, item)
    ensures var r := items[..lo] + [item] + items[hi..];
            Sorted(r) && Coalesced(r) && Covered(r) == Covered(items) + Area(given)
  {
    hide Covered, Area;
    ReplaceSorted(items, lo, hi, item);
    if at < hi { LinearInjective(Advance(item.bo, item.length), Advance(items[at].bo, items[at].length)); }
    CoalescedMiddle(items, lo, hi, item);
    MergedArea(items, at, given, lo, hi, item);
    ReplaceCovered(items, lo, hi, item);
  }

  lemma OrderedFits(items: seq<FreeItem>, at: nat, item: FreeItem)
    requires Sorted(items) && ItemOk(item) && at <= |items|
    requires Area(item) !! Covered(items)
    requires forall i :: 0 <= i < at ==> !Before(item.bo, items[i].bo)
    requires at < |items| ==> Before(item.bo, items[at].bo)
    ensures Fits(items, at, item)
  {
    forall i | 0 <= i < |items|
      ensures i < at ==> End(items[i]) <= Start(item)
      ensures i == at ==> End(item) <= Start(items[i])
    {
      DisjointIsOrdered(items, i, item);
    }
  }

  /** In a sorted list an item shares no address with the items around it. */
  lemma PartsApart(items: seq<FreeItem>, i: nat)
    requires Sorted(items) && i < |items|
    ensures Covered(items[..i]) !! Area(items[i]) && Covered(items[i + 1..]) !! Area(items[i])
  {
    forall x | x in Area(items[i]) ensures x !in Covered(items[..i]) && x !in Covered(items[i + 1..]) {
      CoveredIff(items[..i], x);
      CoveredIff(items[i + 1..], x);
    }
  }

  /** Taking `length` bytes from the front of item `i` keeps the list well formed. */
  lemma TakeFrom(items: seq<FreeItem>, i: nat, length: nat)
    requires Sorted(items) && Coalesced(items) && i < |items| && 0 < length <= items[i].length
    ensures Proper(items[i].bo)
    ensures Interval(Linear(items[i].bo), length) <= Covered(items)
    ensures items[i].length == length ==>
              var r := items[..i] + items[i + 1..];
              Sorted(r) && Coalesced(r) && Covered(r) == Covered(items) - Interval(Linear(items[i].bo), length)
    ensures items[i].length > length ==>
              var r := items[i := FreeItem(Advance(items[i].bo, length), items[i].length - length)];
              Sorted(r) && Coalesced(r) && Covered(r) == Covered(items) - Interval(Linear(items[i].bo), length)
  {
    var area := Interval(Start(items[i]), length);
    CoveredUpTo2(items, i, i + 1);
    ReplaceCovered(items, i, i + 1, items[i]);
    PartsApart(items, i);
    if items[i].length > length {
      TakePart(items, i, length);
      ReplaceCovered(items, i, i + 1, FreeItem(Advance(items[i].bo, length), items[i].length - length));
      assert Area(items[i]) - area == Area(FreeItem(Advance(items[i].bo, length), items[i].length - length));
    } else {
      TakeWhole(items, i);
      CoveredAppend(items[..i], items[i + 1..]);
    }
  }

  lemma TakePart(items: seq<FreeItem>, i: nat, length: nat)
    requires Sorted(items) && Coalesced(items) && i < |items| && 0 < length < items[i].length
    ensures var rest := FreeItem(Advance(items[i].bo, length), items[i].length - length);
            && items[i := rest] == items[..i] + [rest] + items[i + 1..]
            && Sorted(items[i := rest]) && Coalesced(items[i := rest])
  {
    var rest := FreeItem(Advance(items[i].bo, length), items[i].length - length);
    ReplaceSorted(items, i, i + 1, rest);
    LinearInjective(Advance(rest.bo, rest.length), Advance(items[i].bo, items[i].length));
    CoalescedMiddle(items, i, i + 1, rest);
    assert items[i := rest] == items[..i] + [rest] + items[i + 1..];
  }

  lemma TakeWhole(items: seq<FreeItem>, i: nat)
    requires Sorted(items) && Coalesced(items) && i < |items|
    ensures Sorted(items[..i] + items[i + 1..]) && Coalesced(items[..i] + items[i + 1..])
  {
    var r := items[..i] + items[i + 1..];
    assert forall k :: 0 <= k < |r| ==> r[k] == items[if k < i then k else k + 1];
    forall k, j | 0 <= k && j == k + 1 && j < |r| ensures Advance(r[k].bo, r[k].length) != r[j].bo {
      assert k == i - 1 ==> End(items[k]) <= Start(items[i]) < End(items[i]) <= Start(r[j]);
    }
  }

  /** Some listed range has at least `n` bytes. */
  predicate HasRange(items: seq<FreeItem>, n: nat) {
    n == 0 || exists i :: 0 <= i < |items| && items[i].length >= n
  }

  /** A range that was long enough for `taken` bytes and more has the rest left. */
  ghost predicate RangeLeft(before: seq<FreeItem>, after: seq<FreeItem>, taken: nat) {
    forall n: nat :: HasRange(before, taken + n) ==> HasRange(after, n)
  }

  lemma RangeLeftInTurn(a: seq<FreeItem>, b: seq<FreeItem>, c: seq<FreeItem>, first: nat, second: nat)
    requires RangeLeft(a, b, first) && RangeLeft(b, c, second)
    ensures RangeLeft(a, c, first + second)
  {
    forall n: nat | HasRange(a, first + second + n) ensures HasRange(c, n) {
      assert HasRange(a, first + (second + n));
      assert HasRange(b, second + n);
    }
  }

  /** The steps of an allocation: the deferred range joins the list, then a range is taken. */
  lemma RangesKept(a: seq<FreeItem>, b: seq<FreeItem>, c: seq<FreeItem>, length: nat)
    ensures RangeLeft(a, a, length) && RangeLeft(a, a, 0)
    ensures RangeLeft(a, b, 0) && HasRange(a, length) ==> HasRange(b, length)
    ensures RangeLeft(a, b, 0) && RangeLeft(b, c, length) ==> RangeLeft(a, c, length)
  {
    if RangeLeft(a, b, 0) && RangeLeft(b, c, length) { RangeLeftInTurn(a, b, c, 0, length); }
    forall n: nat | HasRange(a, length + n) ensures HasRange(a, n) { }
    if RangeLeft(a, b, 0) && HasRange(a, length) { assert HasRange(a, 0 + length); }
  }

  lemma MergeKeepsRanges(items: seq<FreeItem>, lo: nat, hi: nat, item: FreeItem)
    requires lo <= hi <= |items| && forall k :: lo <= k < hi ==> items[k].length <= item.length
    ensures RangeLeft(items, items[..lo] + [item] + items[hi..], 0)
  {
    var r := items[..lo] + [item] + items[hi..];
    forall n: nat | HasRange(items, 0 + n) && n > 0 ensures HasRange(r, n) {
      var i :| 0 <= i < |items| && items[i].length >= n;
      var j := if i < lo then i else if i < hi then lo else i - hi + lo + 1;
      assert r[j].length >= n;
    }
  }

  lemma TakeLeavesRest(items: seq<FreeItem>, i: nat, length: nat)
    requires i < |items| && 0 < length <= items[i].length && Proper(items[i].bo)
    ensures HasRange(items, length)
    ensures items[i].length == length ==> RangeLeft(items, items[..i] + items[i + 1..], length)
    ensures items[i].length > length ==>
              RangeLeft(items, items[i := FreeItem(Advance(items[i].bo, length), items[i].length - length)], length)
  {
    var r := if items[i].length == length then items[..i] + items[i + 1..]
             else items[i := FreeItem(Advance(items[i].bo, length), items[i].length - length)];
    forall n: nat | HasRange(items, length + n) && n > 0 ensures HasRange(r, n) {
      var k :| 0 <= k < |items| && items[k].length >= length + n;
      assert r[if items[i].length == length && k > i then k - 1 else k].length >= n;
    }
  }

  lemma NoRange(items: seq<FreeItem>, length: nat)
    requires length > 0 && forall i :: 0 <= i < |items| ==> items[i].length < length
    ensures !HasRange(items, length) && RangeLeft(items, items, length)
  {
  }

  /** Whether a new range meets the range before this position. */
  predicate MeetsLower(items: seq<FreeItem>, at: nat, given: FreeItem)
    requires Sorted(items) && at <= |items|
  {
    at > 0 && Advance(items[at - 1].bo, items[at - 1].length) == given.bo
  }

  function WithLower(items: seq<FreeItem>, at: nat, given: FreeItem): FreeItem
    requires Sorted(items) && at <= |items|
  {
    if MeetsLower(items, at, given) then FreeItem(items[at - 1].bo, given.length + items[at - 1].length) else given
  }

  /** Whether a range, merged already with the one before, meets the range at this position. */
  predicate MeetsUpper(items: seq<FreeItem>, at: nat, item: FreeItem)
    requires Sorted(items) && at <= |items| && Proper(item.bo)
  {
    at < |items| && Advance(item.bo, item.length) == items[at].bo
  }

  function WithUpper(items: seq<FreeItem>, at: nat, item: FreeItem): FreeItem
    requires Sorted(items) && at <= |items| && Proper(item.bo)
  {
    if MeetsUpper(items, at, item) then FreeItem(item.bo, item.length + items[at].length) else item
  }

  /** The list with one range more at this position, merged with the neighbours that it meets. */
  function Inserted(items: seq<FreeItem>, at: nat, given: FreeItem): seq<FreeItem>
    requires Sorted(items) && ItemOk(given) && at <= |items|
  {
    var item := WithLower(items, at, given);
    items[..if MeetsLower(items, at, given) then at - 1 else at] + [WithUpper(items, at, item)]
      + items[if MeetsUpper(items, at, item) then at + 1 else at..]
  }

  lemma NeighboursMerged(items: seq<FreeItem>, at: nat, given: FreeItem)
    requires Sorted(items) && Coalesced(items) && Fits(items, at, given)
    ensures var item := WithLower(items, at, given);
            Merged(items, at, given, if MeetsLower(items, at, given) then at - 1 else at,
                   if MeetsUpper(items, at, item) then at + 1 else at, WithUpper(items, at, item))
  {
    hide Coalesced;
  }

  lemma InsertedOk(items: seq<FreeItem>, at: nat, given: FreeItem)
    requires Sorted(items) && Coalesced(items) && Fits(items, at, given)
    ensures var r := Inserted(items, at, given);
            Sorted(r) && Coalesced(r) && Covered(r) == Covered(items) + Area(given) && RangeLeft(items, r, 0)
  {
    hide RangeLeft, Covered, Area, Coalesced, Merged, Advance;
    var item := WithLower(items, at, given);
    var lo := if MeetsLower(items, at, given) then at - 1 else at;
    var hi := if MeetsUpper(items, at, item) then at + 1 else at;
    NeighboursMerged(items, at, given);
    MergedItem(items, at, given, lo, hi, WithUpper(items, at, item));
    MergeKeepsRanges(items, lo, hi, WithUpper(items, at, item));
  }

  /** The adjacency tests have their operands in order. */
  lemma NotBefore(items: seq<FreeItem>, at: nat, given: FreeItem)
    requires Sorted(items) && Fits(items, at, given)
    ensures at > 0 ==> !Before(given.bo, items[at - 1].bo)
    ensures at < |items| ==> !Before(items[at].bo, WithLower(items, at, given).bo)
  {
    if at > 0 { BeforeIsLinear(given.bo, items[at - 1].bo); }
    if at < |items| { BeforeIsLinear(items[at].bo, WithLower(items, at, given).bo); }
  }

  lemma InsertedIs(items: seq<FreeItem>, at: nat, given: FreeItem)
    requires Sorted(items) && ItemOk(given) && at <= |items|
    ensures var item := WithLower(items, at, given);
            Inserted(items, at, given) ==
            items[..if MeetsLower(items, at, given) then at - 1 else at] + [WithUpper(items, at, item)]
              + items[if MeetsUpper(items, at, item) then at + 1 else at..]
  {
  }

  /** The position of the first range that begins later. */
  function PlaceFor(items: seq<FreeItem>, bo: BlockOffset): (at: nat)
    ensures at <= |items| && forall i :: 0 <= i < at ==> !Before(bo, items[i].bo)
    ensures at < |items| ==> Before(bo, items[at].bo)
  {
    if items == [] || Before(bo, items[0].bo) then 0 else PlaceFor(items[1..], bo) + 1
  }

  function Collected(items: seq<FreeItem>, item: FreeItem): seq<FreeItem>
    requires Sorted(items) && ItemOk(item)
  {
    Inserted(items, PlaceFor(items, item.bo), item)
  }

  /** Collecting a range keeps the list sorted and coalesced and adds exactly its addresses. */
  lemma CollectedOk(items: seq<FreeItem>, item: FreeItem)
    requires Sorted(items) && Coalesced(items) && ItemOk(item) && Area(item) !! Covered(items)
    ensures var r := Collected(items, item);
            Sorted(r) && Coalesced(r) && Covered(r) == Covered(items) + Area(item)
  {
    hide Inserted, Covered, Coalesced, RangeLeft;
    var at := PlaceFor(items, item.bo);
    OrderedFits(items, at, item);
    InsertedOk(items, at, item);
  }

  lemma {:induction false} OnlyPlace(items: seq<FreeItem>, bo: BlockOffset, at: nat)
    requires at <= |items| && (forall i :: 0 <= i < at ==> !Before(bo, items[i].bo))
    requires at < |items| ==> Before(bo, items[at].bo)
    ensures at == PlaceFor(items, bo)
  {
  }

  /** The position of the first range that is long enough. */
  function FirstLong(items: seq<FreeItem>, length: nat): (at: nat)
    ensures at <= |items| && forall i :: 0 <= i < at ==> items[i].length < length
    ensures at < |items| ==> items[at].length >= length
  {
    if items == [] || items[0].length >= length then 0 else FirstLong(items[1..], length) + 1
  }

  /** The list without the first `length` bytes of one of its ranges. */
  function Taken(items: seq<FreeItem>, at: nat, length: nat): seq<FreeItem>
    requires at < |items| && length <= items[at].length && Proper(items[at].bo)
  {
    if items[at].length == length then items[..at] + items[at + 1..]
    else items[at := FreeItem(Advance(items[at].bo, length), items[at].length - length)]
  }

  /** What first fit gives for a list: the list and the offset. */
  function Fitted(items: seq<FreeItem>, length: nat): (seq<FreeItem>, Option<BlockOffset>)
    requires Sorted(items)
  {
    var at := FirstLong(items, length);
    if at == |items| then (items, None) else (Taken(items, at, length), Some(items[at].bo))
  }

  lemma FirstFitted(items: seq<FreeItem>, at: nat, length: nat)
    requires Sorted(items) && at < |items| && length <= items[at].length
    requires forall i :: 0 <= i < at ==> items[i].length < length
    ensures items[at].length == length ==> Fitted(items, length) == (items[..at] + items[at + 1..], Some(items[at].bo))
    ensures items[at].length > length ==>
              Fitted(items, length) ==
              (items[at := FreeItem(Advance(items[at].bo, length), items[at].length - length)], Some(items[at].bo))
  {
  }

  lemma NoneFitted(items: seq<FreeItem>, length: nat)
    requires Sorted(items) && forall i :: 0 <= i < |items| ==> items[i].length < length
    ensures Fitted(items, length) == (items, None)
  {
  }

  class FreeSpaceCollector {
    var items: seq<FreeItem>
    var isDeferred: bool
    var deferred: FreeItem
    var isModified: bool

    /** The free addresses: those of the list and those of the deferred range. */
    ghost var free: set<int>

    /** The list as it was loaded. */
    ghost var loaded: seq<FreeItem>

    ghost predicate Valid()
      reads this
    {
      && Sorted(items) && Coalesced(items)
      && (isDeferred ==> ItemOk(deferred) && Area(deferred) !! Covered(items))
      && free == Covered(items) + (if isDeferred then Area(deferred) else {})
      && (!isModified ==> Unmodified())
    }

    /** Since it was loaded, an unmodified list has stayed as it was or has grown. */
    ghost predicate Unmodified()
      reads this
    {
      Covered(loaded) <= Covered(items) && (Covered(items) == Covered(loaded) ==> items == loaded)
    }

    /** The whole free list: the deferred range has joined it. */
    function Ranges(): seq<FreeItem>
      requires Sorted(items) && (isDeferred ==> ItemOk(deferred))
      reads this
    {
      if isDeferred then Collected(items, deferred) else items
    }

    /** The deferred range begins behind all listed ones: only then is its collection noticed. */
    predicate DeferredLast()
      reads this
    {
      isDeferred && PlaceFor(items, deferred.bo) == |items|
    }

    lemma RangesOk()
      requires Valid()
      ensures Sorted(Ranges()) && Coalesced(Ranges()) && Covered(Ranges()) == free
    {
      if isDeferred { CollectedOk(items, deferred); }
    }

    /** The list and the offset after an allocation: a deferred range of just this length is
        taken, else the first range of the whole list that is long enough. */
    ghost function Allocation(length: nat): (seq<FreeItem>, Option<BlockOffset>)
      requires Valid()
      reads this
    {
      if isDeferred && deferred.length == length then (items, Some(deferred.bo))
      else RangesOk(); Fitted(Ranges(), length)
    }

    constructor ()
      ensures Valid() && free == {} && !isModified && items == [] && !isDeferred
    {
      items, isDeferred, deferred, isModified := [], false, FreeItem(EMPTY, 0), false;
      free, loaded := {}, [];
    }

    /** insert_free_space_item: merges with the item before `at`, then with the item at `at`.
        Neither adjacency test can find its operands out of order, so neither can throw. */
    method InsertItem(at: nat, given: FreeItem)
      requires Sorted(items) && Coalesced(items) && Fits(items, at, given)
      modifies this`items
      ensures Sorted(items) && Coalesced(items) && items == Inserted(old(items), at, given)
      ensures Covered(items) == old(Covered(items)) + Area(given) && RangeLeft(old(items), items, 0)
    {
      hide RangeLeft, Covered, Area, Coalesced, Advance, Linear, Inserted;
      InsertedOk(items, at, given);
      NotBefore(items, at, given);
      InsertedIs(items, at, given);
      var item, lo, hi := given, at, at;
      if at > 0 {
        if Adjacent(items[at - 1], item.bo) {
          item := FreeItem(items[at - 1].bo, item.length + items[at - 1].length);
          lo := at - 1;
        }
      }
      if at < |items| {
        if Adjacent(item, items[at].bo) {
          item := FreeItem(item.bo, item.length + items[at].length);
          hi := at + 1;
        }
      }
      items := items[..lo] + [item] + items[hi..];
    }

    /** do_collect: insert before the first item that begins later, else at the end.
        Only the second case marks the list as modified. */
    method DoCollect(item: FreeItem)
      requires Sorted(items) && Coalesced(items) && ItemOk(item)
      requires Area(item) !! Covered(items)
      modifies this`items, this`isModified
      ensures Sorted(items) && Coalesced(items) && items == Collected(old(items), item)
      ensures Covered(items) == old(Covered(items)) + Area(item) && RangeLeft(old(items), items, 0)
      ensures isModified == (old(isModified) || PlaceFor(old(items), item.bo) == |old(items)|)
      ensures old(Unmodified()) ==> Unmodified()
    {
      hide Inserted, Covered, Coalesced;
      var at := 0;
      while at < |items|
        invariant at <= |items|
        invariant forall i :: 0 <= i < at ==> !Before(item.bo, items[i].bo)
      {
        if Before(item.bo, items[at].bo) {
          OrderedFits(items, at, item);
          OnlyPlace(items, item.bo, at);
          assert Start(item) in Area(item);
          InsertItem(at, item);
          return;
        }
        at := at + 1;
      }
      OrderedFits(items, at, item);
      OnlyPlace(items, item.bo, at);
      assert Start(item) in Area(item);
      InsertItem(at, item);
      isModified := true;
    }

    /** collect: the previously deferred range goes to the list, the new one is deferred. */
    method Collect(bo: BlockOffset, length: nat)
      requires Valid() && Proper(bo)
      requires Interval(Linear(bo), length) !! free
      modifies this
      ensures Valid()
      ensures free == old(free) + Interval(Linear(bo), length) && RangeLeft(old(items), items, 0)
      ensures isModified == (old(isModified) || (length > 0 && old(DeferredLast())))
      ensures loaded == old(loaded)
      ensures length == 0 ==> unchanged(this)
      ensures length > 0 ==> isDeferred && deferred == FreeItem(bo, length) && items == old(Ranges())
    {
      hide Collected;
      if length == 0 {
        return;
      }
      if isDeferred {
        DoCollect(deferred);
        isDeferred := false;
      }
      deferred := FreeItem(bo, length);
      isDeferred := true;
      free := free + Interval(Linear(bo), length);
    }

    /** The search loop of allocate over the list. */
    method FirstFit(length: nat) returns (found: bool, bo: BlockOffset)
      requires Sorted(items) && Coalesced(items) && length > 0
      modifies this`items, this`isModified
      ensures Sorted(items) && Coalesced(items)
      ensures found <==> HasRange(old(items), length)
      ensures RangeLeft(old(items), items, length)
      ensures found ==> Proper(bo) && Interval(Linear(bo), length) <= old(Covered(items))
      ensures found ==> Covered(items) == old(Covered(items)) - Interval(Linear(bo), length) && isModified
      ensures (items, if found then Some(bo) else None) == Fitted(old(items), length)
      ensures !found ==> items == old(items) && isModified == old(isModified)
    {
      hide *;
      bo := EMPTY;
      var i := 0;
      while i < |items|
        invariant i <= |items|
        invariant forall j :: 0 <= j < i ==> items[j].length < length
      {
        if items[i].length >= length {
          TakeFrom(items, i, length);
          TakeLeavesRest(items, i, length);
          FirstFitted(items, i, length);
          found, bo, isModified := true, items[i].bo, true;
          if items[i].length == length {
            items := items[..i] + items[i + 1..];
          } else {
            items := items[i := FreeItem(Advance(items[i].bo, length), items[i].length - length)];
          }
          return;
        }
        i := i + 1;
      }
      NoRange(items, length);
      NoneFitted(items, length);
      found := false;
    }

    /** allocate: an exact deferred range first, then the first listed range that is long enough.
        It fails only when no single range is long enough, and then the free addresses are the same. */
    method Allocate(length: nat) returns (found: bool, bo: BlockOffset)
      requires Valid() && length > 0
      modifies this
      ensures Valid()
      ensures found ==> Proper(bo) && Interval(Linear(bo), length) <= old(free)
      ensures found ==> free == old(free) - Interval(Linear(bo), length)
      ensures !found ==> free == old(free) && !isDeferred
      ensures !found ==> !HasRange(items, length)
      ensures RangeLeft(old(items), items, length) && (HasRange(old(items), length) ==> found)
      ensures isModified ==
              (old(isModified) || (!old(isDeferred && deferred.length == length) && (old(DeferredLast()) || found)))
      ensures loaded == old(loaded)
      ensures !isDeferred
      ensures (items, if found then Some(bo) else None) == old(Allocation(length))
    {
      hide Sorted, Coalesced, RangeLeft, HasRange, Collected, Fitted, Covered, Interval;
      RangesKept(items, items, items, length);
      if isDeferred {
        isDeferred := false;
        if deferred.length == length {
          free := free - Area(deferred);
          return true, deferred.bo;
        }
        DoCollect(deferred);
      }
      ghost var listed := items;
      found, bo := FirstFit(length);
      free := Covered(items);
      RangesKept(old(items), listed, items, length);
    }
  }
}
