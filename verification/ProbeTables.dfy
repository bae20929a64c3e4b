/** Open addressing with linear probing: the layout of a JSON object's members. */
module ProbeTables {
  import opened ByteCodec
  import opened JsonText

  const VACANT := -1
  const STARTING_CAPACITY := 16

  /** The 64-bit hash of a name. */
  function Hash(name: Bytes): (h: nat) {
    if name == [] then 5381 else (33 * Hash(name[..|name| - 1]) + name[|name| - 1]) % 0x1_0000_0000_0000_0000
  }

  function Power33(n: nat): (p: nat) {
    if n == 0 then 1 else 33 * Power33(n - 1)
  }

  /** The bytes as the digits of a number in base 33, the first one highest. */
  function Base33(name: Bytes): nat {
    if name == [] then 0 else name[0] * Power33(|name| - 1) + Base33(name[1..])
  }

  lemma {:induction false} Base33Last(name: Bytes, c: byte)
    ensures Base33(name + [c]) == 33 * Base33(name) + c
  {
    if name == [] {
      assert (name + [c])[1..] == [] && Power33(0) == 1;
    } else {
      assert (name + [c])[1..] == name[1..] + [c];
      Base33Last(name[1..], c);
      assert Power33(|name|) == 33 * Power33(|name| - 1);
      assert name[0] * (33 * Power33(|name| - 1)) == 33 * (name[0] * Power33(|name| - 1));
    }
  }

  /** The hash in closed form: 5381 and the bytes in base 33, modulo 2 to the power 64. */
  lemma {:induction false} HashMeans(name: Bytes)
    ensures Hash(name) == (5381 * Power33(|name|) + Base33(name)) % 0x1_0000_0000_0000_0000
  {
    if name != [] {
      var n := |name| - 1;
      var before, c := name[..n], name[n];
      HashMeans(before);
      assert name == before + [c];
      Base33Last(before, c);
      var x := 5381 * Power33(n) + Base33(before);
      WrapProduct(x, c);
      assert 33 * x + c == 5381 * Power33(|name|) + Base33(name);
    }
  }

  lemma WrapProduct(x: nat, c: byte)
    ensures (33 * (x % 0x1_0000_0000_0000_0000) + c) % 0x1_0000_0000_0000_0000 ==
            (33 * x + c) % 0x1_0000_0000_0000_0000
  {
    var q := x / 0x1_0000_0000_0000_0000;
    assert 33 * x + c == 33 * (x % 0x1_0000_0000_0000_0000) + c + 33 * q * 0x1_0000_0000_0000_0000;
  }

  /** The members, in the order of their slots, and the cells that point to them. A slot knows its
      cell and the hash of its name. */
  datatype Table = Table(
    cells: seq<int>, names: seq<Bytes>, values: seq<Json>, ixs: seq<int>, hashes: seq<int>, count: nat)

  function ItemCapacity(capacity: nat): nat {
    capacity * 7 / 10
  }

  /** None, or sixteen times a power of two: masking a hash with the capacity less one leaves the
      remainder. */
  predicate CapacityOk(capacity: nat) {
    || capacity == 0 || capacity == STARTING_CAPACITY
    || (capacity % 2 == 0 && CapacityOk(capacity / 2) && capacity > STARTING_CAPACITY)
  }

  /** The capacity after growing. */
  function Grown(capacity: nat): (r: nat)
    ensures CapacityOk(capacity) ==> CapacityOk(r) && ItemCapacity(r) > ItemCapacity(capacity)
  {
    if capacity * 2 > STARTING_CAPACITY then capacity * 2 else STARTING_CAPACITY
  }

  /** The cell where the search for a hash begins. */
  function Home(hash: int, capacity: nat): (c: nat)
    requires capacity > 0
    ensures c < capacity
  {
    hash % capacity
  }

  /** Steps of the search from one cell to another. */
  function Dist(from: nat, to: nat, capacity: nat): nat
    requires from < capacity && to < capacity
  {
    if from <= to then to - from else to + capacity - from
  }

  /** The cell after `d` steps. */
  function At(from: nat, d: nat, capacity: nat): (c: nat)
    requires from < capacity && d < capacity
    ensures c < capacity && Dist(from, c, capacity) == d
  {
    if from + d < capacity then from + d else from + d - capacity
  }

  /** The bits that two numbers have in common. */
  function And(a: nat, b: nat): nat {
    if b == 0 then 0 else (a % 2) * (b % 2) + 2 * And(a / 2, b / 2)
  }

  predicate PowerOfTwo(n: nat) {
    n == 1 || (n > 1 && n % 2 == 0 && PowerOfTwo(n / 2))
  }

  lemma {:induction false} MaskIsRemainder(hash: nat, n: nat)
    requires PowerOfTwo(n)
    ensures And(hash, n - 1) == hash % n
  {
    if n > 1 {
      var m := n / 2;
      MaskIsRemainder(hash / 2, m);
      assert And(hash, n - 1) == hash % 2 + 2 * And(hash / 2, m - 1);
      HalfRemainder(hash, m);
    }
  }

  lemma HalfRemainder(a: nat, m: nat)
    requires m > 0
    ensures a % (2 * m) == a % 2 + 2 * (a / 2 % m)
  {
    var h := a / 2;
    var q, r := h / m, h % m;
    Division(h, m);
    Products(q, m);
    RemainderIs(a, 2 * m, q, a % 2 + 2 * r);
  }

  lemma Division(a: nat, n: nat)
    requires n > 0
    ensures a == (a / n) * n + a % n && 0 <= a % n < n
  {
  }

  lemma Products(q: nat, m: nat)
    ensures q * (2 * m) == 2 * (q * m)
  {
  }

  lemma RemainderIs(a: nat, n: nat, q: nat, r: nat)
    requires r < n && a == q * n + r
    ensures a % n == r
  {
    Division(a, n);
    var d, s := a / n, a % n;
    if d < q { Larger(d, q, n); } else if d > q { Larger(q, d, n); }
  }

  /** Wrapping around early makes no difference. */
  lemma WrapTwice(x: nat, y: nat, n: nat)
    requires n > 0
    ensures (x % n + y) % n == (x + y) % n
  {
    var q, r := x / n, x % n + y;
    Division(x, n);
    Division(r, n);
    Distributes(q, r / n, n);
    RemainderIs(x + y, n, q + r / n, r % n);
  }

  lemma Distributes(a: nat, b: nat, n: nat)
    ensures (a + b) * n == a * n + b * n
  {
  }

  lemma Larger(x: nat, y: nat, n: nat)
    requires x < y
    ensures x * n + n <= y * n
  {
    assert (y - x - 1) * n >= 0;
    assert y * n == x * n + n + (y - x - 1) * n;
  }

  /** Both uses of the mask: to find the home of a hash, and to go on from there. */
  lemma MaskedProbe(hash: nat, d: nat, capacity: nat)
    requires CapacityOk(capacity) && d < capacity
    ensures And(hash, capacity - 1) == Home(hash, capacity)
    ensures And(Home(hash, capacity) + d, capacity - 1) == At(Home(hash, capacity), d, capacity)
  {
    CapacityIsPower(capacity);
    MaskIsRemainder(hash, capacity);
    var home := Home(hash, capacity);
    MaskIsRemainder(home + d, capacity);
    RemainderIs(home + d, capacity, if home + d < capacity then 0 else 1, At(home, d, capacity));
  }

  lemma {:induction false} CapacityIsPower(capacity: nat)
    requires CapacityOk(capacity) && capacity > 0
    ensures PowerOfTwo(capacity)
  {
    if capacity > STARTING_CAPACITY {
      CapacityIsPower(capacity / 2);
    } else {
      assert PowerOfTwo(2) && PowerOfTwo(4) && PowerOfTwo(8);
    }
  }

  predicate Sized(t: Table) {
    && CapacityOk(|t.cells|)
    && |t.names| == |t.values| == |t.ixs| == |t.hashes| == ItemCapacity(|t.cells|)
    && t.count <= |t.names|
  }

  /** A slot and its cell point to each other; names are C strings. */
  predicate SlotOk(t: Table, n: nat)
    requires Sized(t) && n < t.count
  {
    0 <= t.ixs[n] < |t.cells| && t.cells[t.ixs[n]] == n && t.hashes[n] == Hash(t.names[n]) && 0 !in t.names[n]
  }

  predicate CellOk(t: Table, c: nat)
    requires Sized(t) && c < |t.cells|
  {
    t.cells[c] == VACANT || (0 <= t.cells[c] < t.count && t.ixs[t.cells[c]] == c)
  }

  /** No vacant cell lies on the way from home to the cell of slot `n`. */
  predicate Reachable(t: Table, n: nat)
    requires Sized(t) && n < t.count && SlotOk(t, n)
  {
    var home := Home(t.hashes[n], |t.cells|);
    forall d :: 0 <= d < Dist(home, t.ixs[n], |t.cells|) ==> t.cells[At(home, d, |t.cells|)] != VACANT
  }

  predicate Distinct(t: Table)
    requires Sized(t)
  {
    forall i, j :: 0 <= i < j < t.count ==> t.names[i] != t.names[j]
  }

  /** Everything is linked, except for one cell that is in use but belongs to no slot. */
  predicate Linked(t: Table, hole: int) {
    && Sized(t)
    && (forall n :: 0 <= n < t.count ==> SlotOk(t, n) && t.ixs[n] != hole)
    && (forall c :: 0 <= c < |t.cells| && c != hole ==> CellOk(t, c))
    && (0 <= hole < |t.cells| ==> t.cells[hole] != VACANT)
    && (forall n :: 0 <= n < t.count ==> Reachable(t, n))
    && Distinct(t)
  }

  predicate Inv(t: Table) {
    Sized(t) && Linked(t, VACANT)
  }

  function Items(t: Table): (items: seq<Member>)
    requires Sized(t)
    ensures |items| == t.count
  {
    seq(t.count, i requires 0 <= i < t.count => Member(t.names[i], t.values[i]))
  }

  lemma EmptyTable(t: Table)
    requires Sized(t) && t.count == 0 && forall c :: 0 <= c < |t.cells| ==> t.cells[c] == VACANT
    ensures Inv(t) && Items(t) == []
  {
  }

  /** There is always a vacant cell besides the hole, so every search ends. */
  lemma SomeVacant(t: Table, hole: int) returns (c: nat)
    requires Linked(t, hole) && t.count + 1 < |t.cells|
    ensures c < |t.cells| && c != hole && t.cells[c] == VACANT
  {
    if c' :| 0 <= c' < |t.cells| && c' != hole && t.cells[c'] == VACANT {
      c := c';
    } else {
      var used := set n | 0 <= n < t.count :: t.ixs[n];
      ImageSize(t.ixs, t.count);
      var all := Interval(0, |t.cells|);
      forall x | x in all ensures x in used + {hole} {
        if x != hole { assert CellOk(t, x) && t.cells[x] != VACANT; }
      }
      IntervalSize(0, |t.cells|);
      SubsetSize(all, used + {hole});
      assert false;
    }
  }

  lemma {:induction false} ImageSize(f: seq<int>, n: nat)
    requires n <= |f|
    ensures |set i | 0 <= i < n :: f[i]| <= n
  {
    if n > 0 {
      ImageSize(f, n - 1);
      assert (set i | 0 <= i < n :: f[i]) == (set i | 0 <= i < n - 1 :: f[i]) + {f[n - 1]};
    }
  }

  /** What a search has seen of the first `i` cells from home: all in use, none of them by `name`. */
  predicate Passed(t: Table, name: Bytes, i: nat)
    requires Sized(t) && |t.cells| > 0 && i <= |t.cells|
  {
    forall d :: 0 <= d < i ==>
      var c := t.cells[At(Home(Hash(name), |t.cells|), d, |t.cells|)];
      c != VACANT && (0 <= c < t.count ==> t.names[c] != name)
  }

  /** The number of steps after which a search meets a vacant cell. */
  lemma StepsToVacant(t: Table, hash: int) returns (steps: nat)
    requires Inv(t) && |t.cells| > 0
    ensures steps < |t.cells| && t.cells[At(Home(hash, |t.cells|), steps, |t.cells|)] == VACANT
  {
    Roomy(|t.cells|);
    var c := SomeVacant(t, VACANT);
    steps := Dist(Home(hash, |t.cells|), c, |t.cells|);
  }

  lemma Roomy(capacity: nat)
    requires CapacityOk(capacity) && capacity > 0
    ensures capacity >= 16 && ItemCapacity(capacity) + 1 < capacity
  {
  }

  /** What a cell in use says about its slot. */
  lemma InUse(t: Table, c: nat)
    requires Inv(t) && c < |t.cells| && t.cells[c] != VACANT
    ensures 0 <= t.cells[c] < t.count && SlotOk(t, t.cells[c]) && t.ixs[t.cells[c]] == c
  {
    assert CellOk(t, c);
  }

  /** A search that meets a vacant cell has shown that the name is missing. */
  lemma MissingName(t: Table, name: Bytes, i: nat)
    requires Inv(t) && i < |t.cells| && Passed(t, name, i)
    requires t.cells[At(Home(Hash(name), |t.cells|), i, |t.cells|)] == VACANT
    ensures name !in Names(Items(t))
  {
    forall n | 0 <= n < t.count ensures t.names[n] != name {
      assert SlotOk(t, n) && Reachable(t, n);
      var home, k := Home(t.hashes[n], |t.cells|), Dist(Home(t.hashes[n], |t.cells|), t.ixs[n], |t.cells|);
      assert t.cells[At(home, k, |t.cells|)] == n;
    }
  }

  /** The cell where a search for `name` stops may take it. */
  predicate Place(t: Table, name: Bytes, c: nat)
    requires Sized(t)
  {
    && c < |t.cells| && t.cells[c] == VACANT
    && forall d :: 0 <= d < Dist(Home(Hash(name), |t.cells|), c, |t.cells|) ==>
      t.cells[At(Home(Hash(name), |t.cells|), d, |t.cells|)] != VACANT
  }

  function Added(t: Table, c: nat, name: Bytes, value: Json): Table
    requires Sized(t) && t.count < |t.names| && c < |t.cells|
  {
    var n := t.count;
    t.(names := t.names[n := name], cells := t.cells[c := n], values := t.values[n := value],
       ixs := t.ixs[n := c], hashes := t.hashes[n := Hash(name)], count := n + 1)
  }

  lemma AddKeeps(t: Table, c: nat, name: Bytes, value: Json)
    requires Inv(t) && t.count < |t.names| && Place(t, name, c) && 0 !in name
    requires name !in Names(Items(t))
    ensures Inv(Added(t, c, name, value)) && Items(Added(t, c, name, value)) == Items(t) + [Member(name, value)]
  {
    var u := Added(t, c, name, value);
    forall n | 0 <= n < t.count ensures t.names[n] != name { assert Names(Items(t))[n] == t.names[n]; }
    forall n | 0 <= n < u.count ensures SlotOk(u, n) && u.ixs[n] != VACANT && Reachable(u, n) {
      if n < t.count { assert SlotOk(t, n) && Reachable(t, n); }
    }
    forall x | 0 <= x < |u.cells| && x != VACANT ensures CellOk(u, x) { assert CellOk(t, x); }
    assert Items(u) == Items(t) + [Member(name, value)];
  }

  /** One more member goes to the larger table. */
  lemma RehashStep(t: Table, i: nat)
    requires Inv(t) && i < t.count
    ensures 0 !in t.names[i] && t.names[i] !in Names(Items(t)[..i])
    ensures Items(t)[..i] + [Member(t.names[i], t.values[i])] == Items(t)[..i + 1]
  {
    assert SlotOk(t, i);
  }

  lemma SetKeeps(t: Table, i: nat, value: Json)
    requires Inv(t) && i < t.count
    ensures var u := t.(values := t.values[i := value]); Inv(u) && Items(u) == Items(t)[i := Member(t.names[i], value)]
  {
    var u := t.(values := t.values[i := value]);
    forall n | 0 <= n < t.count ensures SlotOk(u, n) && Reachable(u, n) { assert SlotOk(t, n) && Reachable(t, n); }
    forall c | 0 <= c < |t.cells| ensures CellOk(u, c) { assert CellOk(t, c); }
  }

  lemma OnceEachName(t: Table)
    requires Inv(t)
    ensures forall i, j :: 0 <= i < j < t.count ==> Items(t)[i].name != Items(t)[j].name
  {
  }

  /** An element leaves and the last one takes its place. */
  function SwapRemoved<T>(s: seq<T>, i: nat): seq<T>
    requires i < |s|
  {
    if i < |s| - 1 then s[..|s| - 1][i := s[|s| - 1]] else s[..|s| - 1]
  }

  function Swapped(t: Table, i: nat): Table
    requires Sized(t) && i < t.count && 0 <= t.ixs[t.count - 1] < |t.cells|
  {
    var last := t.count - 1;
    if i < last then
      t.(names := t.names[i := t.names[last]], values := t.values[i := t.values[last]], ixs := t.ixs[i := t.ixs[last]],
         hashes := t.hashes[i := t.hashes[last]], cells := t.cells[t.ixs[last] := i], count := last)
    else t.(count := last)
  }

  lemma SwapItems(t: Table, i: nat)
    requires Sized(t) && i < t.count && 0 <= t.ixs[t.count - 1] < |t.cells|
    ensures Items(Swapped(t, i)) == SwapRemoved(Items(t), i)
  {
  }

  /** The last slot has moved to `i`; the cell of the removed slot belongs to no slot now. */
  lemma SwapKeeps(t: Table, i: nat)
    requires Inv(t) && i < t.count
    ensures 0 <= t.ixs[t.count - 1] < |t.cells| && Linked(Swapped(t, i), t.ixs[i])
  {
    hide Home, Dist, At, Hash, Items;
    var last, hole := t.count - 1, t.ixs[i];
    assert SlotOk(t, last) && SlotOk(t, i);
    var u := Swapped(t, i);
    forall n | 0 <= n < u.count ensures SlotOk(u, n) && u.ixs[n] != hole && Reachable(u, n) {
      var was := if n == i then last else n;
      assert SlotOk(t, was) && Reachable(t, was);
    }
    forall c | 0 <= c < |u.cells| && c != hole ensures CellOk(u, c) { assert CellOk(t, c); }
  }

  /** The way to slot `n` goes through cell `c`. */
  predicate Crosses(t: Table, n: nat, c: nat)
    requires Sized(t) && n < t.count && SlotOk(t, n) && c < |t.cells|
  {
    var home := Home(t.hashes[n], |t.cells|);
    Dist(home, c, |t.cells|) < Dist(home, t.ixs[n], |t.cells|)
  }

  /** The test that the deletion loop makes, with `k` the home of the slot at cell `j`. */
  predicate MustMove(i: nat, j: nat, k: nat) {
    (j > i && (k <= i || k > j)) || (j < i && (k <= i && k > j))
  }

  lemma MustMoveIsCrossing(i: nat, j: nat, k: nat, capacity: nat)
    requires i < capacity && j < capacity && k < capacity && i != j
    ensures MustMove(i, j, k) <==> Dist(k, i, capacity) < Dist(k, j, capacity)
  {
  }

  /** No slot from the hole up to cell `j` is reached through the hole. */
  predicate Scanned(t: Table, hole: nat, j: nat)
    requires Linked(t, hole) && hole < |t.cells| && j < |t.cells|
  {
    forall n :: 0 <= n < t.count && Dist(hole, t.ixs[n], |t.cells|) <= Dist(hole, j, |t.cells|) ==> !Crosses(t, n, hole)
  }

  function Moved(t: Table, i: nat, j: nat): Table
    requires Sized(t) && i < |t.cells| && j < |t.cells| && 0 <= t.cells[j] < t.count
  {
    t.(ixs := t.ixs[t.cells[j] := i], cells := t.cells[i := t.cells[j]])
  }

  /** Moving a slot into the hole keeps everything linked; the hole is now where the slot was. */
  lemma MoveKeeps(t: Table, i: nat, j: nat)
    requires Linked(t, i) && i < |t.cells| && j < |t.cells| && i != j && t.cells[j] != VACANT
    requires CellOk(t, j) && Crosses(t, t.cells[j], i)
    ensures Linked(Moved(t, i, j), j) && Items(Moved(t, i, j)) == Items(t)
    ensures forall c :: 0 <= c < |t.cells| ==> (Moved(t, i, j).cells[c] == VACANT <==> t.cells[c] == VACANT)
  {
    var u, m := Moved(t, i, j), t.cells[j];
    forall n | 0 <= n < u.count ensures SlotOk(u, n) && u.ixs[n] != j && Reachable(u, n) {
      assert SlotOk(t, n) && Reachable(t, n);
    }
    forall c | 0 <= c < |u.cells| && c != j ensures CellOk(u, c) { if c != i { assert CellOk(t, c); } }
  }

  /** One more cell has been looked at. */
  lemma ScanStep(t: Table, hole: nat, j: nat, next: nat)
    requires Linked(t, hole) && hole < |t.cells| && j < |t.cells| && next < |t.cells| && next != hole
    requires Dist(hole, next, |t.cells|) == Dist(hole, j, |t.cells|) + 1
    requires t.cells[next] != VACANT ==> CellOk(t, next) && !Crosses(t, t.cells[next], hole)
    requires Scanned(t, hole, j)
    ensures Scanned(t, hole, next)
  {
    forall n | 0 <= n < t.count && Dist(hole, t.ixs[n], |t.cells|) <= Dist(hole, next, |t.cells|)
      ensures !Crosses(t, n, hole)
    {
      assert SlotOk(t, n);
    }
  }

  lemma FreshScan(t: Table, hole: nat)
    requires Linked(t, hole) && hole < |t.cells|
    ensures Scanned(t, hole, hole)
  {
  }

  lemma DistAlong(from: nat, a: nat, b: nat, capacity: nat)
    requires from < capacity && a <= b < capacity
    ensures Dist(At(from, a, capacity), At(from, b, capacity), capacity) == b - a
  {
  }

  /** The mask leads from one cell to the next. */
  lemma MaskedStep(from: nat, d: nat, capacity: nat)
    requires CapacityOk(capacity) && from < capacity && d + 1 < capacity
    ensures And(At(from, d, capacity) + 1, capacity - 1) == At(from, d + 1, capacity)
  {
    var c := At(from, d, capacity);
    CapacityIsPower(capacity);
    MaskIsRemainder(c + 1, capacity);
    RemainderIs(c + 1, capacity, if c + 1 < capacity then 0 else 1, At(from, d + 1, capacity));
  }

  /** The deletion loop: the hole is `a` cells and the search `b` cells past where it began; the
      next vacant cell is still ahead. */
  predicate Closing(t: Table, from: nat, a: nat, b: nat, vacant: nat) {
    && Sized(t) && from < |t.cells| && a <= b < |t.cells| && vacant < |t.cells| && t.cells[vacant] == VACANT
    && b < Dist(from, vacant, |t.cells|)
    && Linked(t, At(from, a, |t.cells|))
    && Scanned(t, At(from, a, |t.cells|), At(from, b, |t.cells|))
  }

  lemma StartClosing(t: Table, hole: nat) returns (vacant: nat)
    requires Linked(t, hole) && hole < |t.cells| && t.count < |t.names|
    ensures Closing(t, hole, 0, 0, vacant)
  {
    Roomy(|t.cells|);
    vacant := SomeVacant(t, hole);
    FreshScan(t, hole);
  }

  /** One round of the deletion loop. */
  lemma CloseStep(t: Table, from: nat, a: nat, b: nat, vacant: nat)
    requires Closing(t, from, a, b, vacant)
    ensures b + 1 < |t.cells|
    ensures var i, j := At(from, a, |t.cells|), At(from, b + 1, |t.cells|);
            && i != j
            && (t.cells[j] == VACANT ==> Inv(Cleared(t, i)) && Items(Cleared(t, i)) == Items(t))
            && (t.cells[j] != VACANT ==>
                  && 0 <= t.cells[j] < t.count && t.hashes[t.cells[j]] >= 0
                  && if MustMove(i, j, Home(t.hashes[t.cells[j]], |t.cells|))
                     then Closing(Moved(t, i, j), from, b + 1, b + 1, vacant) && Items(Moved(t, i, j)) == Items(t)
                     else Closing(t, from, a, b + 1, vacant))
  {
    hide Linked, Scanned, Home, Items;
    var i, j, cap := At(from, a, |t.cells|), At(from, b + 1, |t.cells|), |t.cells|;
    DistAlong(from, a, b, cap);
    DistAlong(from, a, b + 1, cap);
    if t.cells[j] == VACANT {
      ScanVacant(t, i, At(from, b, cap), j);
      ClearKeeps(t, i, j);
    } else {
      SlotAt(t, i, j);
      MustMoveIsCrossing(i, j, Home(t.hashes[t.cells[j]], cap), cap);
      if MustMove(i, j, Home(t.hashes[t.cells[j]], cap)) {
        MoveKeeps(t, i, j);
        FreshScan(Moved(t, i, j), j);
      } else {
        ScanStep(t, i, At(from, b, cap), j);
      }
    }
  }

  lemma ScanVacant(t: Table, hole: nat, j: nat, next: nat)
    requires Linked(t, hole) && hole < |t.cells| && j < |t.cells| && next < |t.cells| && next != hole
    requires Dist(hole, next, |t.cells|) == Dist(hole, j, |t.cells|) + 1 && t.cells[next] == VACANT
    requires Scanned(t, hole, j)
    ensures Scanned(t, hole, next)
  {
    hide Scanned, Dist;
    ScanStep(t, hole, j, next);
  }

  lemma SlotAt(t: Table, hole: nat, j: nat)
    requires Linked(t, hole) && j < |t.cells| && j != hole && t.cells[j] != VACANT
    ensures Sized(t) && CellOk(t, j) && 0 <= t.cells[j] < t.count && SlotOk(t, t.cells[j])
  {
  }

  function Cleared(t: Table, hole: nat): Table
    requires hole < |t.cells|
  {
    t.(cells := t.cells[hole := VACANT])
  }

  /** Once a vacant cell is met, no way crosses the hole: it may become vacant too. */
  lemma ClearKeeps(t: Table, hole: nat, j: nat)
    requires Linked(t, hole) && hole < |t.cells| && j < |t.cells| && j != hole && t.cells[j] == VACANT
    requires Scanned(t, hole, j)
    ensures Inv(Cleared(t, hole)) && Items(Cleared(t, hole)) == Items(t)
  {
    var u := Cleared(t, hole);
    forall n | 0 <= n < u.count ensures SlotOk(u, n) && u.ixs[n] != VACANT && Reachable(u, n) {
      assert SlotOk(t, n) && Reachable(t, n);
      NoCrossing(t, hole, j, n);
    }
    forall c | 0 <= c < |u.cells| && c != VACANT ensures CellOk(u, c) { if c != hole { assert CellOk(t, c); } }
  }

  lemma NoCrossing(t: Table, hole: nat, j: nat, n: nat)
    requires Linked(t, hole) && hole < |t.cells| && j < |t.cells| && j != hole && t.cells[j] == VACANT
    requires Scanned(t, hole, j)
    requires n < t.count
    ensures !Crosses(t, n, hole)
  {
    assert SlotOk(t, n) && Reachable(t, n);
    var home := Home(t.hashes[n], |t.cells|);
    assert At(home, Dist(home, j, |t.cells|), |t.cells|) == j;
  }
}
