/** The members of a JSON object, found through a hash table. */
module ObjectTables {
  import opened ByteCodec
  import opened JsonText
  import opened ProbeTables

  /** The part of a buffer before its first zero byte. */
  function CString(s: Bytes): Bytes {
    if s == [] || s[0] == 0 then [] else [s[0]] + CString(s[1..])
  }

  lemma HashStep(h: nat, c: byte)
    ensures (h * 32 % 0x1_0000_0000_0000_0000 + h + c) % 0x1_0000_0000_0000_0000 ==
            (33 * h + c) % 0x1_0000_0000_0000_0000
  {
    WrapTwice(h * 32, h + c, 0x1_0000_0000_0000_0000);
  }

  /** hash_string: the shift and the sums wrap around at 64 bits. */
  method HashString(s: Bytes) returns (h: nat)
    ensures h == Hash(CString(s))
  {
    h := 5381;
    var i := 0;
    assert s == s[i..];
    while i < |s|
      invariant i <= |s| && CString(s) == s[..i] + CString(s[i..]) && h == Hash(s[..i])
    {
      if s[i] == 0 {
        break;
      }
      assert s[i + 1..] == s[i..][1..] && s[..i + 1][..i] == s[..i];
      HashStep(h, s[i]);
      h := (h * 32 % 0x1_0000_0000_0000_0000 + h + s[i]) % 0x1_0000_0000_0000_0000;
      i := i + 1;
    }
    assert CString(s) == s[..i];
  }

  lemma {:induction false} WholeString(s: Bytes)
    requires 0 !in s
    ensures CString(s) == s
  {
    if s != [] { WholeString(s[1..]); }
  }

  /** A name occurs in a list of members exactly when the search for it succeeds. */
  lemma {:induction false} FindNone(items: seq<Member>, name: Bytes)
    ensures Find(items, name).None? <==> name !in Names(items)
  {
    if items != [] {
      FindNone(items[1..], name);
      if name in Names(items) {
        var i :| 0 <= i < |items| && items[i].name == name;
        assert i > 0 ==> Names(items[1..])[i - 1] == name;
      } else {
        forall i | 0 <= i < |items[1..]| ensures Names(items[1..])[i] != name { assert Names(items)[i + 1] != name; }
        assert Names(items)[0] != name;
      }
    }
  }

  predicate OnceEach(items: seq<Member>) {
    forall i, j :: 0 <= i < j < |items| ==> items[i].name != items[j].name
  }

  lemma {:induction false} FindAt(items: seq<Member>, i: nat)
    requires i < |items| && OnceEach(items)
    ensures Find(items, items[i].name) == Some(items[i].value)
  {
    if i > 0 { FindAt(items[1..], i - 1); }
  }

  /** Two lists that have the same members, in whatever order, answer alike. */
  lemma SameAnswers(a: seq<Member>, b: seq<Member>, name: Bytes)
    requires OnceEach(a) && OnceEach(b)
    requires forall i :: 0 <= i < |a| && a[i].name == name ==> a[i] in b
    requires forall i :: 0 <= i < |b| && b[i].name == name ==> b[i] in a
    ensures Find(a, name) == Find(b, name)
  {
    FindNone(a, name);
    FindNone(b, name);
    if name in Names(a) {
      var i :| 0 <= i < |a| && a[i].name == name;
      var j :| 0 <= j < |b| && b[j] == a[i];
      FindAt(a, i);
      FindAt(b, j);
      assert Names(b)[j] == name;
    }
  }

  /** Only the answer for `name` changes, and it becomes `value`. */
  ghost predicate Updated(before: seq<Member>, after: seq<Member>, name: Bytes, value: Option<Json>) {
    forall k :: Find(after, k) == if k == name then value else Find(before, k)
  }

  lemma AddIsUpdate(items: seq<Member>, m: Member)
    requires OnceEach(items) && m.name !in Names(items)
    ensures OnceEach(items + [m]) && Updated(items, items + [m], m.name, Some(m.value))
  {
    forall i | 0 <= i < |items| ensures items[i].name != m.name { assert Names(items)[i] == items[i].name; }
    FindAt(items + [m], |items|);
    forall k | k != m.name ensures Find(items + [m], k) == Find(items, k) { SameAnswers(items + [m], items, k); }
  }

  lemma SetIsUpdate(items: seq<Member>, i: nat, value: Json)
    requires OnceEach(items) && i < |items|
    ensures var after := items[i := Member(items[i].name, value)];
            OnceEach(after) && Updated(items, after, items[i].name, Some(value))
  {
    var after := items[i := Member(items[i].name, value)];
    FindAt(after, i);
    forall k | k != items[i].name ensures Find(after, k) == Find(items, k) {
      forall n | 0 <= n < |items| && items[n].name == k ensures items[n] in after { assert after[n] == items[n]; }
      SameAnswers(after, items, k);
    }
  }

  /** Taking the last member into the place of a removed one removes just that name. */
  lemma RemoveIsRemoval(items: seq<Member>, i: nat)
    requires OnceEach(items) && i < |items|
    ensures var after := SwapRemoved(items, i); OnceEach(after) && Updated(items, after, items[i].name, None)
  {
    var after, last := SwapRemoved(items, i), |items| - 1;
    forall n | 0 <= n < |after| ensures after[n] in items && after[n].name != items[i].name {
      assert after[n] == items[if n == i then last else n];
    }
    forall m, n | 0 <= m < n < |after| ensures after[m].name != after[n].name {
      assert after[m] == items[if m == i then last else m] && after[n] == items[if n == i then last else n];
    }
    FindNone(after, items[i].name);
    forall k | k != items[i].name ensures Find(after, k) == Find(items, k) {
      forall n | 0 <= n < |items| && items[n].name == k ensures items[n] in after {
        assert after[if n == last then i else n] == items[n];
      }
      SameAnswers(after, items, k);
    }
  }

  class ObjectTable {
    var cells: array<int>
    var names: array<Bytes>
    var values: array<Json>
    var ixs: array<int>
    var hashes: array<int>
    var count: nat

    ghost function Arrays(): set<object>
      reads this
    {
      {cells as object, names, values, ixs, hashes}
    }

    ghost function Now(): Table
      reads this, Arrays()
    {
      Table(cells[..], names[..], values[..], ixs[..], hashes[..], count)
    }

    ghost predicate Valid()
      reads this, Arrays()
    {
      cells != ixs && cells != hashes && ixs != hashes && Inv(Now())
    }

    ghost function Members(): seq<Member>
      requires Valid()
      reads this, Arrays()
    {
      Items(Now())
    }

    lemma Sizes()
      requires Valid()
      ensures CapacityOk(cells.Length) && names.Length == ItemCapacity(cells.Length)
      ensures |Members()| == count <= names.Length
    {
      hide Linked;
    }

    /** json_object_init */
    constructor (capacity: nat)
      requires CapacityOk(capacity)
      ensures Valid() && Members() == [] && cells.Length == capacity && fresh(Arrays())
    {
      var itemCapacity := capacity * 7 / 10;
      cells := new int[capacity](_ => VACANT);
      names := new Bytes[itemCapacity](_ => []);
      values := new Json[itemCapacity](_ => Null);
      ixs := new int[itemCapacity](_ => 0);
      hashes := new int[itemCapacity](_ => 0);
      count := 0;
      new;
      EmptyTable(Now());
    }

    /** The tail of json_object_add and json_object_set_value. */
    method Append(cell: int, name: Bytes, value: Json, hash: nat)
      requires Valid() && hash == Hash(name) && 0 !in name && count < names.Length && 0 <= cell
      requires Place(Now(), name, cell)
      requires name !in Names(Members())
      modifies this`count, Arrays()
      ensures Valid() && Members() == old(Members()) + [Member(name, value)] && cells.Length == old(cells.Length)
    {
      hide Linked, Hash, Items, CapacityOk;
      AddKeeps(Now(), cell, name, value);
      names[count] := name;
      cells[cell] := count;
      values[count] := value;
      ixs[count] := cell;
      hashes[count] := hash;
      count := count + 1;
      assert Now() == old(Added(Now(), cell, name, value));
    }

    /** The loop of json_object_grow_and_rehash. */
    method Refill(other: ObjectTable)
      requires Valid() && other.Valid() && other != this && other.Arrays() !! Arrays()
      requires other.Members() == [] && count < other.names.Length
      modifies other, other.Arrays()
      ensures other.Valid() && other.Members() == Members() && other.cells.Length == old(other.cells.Length)
      ensures fresh(other.Arrays() - old(other.Arrays()))
      decreases 1, 0
    {
      hide Linked, Items, Names, CapacityOk;
      var i := 0;
      while i < count
        invariant i <= count && other.Valid() && fresh(other.Arrays() - old(other.Arrays()))
        invariant other.cells.Length == old(other.cells.Length) && other.Members() == Members()[..i]
      {
        RehashStep(Now(), i);
        var ok := other.Add(names[i], values[i]);
        i := i + 1;
      }
    }

    /** json_object_grow_and_rehash: a larger table with the same members in the same order. */
    method GrowAndRehash()
      requires Valid()
      modifies this
      ensures Valid() && fresh(Arrays()) && Members() == old(Members()) && count < names.Length
      decreases 1, 2
    {
      hide Inv, Items;
      var other := Larger();
      Adopt(other);
    }

    method Larger() returns (other: ObjectTable)
      requires Valid()
      ensures fresh(other) && fresh(other.Arrays()) && other.Valid()
      ensures other.Members() == Members() && other.count < other.names.Length
      decreases 1, 1
    {
      hide Inv, Items, CapacityOk, Grown, ItemCapacity;
      Sizes();
      other := new ObjectTable(Grown(cells.Length));
      other.Sizes();
      Refill(other);
      other.Sizes();
    }

    /** The arrays of the larger table replace those of this one. */
    method Adopt(other: ObjectTable)
      requires other.Valid() && other != this
      modifies this
      ensures Valid() && Arrays() == other.Arrays() && Members() == other.Members()
      ensures count == other.count && names == other.names
    {
      hide Inv;
      cells, names, values, ixs, hashes := other.cells, other.names, other.values, other.ixs, other.hashes;
      count := other.count;
      assert Now() == other.Now();
    }

    /** json_object_add: fails exactly when the name is there already. */
    method Add(name: Bytes, value: Json) returns (ok: bool)
      requires Valid() && 0 !in name
      modifies this, Arrays()
      ensures Valid() && fresh(Arrays() - old(Arrays()))
      ensures ok <==> name !in old(Names(Members()))
      ensures Members() == if ok then old(Members()) + [Member(name, value)] else old(Members())
      ensures ok ==> Updated(old(Members()), Members(), name, Some(value))
      ensures old(count < names.Length) ==> cells.Length == old(cells.Length)
      decreases if count >= names.Length then 2 else 0, 0
    {
      hide Linked, Place, Hash, Items, CapacityOk, Find;
      OnceEachName(Now());
      WholeString(name);
      var hash := HashString(name);
      var found, cell := FindCell(name, hash);
      if found {
        return false;
      }
      if count >= names.Length {
        GrowAndRehash();
        found, cell := FindCell(name, hash);
      }
      Append(cell, name, value, hash);
      AddIsUpdate(old(Members()), Member(name, value));
      ok := true;
    }

    /** json_object_get_cell_ix: the cell of a name, or the vacant cell that may take it. With no
        cells at all there is neither. */
    method FindCell(name: Bytes, hash: nat) returns (found: bool, ix: int)
      requires Valid() && hash == Hash(name)
      ensures found <==> name in Names(Members())
      ensures found ==> 0 <= ix < cells.Length && 0 <= cells[ix] < count && names[cells[ix]] == name
      ensures !found && cells.Length > 0 ==> ix >= 0 && Place(Now(), name, ix)
      ensures !found && cells.Length == 0 ==> ix == VACANT
    {
      hide CellOk, Reachable, Distinct, Home, Hash, And;
      ghost var steps := 0;
      if cells.Length > 0 { steps := StepsToVacant(Now(), hash); }
      var home := if cells.Length == 0 then hash else And(hash, cells.Length - 1);
      var i := 0;
      while i < cells.Length
        invariant i <= steps && (cells.Length > 0 ==> steps < cells.Length && Passed(Now(), name, i))
        invariant cells.Length > 0 ==> cells[At(Home(hash, cells.Length), steps, cells.Length)] == VACANT
      {
        MaskedProbe(hash, i, cells.Length);
        ix := And(home + i, cells.Length - 1);
        var cell := cells[ix];
        if cell == VACANT {
          MissingName(Now(), name, i);
          return false, ix;
        }
        InUse(Now(), ix);
        if hashes[cell] == hash && names[cell] == name {
          assert Names(Members())[cell] == name;
          return true, ix;
        }
        i := i + 1;
      }
      return false, VACANT;
    }

    /** json_object_getn_value: what the list of members says. */
    method GetValue(name: Bytes) returns (value: Option<Json>)
      requires Valid() && 0 !in name
      ensures value == Find(Members(), name)
    {
      hide Linked, Place, Hash, Find, Names;
      WholeString(name);
      FindNone(Members(), name);
      var hash := HashString(name);
      var found, cell := FindCell(name, hash);
      if !found {
        return None;
      }
      OnceEachName(Now());
      FindAt(Members(), cells[cell]);
      value := Some(values[cells[cell]]);
    }

    /** All members, one after the other: json_object_get_name and json_object_get_value_at. */
    method Listing() returns (members: seq<Member>)
      requires Valid()
      ensures members == Members()
    {
      hide Linked;
      members := [];
      var i := 0;
      while i < count
        invariant i <= count && members == Members()[..i]
      {
        members := members + [Member(names[i], values[i])];
        i := i + 1;
      }
    }

    /** json_object_set_value: replaces the value in place, or appends a member. */
    method SetValue(name: Bytes, value: Json)
      requires Valid() && 0 !in name
      modifies this, Arrays()
      ensures Valid() && fresh(Arrays() - old(Arrays()))
      ensures name !in old(Names(Members())) ==> Members() == old(Members()) + [Member(name, value)]
      ensures name in old(Names(Members())) ==>
                exists i :: 0 <= i < |old(Members())| && old(Members())[i].name == name &&
                  Members() == old(Members())[i := Member(name, value)]
      ensures Updated(old(Members()), Members(), name, Some(value))
    {
      hide Linked, Place, Hash, CapacityOk, Find;
      OnceEachName(Now());
      WholeString(name);
      var hash := HashString(name);
      var found, cell := FindCell(name, hash);
      if found {
        SetKeeps(Now(), cells[cell], value);
        ghost var i, t := cells[cell], Now();
        values[cells[cell]] := value;
        assert Now() == t.(values := t.values[i := value]);
        assert Items(t)[i].name == name;
        SetIsUpdate(Items(t), i, value);
        return;
      }
      if count >= names.Length {
        GrowAndRehash();
        found, cell := FindCell(name, hash);
      }
      Append(cell, name, value, hash);
      AddIsUpdate(old(Members()), Member(name, value));
    }

    /** The last slot takes the place of slot `i`. */
    method SwapWithLast(i: nat)
      requires Valid() && i < count
      modifies this`count, Arrays()
      ensures 0 <= old(ixs[count - 1]) < cells.Length && Now() == old(Swapped(Now(), i))
    {
      SwapKeeps(Now(), i);
      hide Inv, Linked;
      var last := count - 1;
      if i < last {
        names[i] := names[last];
        values[i] := values[last];
        ixs[i] := ixs[last];
        hashes[i] := hashes[last];
        cells[ixs[i]] := i;
      }
      count := count - 1;
    }

    /** The backward shift of json_object_remove_internal: `cell` belongs to no slot any more. */
    method CloseGap(cell: nat)
      requires cells != ixs && cells != hashes && ixs != hashes
      requires cell < cells.Length && Linked(Now(), cell) && count < names.Length
      modifies cells, ixs
      ensures Valid() && Members() == old(Items(Now()))
    {
      hide Linked, Scanned, Home, Items, Inv, At, CapacityOk, ItemCapacity, And;
      ghost var vacant := StartClosing(Now(), cell);
      ghost var a := 0;
      var i, j, x := cell, cell, 0;
      while x < cells.Length - 1
        invariant Closing(Now(), cell, a, x, vacant)
        invariant i == At(cell, a, cells.Length) && j == At(cell, x, cells.Length)
        invariant Items(Now()) == old(Items(Now()))
      {
        CloseStep(Now(), cell, a, x, vacant);
        MaskedStep(cell, x, cells.Length);
        j := And(j + 1, cells.Length - 1);
        if cells[j] == VACANT {
          break;
        }
        ghost var t := Now();
        MaskedProbe(hashes[cells[j]], 0, cells.Length);
        var k := And(hashes[cells[j]], cells.Length - 1);
        if MustMove(i, j, k) {
          ixs[cells[j]] := i;
          cells[i] := cells[j];
          assert Now() == Moved(t, i, j);
          i := j;
          a := x + 1;
        }
        x := x + 1;
      }
      ghost var t := Now();
      cells[i] := VACANT;
      assert Now() == Cleared(t, i);
    }

    /** json_object_remove_internal: fails exactly when the name is missing; otherwise the member
        goes and the last one takes its place. */
    method Remove(name: Bytes) returns (ok: bool)
      requires Valid() && 0 !in name
      modifies this`count, Arrays()
      ensures Valid() && (ok <==> name in old(Names(Members())))
      ensures !ok ==> Members() == old(Members())
      ensures ok ==> exists i :: 0 <= i < |old(Members())| && old(Members())[i].name == name &&
                       Members() == SwapRemoved(old(Members()), i)
      ensures ok ==> Updated(old(Members()), Members(), name, None)
    {
      hide Linked, Place, Hash, Find;
      OnceEachName(Now());
      WholeString(name);
      var hash := HashString(name);
      var found, cell := FindCell(name, hash);
      if !found {
        return false;
      }
      var i := cells[cell];
      SwapKeeps(Now(), i);
      SwapItems(Now(), i);
      InUse(Now(), cell);
      SwapWithLast(i);
      CloseGap(cell);
      assert old(Members())[i].name == name;
      RemoveIsRemoval(old(Members()), i);
      ok := true;
    }
  }
}
