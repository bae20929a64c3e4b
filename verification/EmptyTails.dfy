/** A put that splits a node can leave the append block empty, and then the store cannot be finalized. */
module EmptyTails {
  import opened ByteCodec
  import opened Addressing
  import opened DataNodes
  import opened SecureBlockIo
  import opened FlatMemory
  import opened FreeSpace
  import opened DataNodeIo
  import opened Tries
  import opened TrieHeap
  import opened TrieStack
  import opened TrieWalk
  import opened TrieMap
  import opened TrieUpdate
  import opened EmptyValues
  import opened StateContents
  import opened StateKeyValue

  /** The records of a store after: put of 1 2 with one byte, put of 5 with 7981 bytes, which fill the
      block up to its last 24 bytes, and delete of 5. Its value and its two nodes leave `rest` behind. */
  function Parts(rest: Bytes): seq<Bytes> {
    [EncodeNode(Rec([], EMPTY, Off(74))),
     EncodeValue([7]),
     EncodeNode(Rec([], Off(32), EMPTY)),
     EncodeNode(Rec([1, 2], Off(42), EMPTY)),
     rest]
  }

  function OneKey(): Tree {
    Node(Off(74), [1, 2], Node(Off(42), [], Value(Off(32), [7]), Leaf), Leaf)
  }

  /** The free ranges of that store: the value of 5 and its end node are listed as one range, its
      other node is deferred. */
  const LISTED := FreeItem(Off(106), 8022)
  const DEFERRED := FreeItem(Off(8128), 32)

  lemma PartStep(rest: Bytes, i: nat, a: nat)
    requires i < 5 && |Joined(Parts(rest)[..i])| == a
    ensures a + |Parts(rest)[i]| <= |Joined(Parts(rest))|
    ensures Joined(Parts(rest))[a..a + |Parts(rest)[i]|] == Parts(rest)[i]
    ensures |Joined(Parts(rest)[..i + 1])| == a + |Parts(rest)[i]|
  {
    hide Joined, EncodeNode, EncodeValue;
    JoinedAt(Parts(rest), i);
  }

  lemma Layout(mem: Bytes, rest: Bytes)
    requires Joined(Parts(rest)) <= mem && |rest| == 8054
    ensures |Joined(Parts(rest))| == 8160
    ensures mem[0..32] == Parts(rest)[0] && mem[32..42] == Parts(rest)[1] && mem[42..74] == Parts(rest)[2]
    ensures mem[74..106] == Parts(rest)[3]
  {
    hide Joined, EncodeNode, EncodeValue;
    assert Joined(Parts(rest)[..0]) == [] by { NoneJoined(Parts(rest)[..0]); }
    PartStep(rest, 0, 0);
    PartStep(rest, 1, 32);
    PartStep(rest, 2, 42);
    PartStep(rest, 3, 74);
    PartStep(rest, 4, 106);
    assert Parts(rest)[..5] == Parts(rest);
    var image := Joined(Parts(rest));
    assert forall i :: 0 <= i < 8160 ==> mem[i] == image[i];
    assert mem[0..32] == image[0..32] && mem[32..42] == image[32..42] && mem[42..74] == image[42..74]
             && mem[74..106] == image[74..106];
  }

  lemma OneKeyTrie(mem: Bytes, rest: Bytes)
    requires Joined(Parts(rest)) <= mem && |rest| == 8054
    ensures TrieAt(mem, 8160, Interval(106, 8054), {}, OneKey())
  {
    hide EncodeNode, EncodeValue, Joined, Stored, Interval;
    Layout(mem, rest);
    OneKeyRepr(mem, rest);
    OneKeyRoot(mem, rest);
    assert Separate(Leaf) && Footprint(Leaf) == {};
    RunKey(74, [1, 2], 42, 32, [7], Leaf);
    OneKeyShaped();
    OneKeyParts();
  }

  lemma OneKeyRepr(mem: Bytes, rest: Bytes)
    requires |mem| >= 106 && mem[32..42] == Parts(rest)[1] && mem[42..74] == Parts(rest)[2]
    requires mem[74..106] == Parts(rest)[3]
    ensures Repr(mem, OneKey())
  {
    hide EncodeNode, EncodeValue, ValueAt;
    RunValue(mem, 32, [7]);
    RunNode(mem, 42, [], Value(Off(32), [7]), Leaf);
    RunNode(mem, 74, [1, 2], Node(Off(42), [], Value(Off(32), [7]), Leaf), Leaf);
  }

  lemma OneKeyShaped()
    ensures Shaped(Top, OneKey())
  {
    assert Shape(OneKey().child) && Spine(OneKey().child);
  }

  lemma OneKeyParts()
    requires Footprint(OneKey()) == Interval(74, 32) + Interval(42, 32) + Interval(32, 10) + {} && Separate(OneKey())
    ensures Apart(Top, OneKey()) && Partition(8160, Used(Top, OneKey()), Interval(106, 8054), {})
  {
    hide Footprint, Separate, Interval;
  }

  lemma OneKeyRoot(mem: Bytes, rest: Bytes)
    requires |mem| >= 32 && mem[0..32] == Parts(rest)[0]
    ensures Inside(mem, ROOT, 32) && Describes(Stored(mem, ROOT), [], EMPTY, Off(74))
  {
    hide EncodeNode;
    NodeRoundTrip(Rec([], EMPTY, Off(74)));
  }

  lemma OneKeyMeans()
    ensures Represents(OneKey(), map[[1, 2] := [7]]) && OnlyKeys(OneKey(), {[1, 2], [5]}) && Splits(OneKey(), [1, 3])
  {
    var t := OneKey();
    forall k ensures Lookup(t, k) == if k == [1, 2] then Some([7]) else None {
      if t.chunk <= k {
        var rest := k[2..];
        assert k == [1, 2] + rest;
        assert Lookup(t, k) == Lookup(t.child, rest);
        if rest == [] {
          assert rest[0..] == [];
          assert Lookup(t.child, rest) == Lookup(t.child.child, rest[0..]);
        } else {
          assert Lookup(t.child, rest) == Lookup(Leaf, rest);
        }
      } else {
        assert Lookup(t.next, k) == None;
      }
    }
    forall p | Touches(t, p) ensures p <= [1, 2] {
      if p != [] && t.chunk <= p { assert p == [1, 2] + p[2..]; }
    }
    assert [1, 2] in {[1, 2], [5]};
    assert t.chunk[1] != 3;
  }

  /** The memory of a fresh store, overwritten. */
  lemma ImageWritten(mem: Bytes, image: Bytes)
    requires |image| <= |mem|
    ensures image <= WriteFlat(mem, 0, image)
  {
    WriteFlatIsWritten(mem, 0, image);
    assert WriteFlat(mem, 0, image)[0..|image|] == image;
  }

  lemma OneCovered(item: FreeItem)
    requires ItemOk(item)
    ensures Sorted([item]) && Coalesced([item]) && Covered([item]) == Interval(Linear(item.bo), item.length)
    ensures HasRange([item], item.length)
  {
    assert [item][0] == item && [item][1..] == [];
  }

  /** The collector after the delete: one listed range and a deferred one behind it. */
  method SetRanges(io: DataNodeIo)
    requires io.Valid()
    modifies io.collector
    ensures io.Valid() && io.collector.items == [LISTED] && io.collector.free == Interval(106, 8054)
  {
    hide DataNodeIo.Core, DataNodeIo.AtEnd, Sorted, Coalesced, Covered, Interval;
    var c := io.collector;
    OneCovered(LISTED);
    assert Interval(106, 8022) + Interval(8128, 32) == Interval(106, 8054);
    c.items, c.isDeferred, c.deferred, c.isModified, c.free := [LISTED], true, DEFERRED, true, Interval(106, 8054);
  }

  /** A new store is brought to the state described above. */
  method Fill(kv: StateKV, rest: Bytes) returns (r: Outcome)
    requires kv.Valid() && kv.mode.Created? && kv.io.end == 32 && |rest| == 8054
    modifies kv`top, kv`lost, kv`contents, kv`ever, kv.io.Parts()
    ensures Fair(kv.io.cache.store.crypto, r, old(kv.io.cache.store.AllHeld()), 0) && !r.Thrown?
    ensures r.Pass? ==> kv.Valid() && kv.contents == map[[1, 2] := [7]] && kv.top == OneKey()
    ensures r.Pass? ==> kv.io.Room() == Space(8184, 8160, [LISTED])
    ensures r.Pass? ==> Grows(old(kv.io.cache.store.State()), kv.io.cache.store.State())
  {
    hide DataNodeIo.Valid, TrieAt, WriteFlat, Joined, Parts, Represents, OnlyKeys, Intact, OpenedAt, Extends, SizeTo,
      OneKey, Interval;
    var io := kv.io;
    io.Bounds();
    var image := Joined(Parts(rest));
    Layout(image, rest);
    ghost var mem := io.mem;
    :- io.Write(image, ROOT);
    ImageWritten(mem, image);
    SetRanges(io);
    io.Bounds();
    OneKeyTrie(io.mem, rest);
    OneKeyMeans();
    kv.top, kv.lost, kv.contents, kv.ever := OneKey(), {}, map[[1, 2] := [7]], {[1, 2], [5]};
    r := Pass;
  }

  /** A put of the key 1 3 splits the node of 1 2 and finds room for everything in the listed range. */
  method SplitInFullBlock(kv: StateKV, rest: Bytes) returns (r: Outcome)
    requires kv.Valid() && kv.mode.Created? && kv.io.end == 32 && |rest| == 8054
    modifies kv`top, kv`lost, kv`contents, kv`ever, kv.io.Parts()
    ensures Fair(kv.io.cache.store.crypto, r, old(kv.io.cache.store.AllHeld()), 0) && !r.Thrown?
    ensures r.Pass? ==> kv.Valid() && kv.NothingAppended() && kv.contents == map[[1, 2] := [7], [1, 3] := []]
    ensures r.Pass? ==> Grows(old(kv.io.cache.store.State()), kv.io.cache.store.State())
  {
    hide StateKV.Valid, Represents, OnlyKeys, Extends, Intact, OneKey, PutGrew, HasRange;
    :- Fill(kv, rest);
    ghost var stored := kv.io.cache.store.State();
    OneKeyMeans();
    :- kv.Put([1, 3], []);
    GrowsInTurn(old(kv.io.cache.store.State()), old(kv.io.cache.store.State()), stored, kv.io.cache.store.State());
    TailLeftEmpty(kv.io.Room());
    r := Pass;
  }

  lemma TailLeftEmpty(after: Space)
    requires PutGrew(Space(8184, 8160, [LISTED]), after, true, PutNeed([1, 3], []))
    ensures EmptyTail(after)
  {
    OneCovered(LISTED);
    FewerBytes([LISTED], 8022, PutNeed([1, 3], []));
  }

  /** After put of 1 2 with one byte, put of 5 with 7981 bytes and delete of 5, a put of 1 3 leaves the
      append block empty, and the attempt to finalize throws. */
  method SplitThenFinalize(store: BlockStore, rest: Bytes) returns (put: Outcome, finalized: Outcome)
    requires store.Valid() && |rest| == 8054
    modifies store
    ensures Fair(store.crypto, put, old(store.AllHeld()), 0) && !put.Thrown?
    ensures put.Pass? ==> finalized.Thrown?
  {
    hide StateKV.Valid, StateKV.Blank, Extends;
    finalized := Pass;
    var kv := new StateKV(store);
    put := kv.Create();
    if put.Pass? {
      put := SplitInFullBlock(kv, rest);
      if put.Pass? {
        var id;
        ghost var s;
        finalized, id, s := kv.Finalize();
      }
    }
  }
}
