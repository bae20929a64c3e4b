/** What the mark of a deletion does to a trie in memory when it goes past the record of an empty
    value: it spares everything but a node that carries bytes of keys. */
module TrieMark {
  import opened ByteCodec
  import opened Addressing
  import opened Tries
  import opened TrieHeap
  import opened TrieStack

  /** A node that does not end a key starts at this address. */
  predicate ChunkIn(t: Tree, a: int) {
    t.Node? && ((t.chunk != [] && Linear(t.at) == a) || ChunkIn(t.child, a) || ChunkIn(t.next, a))
  }

  /** The same for the nodes around a place. */
  predicate ChunkAround(c: Ctx, a: int) {
    match c
    case Top => false
    case NextOf(at, chunk, child, up) => (chunk != [] && Linear(at) == a) || ChunkIn(child, a) || ChunkAround(up, a)
    case ChildOf(at, chunk, next, up) => (chunk != [] && Linear(at) == a) || ChunkIn(next, a) || ChunkAround(up, a)
  }

  lemma {:induction false} PlugChunk(c: Ctx, t: Tree, a: int)
    ensures ChunkIn(Plug(c, t), a) <==> ChunkIn(t, a) || ChunkAround(c, a)
  {
    match c
    case Top =>
    case NextOf(at, chunk, child, up) => PlugChunk(up, Node(at, chunk, child, t), a);
    case ChildOf(at, chunk, next, up) => PlugChunk(up, Node(at, chunk, t, next), a);
  }

  /** Overwriting or deleting this key does not hit a node of another key: its value is not empty, or
      no node that carries bytes of keys starts right behind the record. */
  predicate MarkSafe(top: Tree, key: Bytes) {
    Lookup(top, key) == Some([]) ==> !ChunkIn(top, Linear(PlaceOf(top, key).value) + 9)
  }

  /** A node that ends a key starts at this address. */
  predicate EndIn(t: Tree, a: int) {
    t.Node? && ((t.chunk == [] && Linear(t.at) == a) || EndIn(t.child, a) || EndIn(t.next, a))
  }

  lemma {:induction false} EndOrChunk(mem: Bytes, t: Tree, a: int)
    requires Repr(mem, t) && Separate(t)
    ensures EndIn(t, a) || ChunkIn(t, a) ==> a in Footprint(t)
    ensures !EndIn(t, a) || !ChunkIn(t, a)
  {
    if t.Node? {
      assert Linear(t.at) in Own(t.at);
      EndOrChunk(mem, t.child, a);
      EndOrChunk(mem, t.next, a);
    }
  }

  /** A key may be overwritten or deleted when the byte behind its record belongs to no record, or
      starts a node that ends a key: as after a put of the empty value under a new key. */
  lemma SafeBehind(mem: Bytes, top: Tree, key: Bytes, a: int)
    requires Repr(mem, top) && Separate(top) && (PlaceOf(top, key).Some? ==> a == Linear(PlaceOf(top, key).value) + 9)
    requires a !in Footprint(top) || EndIn(top, a)
    ensures MarkSafe(top, key)
  {
    EndOrChunk(mem, top, a);
  }

  /** A record either does not hold the marked byte or starts with it. */
  predicate Spared(from: int, length: nat, a: int) {
    a < from || from + length <= a || a == from
  }

  /** A record that holds the byte behind another record starts there. */
  lemma OutsideSpares(from: int, length: nat, a: int)
    requires a - 1 !in Interval(from, length)
    ensures Spared(from, length, a)
  {
  }

  lemma MarkedSlice(mem: Bytes, after: Bytes, a: nat, from: nat, length: nat)
    requires Written(mem, after, a, [MARK]) && from + length <= |mem| && (a < from || from + length <= a)
    ensures after[from..from + length] == mem[from..from + length]
  {
    forall i | from <= i < from + length ensures after[i] == mem[i] { }
  }

  lemma MarkedByte(mem: Bytes, after: Bytes, a: nat)
    requires Written(mem, after, a, [MARK])
    ensures |mem| <= |after| && after[a] == MARK
  {
    assert after[a] == after[a..a + 1][0];
  }

  lemma SliceMarked(mem: Bytes, after: Bytes, a: nat, f: nat, i: nat, j: nat)
    requires Written(mem, after, a, [MARK]) && 0 < i <= j <= 32 && f + 32 <= |mem| && a == f
    ensures after[f..f + 32][i..j] == mem[f..f + 32][i..j]
  {
    SliceOfSlice(mem, f, f + 32, i, j);
    SliceOfSlice(after, f, f + 32, i, j);
    MarkedSlice(mem, after, a, f + i, j - i);
  }

  /** A node at the mark reads as the end of a key; its links stay. */
  lemma NodeMarked(mem: Bytes, after: Bytes, a: nat, at: BlockOffset)
    requires Written(mem, after, a, [MARK]) && Inside(mem, at, 32) && Spared(Linear(at), 32, a)
    ensures Inside(after, at, 32)
    ensures a == Linear(at) ==> Stored(after, at).size == 0
    ensures a != Linear(at) ==> Stored(after, at) == Stored(mem, at)
    ensures Stored(after, at).next == Stored(mem, at).next && Stored(after, at).child == Stored(mem, at).child
    ensures Stored(after, at).keyChunk == Stored(mem, at).keyChunk
  {
    hide DecodeOffset;
    var f := Linear(at);
    if a == f {
      MarkedByte(mem, after, a);
      SliceMarked(mem, after, a, f, 1, 9);
      SliceMarked(mem, after, a, f, 9, 17);
      SliceMarked(mem, after, a, f, 17, 32);
    } else {
      MarkedSlice(mem, after, a, f, 32);
    }
  }

  lemma DescribesMarked(mem: Bytes, after: Bytes, a: nat, at: BlockOffset, chunk: Bytes, child: BlockOffset,
                        next: BlockOffset)
    requires Written(mem, after, a, [MARK]) && Inside(mem, at, 32) && a - 1 !in Own(at)
    requires Describes(Stored(mem, at), chunk, child, next) && !(chunk != [] && Linear(at) == a)
    ensures Inside(after, at, 32) && Describes(Stored(after, at), chunk, child, next)
  {
    hide Stored, Written, Interval;
    ProperIsPlaced(at);
    OutsideSpares(Linear(at), 32, a);
    NodeMarked(mem, after, a, at);
  }

  lemma ValueMarked(mem: Bytes, after: Bytes, a: nat, at: BlockOffset, v: Bytes)
    requires Written(mem, after, a, [MARK]) && ValueAt(mem, at, v) && Spared(Linear(at), 9 + |v|, a)
    ensures ValueAt(after, at, v)
  {
    hide ToLittleEndian;
    var f := Linear(at);
    ProperIsPlaced(at);
    MarkedByte(mem, after, a);
    MarkedSlice(mem, after, a, f + 1, 8 + |v|);
  }

  /** A tree that does not hold the byte before the mark, and no chunk at the mark, survives it. */
  lemma {:induction false} ReprMarked(mem: Bytes, after: Bytes, a: nat, t: Tree)
    requires Written(mem, after, a, [MARK]) && Repr(mem, t) && !ChunkIn(t, a) && a - 1 !in Footprint(t)
    ensures Repr(after, t)
  {
    hide Written, Describes, Stored, ValueAt, Interval, Linear;
    match t
    case Leaf =>
    case Value(at, v) =>
      OutsideSpares(Linear(at), 9 + |v|, a);
      ValueMarked(mem, after, a, at, v);
    case Node(at, chunk, child, next) =>
      DescribesMarked(mem, after, a, at, chunk, Pointer(child), Pointer(next));
      ReprMarked(mem, after, a, child);
      ReprMarked(mem, after, a, next);
  }

  lemma LoadedMarked(mem: Bytes, after: Bytes, a: nat, it: Item, at: BlockOffset, chunk: Bytes, child: BlockOffset,
                     next: BlockOffset)
    requires Written(mem, after, a, [MARK]) && a - 1 !in Own(at) && !(chunk != [] && Linear(at) == a)
    requires Loaded(mem, it, at, chunk, child, next)
    ensures Loaded(after, it, at, chunk, child, next)
  {
    hide Describes, Stored, Own;
    if at != EMPTY {
      MarkedByte(mem, after, a);
      if !it.modified { DescribesMarked(mem, after, a, at, chunk, child, next); }
    }
  }

  /** The same for the stack and what lies around its place. */
  lemma {:induction false} StackMarked(mem: Bytes, after: Bytes, a: nat, s: Stack, c: Ctx, link: BlockOffset)
    requires Written(mem, after, a, [MARK]) && StackOk(mem, s, c, link)
    requires a - 1 !in Around(c) && !ChunkAround(c, a)
    ensures StackOk(after, s, c, link)
  {
    hide Written, Loaded, Own, Repr, Linear;
    match c
    case Top =>
      RootOwn();
      LoadedMarked(mem, after, a, s.top, ROOT, [], EMPTY, link);
    case NextOf(at, chunk, child, up) =>
      LoadedMarked(mem, after, a, s.top, at, chunk, Pointer(child), link);
      ReprMarked(mem, after, a, child);
      StackMarked(mem, after, a, s.below, up, at);
    case ChildOf(at, chunk, next, up) =>
      LoadedMarked(mem, after, a, s.top, at, chunk, link, Pointer(next));
      ReprMarked(mem, after, a, next);
      StackMarked(mem, after, a, s.below, up, at);
  }
}
