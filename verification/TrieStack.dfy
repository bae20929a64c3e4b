/** The explicit recursion stack of a trie operation, and the tree it stands for. */
module TrieStack {
  import opened ByteCodec
  import opened Addressing
  import opened Tries
  import opened TrieHeap

  /** A node in memory (trie_node with go_next of recursive_item). */
  datatype Item = Item(rec: NodeRecord, at: BlockOffset, modified: bool, goNext: bool)

  datatype Stack = Bottom | Push(below: Stack, top: Item)

  const ROOT := BlockOffset(0, 8)

  /** The node in memory carries this chunk and these links; unless it is marked as modified, the
      stored record says the same. A node without a place is always marked. */
  ghost predicate Loaded(mem: Bytes, it: Item, at: BlockOffset, chunk: Bytes, child: BlockOffset, next: BlockOffset) {
    && it.at == at && Describes(it.rec, chunk, child, next)
    && (at == EMPTY ==> it.modified)
    && (at != EMPTY ==> Inside(mem, at, NODE_SIZE))
    && (!it.modified ==> Describes(Stored(mem, at), chunk, child, next))
  }

  /** The item holds the first node of the list `hole`, whose links lead to represented trees. */
  ghost predicate Focus(mem: Bytes, it: Item, hole: Tree) {
    && hole.Node? && Loaded(mem, it, hole.at, hole.chunk, Pointer(hole.child), Pointer(hole.next))
    && Repr(mem, hole.child) && Repr(mem, hole.next)
  }

  /** The root node: it has the empty chunk and no child, and leads to the top sibling list. */
  ghost predicate RootLoaded(mem: Bytes, it: Item, next: BlockOffset) {
    it.goNext && Loaded(mem, it, ROOT, [], EMPTY, next)
  }

  /** The stack holds the way to the place `c`; the last item links to offset `link`. */
  ghost predicate StackOk(mem: Bytes, s: Stack, c: Ctx, link: BlockOffset) {
    match c
    case Top => s.Push? && s.below.Bottom? && RootLoaded(mem, s.top, link)
    case NextOf(at, chunk, child, up) =>
      && s.Push? && s.top.goNext && Loaded(mem, s.top, at, chunk, Pointer(child), link)
      && Repr(mem, child) && StackOk(mem, s.below, up, at)
    case ChildOf(at, chunk, next, up) =>
      && s.Push? && !s.top.goNext && Loaded(mem, s.top, at, chunk, link, Pointer(next))
      && Repr(mem, next) && StackOk(mem, s.below, up, at)
  }

  /** No node on the stack waits to be written. */
  predicate CleanStack(s: Stack) {
    s.Push? ==> !s.top.modified && CleanStack(s.below)
  }

  /** Every node on the way has a place. */
  ghost predicate Placed(c: Ctx) {
    match c
    case Top => true
    case NextOf(at, _, _, up) => at != EMPTY && Placed(up)
    case ChildOf(at, _, _, up) => at != EMPTY && Placed(up)
  }

  lemma LoadedFrame(mem: Bytes, mem': Bytes, it: Item, at: BlockOffset, chunk: Bytes, child: BlockOffset,
                    next: BlockOffset)
    requires Loaded(mem, it, at, chunk, child, next) && Agree(mem, mem', Own(at))
    ensures Loaded(mem', it, at, chunk, child, next)
  {
    hide Describes, DecodeNode;
    if at != EMPTY {
      SameSlice(mem, mem', Own(at), Linear(at), 32);
    }
  }

  lemma FocusFrame(mem: Bytes, mem': Bytes, it: Item, hole: Tree)
    requires Focus(mem, it, hole) && Agree(mem, mem', Footprint(hole))
    ensures Focus(mem', it, hole)
  {
    hide Agree, Loaded, Own;
    AgreeSub(mem, mem', Footprint(hole), Own(hole.at));
    AgreeSub(mem, mem', Footprint(hole), Footprint(hole.child));
    AgreeSub(mem, mem', Footprint(hole), Footprint(hole.next));
    LoadedFrame(mem, mem', it, hole.at, hole.chunk, Pointer(hole.child), Pointer(hole.next));
    ReprFrame(mem, mem', hole.child);
    ReprFrame(mem, mem', hole.next);
  }

  /** The stack survives every change of memory outside the addresses around its place. */
  lemma {:induction false} StackFrame(mem: Bytes, mem': Bytes, s: Stack, c: Ctx, link: BlockOffset)
    requires StackOk(mem, s, c, link) && Agree(mem, mem', Around(c))
    ensures StackOk(mem', s, c, link)
  {
    hide Agree, Loaded, Own;
    match c
    case Top =>
      RootOwn();
      LoadedFrame(mem, mem', s.top, ROOT, [], EMPTY, link);
    case NextOf(at, chunk, child, up) =>
      AgreeSub(mem, mem', Around(c), Own(at));
      AgreeSub(mem, mem', Around(c), Footprint(child));
      AgreeSub(mem, mem', Around(c), Around(up));
      LoadedFrame(mem, mem', s.top, at, chunk, Pointer(child), link);
      ReprFrame(mem, mem', child);
      StackFrame(mem, mem', s.below, up, at);
    case ChildOf(at, chunk, next, up) =>
      AgreeSub(mem, mem', Around(c), Own(at));
      AgreeSub(mem, mem', Around(c), Footprint(next));
      AgreeSub(mem, mem', Around(c), Around(up));
      LoadedFrame(mem, mem', s.top, at, chunk, link, Pointer(next));
      ReprFrame(mem, mem', next);
      StackFrame(mem, mem', s.below, up, at);
  }

  lemma RootOwn()
    ensures Own(ROOT) == Interval(0, 32)
  {
  }
}
