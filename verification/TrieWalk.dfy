/** What holds at every step of a walk down and up the trie. */
module TrieWalk {
  import opened ByteCodec
  import opened Addressing
  import opened DataNodes
  import opened Tries
  import opened TrieHeap
  import opened TrieStack

  /** Everything in use below the append cursor while the walk is at list `hole` of place `c`. */
  function Used(c: Ctx, hole: Tree): set<int> {
    Around(c) + Footprint(hole)
  }

  /** No two records overlap. */
  ghost predicate Apart(c: Ctx, hole: Tree) {
    SeparateAround(c) && Separate(hole) && Around(c) !! Footprint(hole)
  }

  /** The shape of the trie is kept. */
  predicate Shaped(c: Ctx, hole: Tree) {
    && ShapeCtx(c) && Shape(hole) && Heads(hole) !! Taken(c)
    && FullCtx(c) && FullRest(OnSpine(c), hole)
  }

  ghost predicate Sound(c: Ctx, hole: Tree) {
    Apart(c, hole) && Shaped(c, hole)
  }

  /** The first node of the list leads on: it may lack a value only at the top of the trie, and a
      child only along first nodes. */
  predicate EndOk(c: Ctx, hole: Tree) {
    hole.Node? ==> if hole.chunk == [] then hole.child.Value? || c.Top? else hole.child.Node? || OnSpine(c)
  }

  lemma NextApart(c: Ctx, hole: Tree)
    requires hole.Node?
    ensures var c' := NextOf(hole.at, hole.chunk, hole.child, c);
            (Apart(c, hole) <==> Apart(c', hole.next)) && Used(c', hole.next) == Used(c, hole)
  {
    hide Own;
  }

  lemma ChildApart(c: Ctx, hole: Tree)
    requires hole.Node?
    ensures var c' := ChildOf(hole.at, hole.chunk, hole.next, c);
            (Apart(c, hole) <==> Apart(c', hole.child)) && Used(c', hole.child) == Used(c, hole)
  {
    hide Own;
  }

  lemma NextShaped(c: Ctx, hole: Tree)
    requires Shaped(c, hole) && hole.Node? && EndOk(c, hole)
    ensures var c' := NextOf(hole.at, hole.chunk, hole.child, c); Shaped(c', hole.next) && EndOk(c', hole.next)
  {
  }

  lemma ChildShaped(c: Ctx, hole: Tree)
    requires Shaped(c, hole) && hole.Node? && hole.chunk != []
    ensures var c' := ChildOf(hole.at, hole.chunk, hole.next, c); Shaped(c', hole.child) && EndOk(c', hole.child)
  {
  }

  /** Going to the next sibling: the walk is then at the place after the node. */
  lemma StepNext(mem: Bytes, s: Stack, c: Ctx, hole: Tree, it: Item)
    requires Sound(c, hole) && StackOk(mem, s, c, it.at) && Focus(mem, it, hole) && EndOk(c, hole)
    ensures var c' := NextOf(hole.at, hole.chunk, hole.child, c);
            && Sound(c', hole.next) && StackOk(mem, Push(s, it.(goNext := true)), c', it.rec.next)
            && Used(c', hole.next) == Used(c, hole) && Plug(c', hole.next) == Plug(c, hole)
            && EndOk(c', hole.next) && Repr(mem, hole.next) && it.rec.next == Pointer(hole.next)
  {
    hide Repr, Own, Apart, Shaped, Used;
    NextApart(c, hole);
    NextShaped(c, hole);
  }

  /** Going to the child: the walk is then at the place below the node. */
  lemma StepChild(mem: Bytes, s: Stack, c: Ctx, hole: Tree, it: Item)
    requires Sound(c, hole) && StackOk(mem, s, c, it.at) && Focus(mem, it, hole) && hole.chunk != []
    ensures var c' := ChildOf(hole.at, hole.chunk, hole.next, c);
            && Sound(c', hole.child) && StackOk(mem, Push(s, it.(goNext := false)), c', it.rec.child)
            && Used(c', hole.child) == Used(c, hole) && Plug(c', hole.child) == Plug(c, hole)
            && EndOk(c', hole.child) && Repr(mem, hole.child) && it.rec.child == Pointer(hole.child)
  {
    hide Repr, Own, Apart, Shaped, Used;
    ChildApart(c, hole);
    ChildShaped(c, hole);
  }

  /** create_node: the record of a new node for the key from `depth` on. */
  function NewRecord(key: Bytes, depth: nat): (n: NodeRecord)
    requires depth <= |key|
    ensures RecordOk(n)
  {
    var size := Min(|key| - depth, MAX_CHUNK);
    NodeRecord(false, false, size, EMPTY, EMPTY, key[depth..depth + size] + Zeros(MAX_CHUNK - size))
  }

  function NewChunk(key: Bytes, depth: nat): (chunk: Bytes)
    requires depth <= |key|
    ensures chunk <= key[depth..] && |chunk| <= MAX_CHUNK && (|chunk| == MAX_CHUNK || depth + |chunk| == |key|)
    ensures chunk == [] <==> depth == |key|
    ensures Head(chunk) == Head(key[depth..])
  {
    var chunk := key[depth..depth + Min(|key| - depth, MAX_CHUNK)];
    assert chunk == key[depth..][..|chunk|];
    chunk
  }

  lemma CreatePaths(key: Bytes, depth: nat)
    requires depth <= |key|
    ensures OldPaths(Leaf, Node(EMPTY, NewChunk(key, depth), Leaf, Leaf), key[depth..])
  {
  }

  /** At the end of a list, a new node for the rest of the key adds no pair. */
  lemma StepCreate(mem: Bytes, s: Stack, c: Ctx, key: Bytes, depth: nat)
    requires depth <= |key| && Follows(c, key, depth)
    requires Sound(c, Leaf) && StackOk(mem, s, c, EMPTY)
    ensures var it, hole := Item(NewRecord(key, depth), EMPTY, true, false),
              Node(EMPTY, NewChunk(key, depth), Leaf, Leaf);
            && Sound(c, hole) && Focus(mem, it, hole) && Used(c, hole) == Used(c, Leaf)
            && Updates(Plug(c, Leaf), Plug(c, hole), key, None)
            && OldPaths(Plug(c, Leaf), Plug(c, hole), key)
            && HeadOf(Plug(c, hole)) == if c.Top? then FirstKey(key == []) else HeadOf(Plug(c, Leaf))
  {
    var hole := Node(EMPTY, NewChunk(key, depth), Leaf, Leaf);
    FollowsTaken(c, key, depth);
    PlugUpdates(c, Leaf, hole, key, depth, None);
    if !c.Top? { PlugHead(c, hole, Leaf); }
    CreatePaths(key, depth);
    PlugOldPaths(c, Leaf, hole, key, depth);
  }

  /** The record in memory reads as the first node of the represented list. */
  lemma StepRead(mem: Bytes, hole: Tree)
    requires Repr(mem, hole) && Shape(hole) && !hole.Leaf?
    ensures hole.Node? && hole.at != EMPTY && Inside(mem, hole.at, 32)
    ensures Focus(mem, Item(Stored(mem, hole.at), hole.at, false, false), hole)
  {
    ProperIsPlaced(hole.at);
  }
}
