/** The operations of the trie: an iterative walk down with an explicit stack, the operation, and
    the walk back up that writes what has changed. */
module TrieMap {
  import opened ByteCodec
  import opened Addressing
  import opened DataNodes
  import opened SecureBlockIo
  import opened FreeSpace
  import opened DataNodeIo
  import opened Tries
  import opened TrieHeap
  import opened TrieStack
  import opened TrieWalk
  import opened TrieOps

  /** shared_prefix_length */
  method SharedPrefixLength(stored: Bytes, key: Bytes) returns (n: nat)
    ensures n <= |stored| && n <= |key| && stored[..n] == key[..n]
    ensures n < |stored| && n < |key| ==> stored[n] != key[n]
  {
    n := 0;
    while n < |stored| && n < |key| && stored[n] == key[n]
      invariant n <= |stored| && n <= |key| && stored[..n] == key[..n]
    {
      n := n + 1;
    }
  }

  /** What the walk does at a node depends on the shared prefix as the map semantics says. */
  lemma PrefixDecides(chunk: Bytes, rest: Bytes, n: nat)
    requires n <= |chunk| && n <= |rest| && chunk[..n] == rest[..n]
    requires n < |chunk| && n < |rest| ==> chunk[n] != rest[n]
    ensures n == 0 && !(rest == [] && chunk == []) <==> Head(chunk) != Head(rest)
    ensures n == |chunk| <==> chunk <= rest
  {
  }

  lemma ConsumeParts(end: nat, size: nat, used: set<int>, free: set<int>, lost: set<int>)
    requires Partition(end, used, free, lost) && end <= size
    ensures Interval(end, size - end) !! free
    ensures Partition(size, used, free + Interval(end, size - end), lost)
  {
  }

  /** do_split_trie_node: if the append block has no room for a node, its rest is given up; the
      second part of the chunk goes to a new node below the first. */
  method SplitNode(io: DataNodeIo, given: Item, n: nat, ghost c: Ctx, ghost hole: Tree, ghost lost: set<int>)
    returns (r: Outcome, it: Item, ghost second: BlockOffset)
    requires io.Valid() && Focus(io.mem, given, hole) && 0 < n < |hole.chunk|
    requires Partition(io.end, Used(c, hole), io.collector.free, lost)
    modifies io.Parts()
    ensures Fair(io.cache.store.crypto, r, old(io.cache.store.AllHeld()), old(io.end) + 64) && !r.Thrown?
    ensures r.Pass? ==> io.Valid() && Agree(old(io.mem), io.mem, Used(c, hole)) && it.at == given.at
    ensures r.Pass? ==> Own(second) !! Used(c, hole) && Focus(io.mem, it, SplitAt(hole, n, second))
    ensures r.Pass? ==> Partition(io.end, Used(c, hole) + Own(second), io.collector.free, lost)
    ensures r.Pass? ==> Later(old(io.Base()), io.Base()) && SplitGrew(old(io.Room()), io.Room())
  {
    hide DataNodeIo.Valid, Partition, Agree, Focus, Footprint, Around, Used, Later, Repr, Grew, SplitGrew, RangeLeft,
      Intact;
    io.Bounds();
    LaterInTurn(io.Base(), io.Base(), io.Base());
    it, second := given, EMPTY;
    var rec := it.rec;
    FocusRecord(io.mem, it, hole);
    var room := io.AppendFree();
    ghost var used := Used(c, hole);
    AgreeWithMore(io.mem, Zeros(8184), used);
    if 32 > room {
      ConsumeParts(io.end, |io.mem|, used, io.collector.free, lost);
      :- io.ConsumeAppendBlock();
    }
    ghost var mid, base, space := io.mem, io.Base(), io.Room();
    LaterInTurn(old(io.Base()), base, base);
    var chunk := rec.keyChunk[n..rec.size];
    var other := Item(NodeRecord(false, false, |chunk|, EMPTY, rec.child, chunk + Zeros(MAX_CHUNK - |chunk|)), EMPTY,
                      true, false);
    other :- WriteNode(io, other, used, lost);
    second := other.at;
    assert used - Own(second) == used;
    AgreeInTurn(old(io.mem), mid, io.mem, used);
    it := it.(rec := rec.(size := n, child := other.at), modified := true);
    SplitFocus(old(io.mem), io.mem, given, hole, c, n, other.rec, second);
    LaterInTurn(old(io.Base()), base, io.Base());
    if 32 > room {
      GrewAfterConsume(old(io.Room()), space, io.Room());
    } else {
      GrewBySplit(old(io.Room()), io.Room());
    }
    r := Pass;
  }

  lemma FocusRecord(mem: Bytes, it: Item, hole: Tree)
    requires Focus(mem, it, hole)
    ensures hole.Node? && RecordOk(it.rec) && it.rec.size == |hole.chunk|
    ensures it.rec.keyChunk[..it.rec.size] == hole.chunk
    ensures it.rec.child == Pointer(hole.child) && it.rec.next == Pointer(hole.next) && it.at == hole.at
  {
  }

  lemma AgreeWithMore(mem: Bytes, more: Bytes, area: set<int>)
    ensures Agree(mem, mem + more, area) && Agree(mem, mem, area)
  {
  }

  lemma AgreeInTurn(a: Bytes, b: Bytes, c: Bytes, area: set<int>)
    requires Agree(a, b, area) && Agree(b, c, area)
    ensures Agree(a, c, area)
  {
  }

  lemma SplitFocus(mem: Bytes, mem': Bytes, it: Item, hole: Tree, c: Ctx, n: nat, rec: NodeRecord, second: BlockOffset)
    requires Focus(mem, it, hole) && 0 < n < |hole.chunk| && Agree(mem, mem', Used(c, hole))
    requires Describes(rec, hole.chunk[n..], Pointer(hole.child), EMPTY) && Fits32(second)
    requires Inside(mem', second, 32) && mem'[Linear(second)..Linear(second) + 32] == EncodeNode(rec)
    ensures Focus(mem', it.(rec := it.rec.(size := n, child := second), modified := true), SplitAt(hole, n, second))
  {
    hide Agree, Own, EncodeNode, DecodeNode;
    AgreeSub(mem, mem', Used(c, hole), Footprint(hole));
    FocusFrame(mem, mem', it, hole);
    assert hole.chunk[n..] == it.rec.keyChunk[n..it.rec.size];
    ReprWritten(mem', second, rec, hole.chunk[n..], hole.child, Leaf);
  }

  datatype Operation = GetOp | PutOp | DelOp

  /** The state of a walk: the stack leads to the list `hole`, reached through `link`, and the
      space below the append cursor is accounted for. */
  ghost predicate Walking(io: DataNodeIo, s: Stack, c: Ctx, hole: Tree, link: BlockOffset, lost: set<int>)
    reads io, io.collector
  {
    Sound(c, hole) && StackOk(io.mem, s, c, link) && Partition(io.end, Used(c, hole), io.collector.free, lost)
  }

  /** The two trees answer every search alike, their heads are of one kind, and the second spells
      nothing that the first does not. */
  ghost predicate SameMap(t: Tree, u: Tree) {
    HeadOf(u) == HeadOf(t) && NoNewPaths(t, u) && forall k :: Lookup(u, k) == Lookup(t, k)
  }

  /** The head after an operation: the first key ever put decides it. */
  function HeadAfter(op: Operation, key: Bytes, head: First): First {
    if op.PutOp? && head == NoKey then FirstKey(key == []) else head
  }

  /** read_trie_node */
  method ReadNode(io: DataNodeIo, at: BlockOffset) returns (r: Outcome, it: Item)
    requires io.Valid() && Inside(io.mem, at, NODE_SIZE)
    modifies io.cache, io.cache.warehouse, io.cache.store
    ensures Fair(io.cache.store.crypto, r, old(io.cache.store.AllHeld()), 0) && !r.Thrown?
    ensures r.Pass? ==> io.Valid() && it == Item(Stored(io.mem, at), at, false, false)
    ensures r.Pass? ==> Later(old(io.Base()), io.Base())
  {
    hide DataNodeIo.Valid, Later, DecodeNode;
    it := Item(NodeRecord(false, false, 0, EMPTY, EMPTY, Zeros(15)), EMPTY, false, false);
    var bytes;
    bytes :- io.Read(at, 32);
    it := Item(DecodeNode(bytes), at, false, false);
    r := Pass;
  }

  lemma SoundShape(c: Ctx, hole: Tree)
    requires Sound(c, hole)
    ensures Shape(hole)
  {
  }

  lemma NotValue(mem: Bytes, c: Ctx, hole: Tree)
    requires Sound(c, hole) && Repr(mem, hole)
    ensures hole.Leaf? || (hole.Node? && Pointer(hole) != EMPTY)
  {
  }

  /** The memory holds this trie: the root at its place, the tree linked from it, nothing
      overlapping, and every byte below the append cursor in use, free or lost. */
  ghost predicate TrieAt(mem: Bytes, end: nat, free: set<int>, lost: set<int>, top: Tree) {
    && Sound(Top, top) && Repr(mem, top)
    && Inside(mem, ROOT, NODE_SIZE) && Describes(Stored(mem, ROOT), [], EMPTY, Pointer(top))
    && Partition(end, Used(Top, top), free, lost)
  }

  ghost predicate HoldsTrie(io: DataNodeIo, top: Tree, lost: set<int>)
    reads io, io.collector
  {
    TrieAt(io.mem, io.end, io.collector.free, lost, top)
  }

  /** What the walk down may change: the memory, its free addresses and its size. */
  datatype Extent = Extent(mem: Bytes, free: set<int>, room: Space)

  ghost function ExtentOf(io: DataNodeIo): Extent
    reads io, io.collector
  {
    Extent(io.mem, io.collector.free, io.Room())
  }

  /** A split may take space, all else changes nothing. */
  ghost predicate Walked(split: bool, before: Extent, after: Extent) {
    if split then SplitGrew(before.room, after.room) else after == before
  }

  /** The state of the walk down: how much of the key is matched, the nodes on the way, and the node
      in hand if it is loaded, or else the link to it. */
  datatype Descent = Descent(depth: nat, it: Item, stack: Stack, link: BlockOffset, loaded: bool)

  /** Where the walk is in the trie: a list of nodes, and all around it. */
  datatype Zipper = Zipper(c: Ctx, hole: Tree)

  function ToNext(w: Descent): Descent {
    w.(stack := Push(w.stack, w.it.(goNext := true)), link := w.it.rec.next, loaded := false)
  }

  function ToChild(w: Descent): Descent {
    w.(depth := w.depth + w.it.rec.size, stack := Push(w.stack, w.it.(goNext := false)), link := w.it.rec.child,
       loaded := false)
  }

  function NextPlace(z: Zipper): Zipper
    requires z.hole.Node?
  {
    Zipper(NextOf(z.hole.at, z.hole.chunk, z.hole.child, z.c), z.hole.next)
  }

  function ChildPlace(z: Zipper): Zipper
    requires z.hole.Node?
  {
    Zipper(ChildOf(z.hole.at, z.hole.chunk, z.hole.next, z.c), z.hole.child)
  }

  /** The walk has not changed what the trie means; a reading walk has not changed the trie. */
  ghost predicate Faithful(op: Operation, key: Bytes, top: Tree, c: Ctx, hole: Tree) {
    && (forall k :: Lookup(Plug(c, hole), k) == Lookup(top, k))
    && OldPaths(top, Plug(c, hole), key)
    && (HeadOf(Plug(c, hole)) == HeadOf(top) || HeadOf(Plug(c, hole)) == HeadAfter(op, key, HeadOf(top)))
    && (!op.PutOp? ==> Placed(c)) && (!op.PutOp? || Lookup(top, key).Some? ==> Plug(c, hole) == top)
  }

  /** The invariant of the walk down: `depth` bytes of the key are matched on the way to the list
      `hole`, whose first node is loaded in `it` or linked by `link`. */
  ghost predicate Descending(io: DataNodeIo, op: Operation, key: Bytes, top: Tree, lost: set<int>, w: Descent,
                             z: Zipper)
    reads io, io.collector
  {
    && w.depth <= |key| && Follows(z.c, key, w.depth) && Faithful(op, key, top, z.c, z.hole)
    && Walking(io, w.stack, z.c, z.hole, if w.loaded then w.it.at else w.link, lost)
    && (if w.loaded then Focus(io.mem, w.it, z.hole) else Repr(io.mem, z.hole) && w.link == Pointer(z.hole))
    && (w.loaded && !op.PutOp? ==> !w.it.modified && w.it.at != EMPTY)
    && (!op.PutOp? ==> CleanStack(w.stack))
    && (EndOk(z.c, z.hole) || (op.PutOp? && z.hole.Node? && z.hole.at == EMPTY))
  }

  /** The list after its first node has been read or created. */
  function NodeOf(list: Tree, key: Bytes, depth: nat): Tree
    requires depth <= |key|
  {
    if list.Leaf? then Node(EMPTY, NewChunk(key, depth), Leaf, Leaf) else list
  }

  /** The node at the end of a link: read it, or for a put create it, or for the others stop. */
  method LoadNode(io: DataNodeIo, op: Operation, key: Bytes, given: Descent, ghost top: Tree, ghost lost: set<int>,
                  ghost z: Zipper)
    returns (r: Outcome, found: bool, w: Descent, ghost list: Tree)
    requires io.Valid() && Descending(io, op, key, top, lost, given, z) && !given.loaded
    modifies io.cache, io.cache.warehouse, io.cache.store
    ensures Fair(io.cache.store.crypto, r, old(io.cache.store.AllHeld()), 0) && !r.Thrown?
    ensures r.Pass? ==> io.Valid() && Later(old(io.Base()), io.Base())
    ensures r.Pass? && found ==> Descending(io, op, key, top, lost, w, Zipper(z.c, list))
    ensures r.Pass? && found ==> w == given.(it := w.it, loaded := true) && list == NodeOf(z.hole, key, w.depth)
    ensures r.Pass? && found && !z.hole.Leaf? ==> list.at != EMPTY
    ensures r.Pass? && !found ==> !op.PutOp? && Lookup(top, key) == None && !(key == [] && DeadHead(top))
  {
    hide DataNodeIo.Valid, Later, Partition, Focus, StackOk, Used, Repr, Sound, OldPaths, Intact;
    LaterInTurn(io.Base(), io.Base(), io.Base());
    found, list := true, z.hole;
    var depth := given.depth;
    w := given.(it := Item(NewRecord(key, depth), EMPTY, true, false), loaded := true);
    NotValue(io.mem, z.c, z.hole);
    PlugLookup(z.c, z.hole, key, depth);
    if given.link == EMPTY {
      if !op.PutOp? {
        if key == [] { EmptyKeyPath(z.c, z.hole); }
        return Pass, false, w, z.hole;
      }
      StepCreate(io.mem, given.stack, z.c, key, depth);
      list := NodeOf(z.hole, key, depth);
      PathsInTurn(top, Plug(z.c, z.hole), Plug(z.c, list), key);
    } else {
      StepRead(io.mem, z.hole) by { SoundShape(z.c, z.hole); }
      var it;
      it :- ReadNode(io, given.link);
      w := w.(it := it);
    }
    r := Pass;
  }

  datatype Action = Continue | AtKeyEnd | Absent

  /** The bytes up to which a put may write in order to split. */
  function SplitNeed(op: Operation, list: Tree, key: Bytes, depth: nat, end: nat): nat {
    if op.PutOp? && depth <= |key| && Splits(list, key[depth..]) then end + 64 else 0
  }

  /** One round has brought the walk, which had matched `given` bytes, from one place to another. */
  ghost predicate Advanced(op: Operation, key: Bytes, given: nat, from: Zipper, action: Action, w: Descent, to: Zipper,
                           split: bool)
  {
    && given <= w.depth <= |key|
    && 15 * Unplaced(to.c) + given <= 15 * Unplaced(from.c) + w.depth + (if given < w.depth == |key| then 14 else 0)
    && (if split then op.PutOp? && Splits(from.hole, key[given..]) && !Splits(to.hole, key[w.depth..])
        else action.Absent? || Splits(to.hole, key[w.depth..]) == Splits(from.hole, key[given..]))
    && (action.Continue? ==>
          Nearer(key, given, from.hole, w.depth, to.hole) && (w.loaded ==> to.hole.Node? && to.hole.at != EMPTY))
    && (action.AtKeyEnd? ==> w.loaded && to.hole.Node? && to.hole.chunk == [] && w.depth == |key|)
  }

  /** One round of the first loop of operate_trie_non_recursive, on a loaded node. */
  method MatchNode(io: DataNodeIo, op: Operation, key: Bytes, given: Descent, ghost top: Tree, ghost lost: set<int>,
                   ghost from: Zipper)
    returns (r: Outcome, action: Action, w: Descent, ghost to: Zipper, ghost split: bool)
    requires io.Valid() && Descending(io, op, key, top, lost, given, from) && given.loaded && given.depth <= |key|
    requires from.hole.Node? && from.hole.at == EMPTY ==> Matches(from.hole.chunk, key, given.depth)
    modifies io.Parts()
    ensures Fair(io.cache.store.crypto, r, old(io.cache.store.AllHeld()),
                 old(SplitNeed(op, from.hole, key, given.depth, io.end)))
    ensures !r.Thrown?
    ensures r.Pass? ==> io.Valid() && Later(old(io.Base()), io.Base())
    ensures r.Pass? ==> Walked(split, old(ExtentOf(io)), ExtentOf(io))
    ensures r.Pass? ==> Advanced(op, key, given.depth, from, action, w, to, split)
    ensures r.Pass? ==> Descending(io, op, key, top, lost, w, to)
    ensures r.Pass? && action.Absent? ==> !op.PutOp? && Lookup(top, key) == None && key != []
  {
    hide DataNodeIo.Valid, Later, Descending, SplitGrew, Intact, Advanced, Splits, Faithful, Follows, Lookup;
    LaterInTurn(io.Base(), io.Base(), io.Base());
    action, w, to, split := Continue, given, from, false;
    AtNode(io, op, key, top, lost, w, to);
    var rest := key[w.depth..];
    var n := SharedPrefixLength(w.it.rec.keyChunk[..w.it.rec.size], rest);
    PrefixDecides(to.hole.chunk, rest, n);
    if n == 0 {
      if w.depth < |key| || w.it.rec.size > 0 {
        GoNext(io, op, key, top, lost, w, to);
        AdvancedNext(op, key, w, to);
        w, to := ToNext(w), NextPlace(to);
      } else {
        action := AtKeyEnd;
        AdvancedEnd(op, key, w, to);
      }
    } else if n == w.it.rec.size {
      GoChild(io, op, key, top, lost, w, to);
      AdvancedChild(op, key, w, to);
      w, to := ToChild(w), ChildPlace(to);
    } else if op.PutOp? {
      SplitsHere(from.hole, n, rest);
      w, to :- SplitHere(io, w, n, key, top, lost, to);
      split := true;
      AdvancedSplit(op, key, w, from, n, to);
    } else {
      AbsentHere(op, key, w.depth, top, to.c, to.hole);
      action := Absent;
      AdvancedAbsent(op, key, w, to);
    }
    r := Pass;
  }

  /** What is known at a loaded node. */
  lemma AtNode(io: DataNodeIo, op: Operation, key: Bytes, top: Tree, lost: set<int>, w: Descent, z: Zipper)
    requires Descending(io, op, key, top, lost, w, z) && w.loaded
    ensures w.depth <= |key| && Follows(z.c, key, w.depth) && Faithful(op, key, top, z.c, z.hole)
    ensures z.hole.Node? && RecordOk(w.it.rec) && w.it.rec.size == |z.hole.chunk|
    ensures w.it.rec.keyChunk[..w.it.rec.size] == z.hole.chunk
  {
    hide Faithful, Follows, Repr, StackOk, Sound, Partition;
    FocusRecord(io.mem, w.it, z.hole);
  }

  lemma AbsentHere(op: Operation, key: Bytes, depth: nat, top: Tree, c: Ctx, hole: Tree)
    requires depth <= |key| && Follows(c, key, depth) && Faithful(op, key, top, c, hole)
    requires hole.Node? && Head(hole.chunk) == Head(key[depth..]) && !(hole.chunk <= key[depth..])
    ensures Lookup(top, key) == None && key != []
  {
    PlugLookup(c, hole, key, depth);
  }

  lemma AdvancedNext(op: Operation, key: Bytes, w: Descent, z: Zipper)
    requires w.depth <= |key| && z.hole.Node? && Head(z.hole.chunk) != Head(key[w.depth..])
    requires z.hole.at == EMPTY ==> Matches(z.hole.chunk, key, w.depth)
    ensures Advanced(op, key, w.depth, z, Continue, ToNext(w), NextPlace(z), false)
  {
  }

  lemma AdvancedEnd(op: Operation, key: Bytes, w: Descent, z: Zipper)
    requires w.depth == |key| && w.loaded && z.hole.Node? && z.hole.chunk == []
    ensures Advanced(op, key, w.depth, z, AtKeyEnd, w, z, false)
  {
  }

  lemma AdvancedAbsent(op: Operation, key: Bytes, w: Descent, z: Zipper)
    requires w.depth <= |key|
    ensures Advanced(op, key, w.depth, z, Absent, w, z, false)
  {
  }

  lemma AdvancedChild(op: Operation, key: Bytes, w: Descent, z: Zipper)
    requires w.depth <= |key| && z.hole.Node? && z.hole.chunk != [] && z.hole.chunk <= key[w.depth..]
    requires w.it.rec.size == |z.hole.chunk| && (z.hole.at == EMPTY ==> Matches(z.hole.chunk, key, w.depth))
    ensures Advanced(op, key, w.depth, z, Continue, ToChild(w), ChildPlace(z), false)
  {
    assert key[w.depth..][|z.hole.chunk|..] == key[w.depth + |z.hole.chunk|..];
  }

  lemma AdvancedSplit(op: Operation, key: Bytes, w: Descent, from: Zipper, n: nat, to: Zipper)
    requires op.PutOp? && w.depth <= |key| && w.loaded && from.hole.Node? && 0 < n < |from.hole.chunk|
    requires SplitOff(from, n, to) && from.hole.at != EMPTY && !(from.hole.chunk <= key[w.depth..])
    requires Splits(from.hole, key[w.depth..]) && !Splits(to.hole, key[w.depth..])
    ensures Advanced(op, key, w.depth, from, Continue, w, to, true)
  {
  }

  /** The first node of the list now carries only the first `n` bytes of its chunk. */
  predicate SplitOff(from: Zipper, n: nat, to: Zipper)
    requires from.hole.Node? && n <= |from.hole.chunk|
  {
    && to.c == from.c && to.hole.Node? && to.hole.at == from.hole.at && to.hole.chunk == from.hole.chunk[..n]
    && to.hole.next == from.hole.next
  }

  lemma SplitsHere(list: Tree, n: nat, rest: Bytes)
    requires list.Node? && 0 < n < |list.chunk| && n <= |rest| && list.chunk[..n] == rest[..n]
    requires (n < |rest| ==> list.chunk[n] != rest[n])
    ensures Splits(list, rest)
  {
    SplitOnce(list, n, EMPTY, rest);
  }

  /** The chunk of a node that was created for the key at this depth. */
  predicate Matches(chunk: Bytes, key: Bytes, depth: nat)
    requires depth <= |key|
  {
    chunk <= key[depth..] && (|chunk| == MAX_CHUNK || depth + |chunk| == |key|)
  }

  lemma GoNext(io: DataNodeIo, op: Operation, key: Bytes, top: Tree, lost: set<int>, w: Descent, z: Zipper)
    requires Descending(io, op, key, top, lost, w, z) && w.loaded
    requires z.hole.Node? && z.hole.at != EMPTY && Head(z.hole.chunk) != Head(key[w.depth..])
    ensures Descending(io, op, key, top, lost, ToNext(w), NextPlace(z))
  {
    hide Partition, Focus, StackOk, Used, Repr, Sound;
    FocusRecord(io.mem, w.it, z.hole);
    StepNext(io.mem, w.stack, z.c, z.hole, w.it);
  }

  lemma GoChild(io: DataNodeIo, op: Operation, key: Bytes, top: Tree, lost: set<int>, w: Descent, z: Zipper)
    requires Descending(io, op, key, top, lost, w, z) && w.loaded
    requires z.hole.Node? && z.hole.chunk != [] && z.hole.chunk <= key[w.depth..]
    ensures Descending(io, op, key, top, lost, ToChild(w), ChildPlace(z))
  {
    hide Partition, Focus, StackOk, Used, Repr, Sound;
    FocusRecord(io.mem, w.it, z.hole);
    StepChild(io.mem, w.stack, z.c, z.hole, w.it);
  }

  /** The put splits the node whose chunk matches in part, and stays at it. */
  method SplitHere(io: DataNodeIo, given: Descent, n: nat, key: Bytes, ghost top: Tree, ghost lost: set<int>,
                   ghost from: Zipper)
    returns (r: Outcome, w: Descent, ghost to: Zipper)
    requires io.Valid() && Descending(io, PutOp, key, top, lost, given, from) && given.loaded
    requires 0 < n < |from.hole.chunk| && n <= |key| - given.depth && from.hole.at != EMPTY
    requires from.hole.chunk[..n] == key[given.depth..][..n]
    requires n < |key| - given.depth ==> from.hole.chunk[n] != key[given.depth..][n]
    modifies io.Parts()
    ensures Fair(io.cache.store.crypto, r, old(io.cache.store.AllHeld()), old(io.end) + 64) && !r.Thrown?
    ensures r.Pass? ==> SplitGrew(old(io.Room()), io.Room()) && Splits(from.hole, key[given.depth..])
    ensures r.Pass? ==> !Splits(to.hole, key[given.depth..]) && w == given.(it := w.it) && SplitOff(from, n, to)
    ensures r.Pass? ==> io.Valid() && Later(old(io.Base()), io.Base())
    ensures r.Pass? ==> Descending(io, PutOp, key, top, lost, w, to)
  {
    hide DataNodeIo.Valid, Later, Partition, Focus, StackOk, Used, Repr, Sound, SplitGrew, OldPaths, NoNewPaths, Splits,
      Intact;
    w, to := given, from;
    ghost var c, list, depth := from.c, from.hole, given.depth;
    FocusRecord(io.mem, w.it, list);
    PrefixDecides(list.chunk, key[depth..], n);
    AbsentHere(PutOp, key, depth, top, c, list);
    var it;
    ghost var second;
    it, second :- SplitNode(io, w.it, n, c, list, lost);
    SplitSound(old(io.mem), io.mem, w.stack, c, list, it.at, n, second);
    SplitSame(c, list, n, second, key, depth);
    PathsInTurn(top, Plug(c, list), Plug(c, SplitAt(list, n, second)), key);
    SplitOnce(list, n, second, key[depth..]);
    w, to := w.(it := it), Zipper(c, SplitAt(list, n, second));
    r := Pass;
  }

  /** The measure of the walk down: the unmatched bytes, then the siblings left, then the chunk. */
  ghost predicate Nearer(key: Bytes, depth: nat, list: Tree, depth': nat, list': Tree) {
    && depth <= depth' <= |key| && list.Node?
    && (list.chunk <= key[depth..] && (list.chunk == [] ==> depth == |key|) ==> depth < depth')
    && (depth == depth' ==>
          || Siblings(list') < Siblings(list)
          || (Siblings(list') == Siblings(list) && list'.Node? && |list'.chunk| < |list.chunk|))
  }

  lemma SplitSound(mem: Bytes, mem': Bytes, s: Stack, c: Ctx, hole: Tree, link: BlockOffset, n: nat,
                   second: BlockOffset)
    requires Sound(c, hole) && StackOk(mem, s, c, link) && Agree(mem, mem', Used(c, hole))
    requires hole.Node? && 0 < n < |hole.chunk| && Own(second) !! Used(c, hole) && EndOk(c, hole)
    ensures Sound(c, SplitAt(hole, n, second)) && StackOk(mem', s, c, link)
    ensures Used(c, SplitAt(hole, n, second)) == Used(c, hole) + Own(second)
  {
    hide Apart, Shaped, StackOk;
    AgreeSub(mem, mem', Used(c, hole), Around(c));
    StackFrame(mem, mem', s, c, link);
    SplitShaped(c, hole, n, second);
    SplitApart(c, hole, n, second);
  }

  lemma SplitShaped(c: Ctx, hole: Tree, n: nat, second: BlockOffset)
    requires Shaped(c, hole) && hole.Node? && 0 < n < |hole.chunk| && EndOk(c, hole)
    ensures Shaped(c, SplitAt(hole, n, second))
  {
    hide Pairs, Lookup;
    SplitKeepsPairs(hole, n, second);
    var lower := Node(second, hole.chunk[n..], hole.child, Leaf);
    assert |lower.chunk| == |hole.chunk| - n && lower.chunk != [];
    if OnSpine(c) { assert Spine(lower); } else { assert Full(lower); }
  }

  lemma SplitApart(c: Ctx, hole: Tree, n: nat, second: BlockOffset)
    requires Apart(c, hole) && hole.Node? && n <= |hole.chunk| && Own(second) !! Used(c, hole)
    ensures Apart(c, SplitAt(hole, n, second))
    ensures Used(c, SplitAt(hole, n, second)) == Used(c, hole) + Own(second)
  {
    hide Own;
    var lower := Node(second, hole.chunk[n..], hole.child, Leaf);
    assert Footprint(lower) == Own(second) + Footprint(hole.child) && Separate(lower);
    assert Footprint(SplitAt(hole, n, second)) == Own(hole.at) + Footprint(lower) + Footprint(hole.next);
  }

  lemma SplitSame(c: Ctx, hole: Tree, n: nat, second: BlockOffset, key: Bytes, depth: nat)
    requires hole.Node? && 0 < n < |hole.chunk|
    requires depth <= |key| && Follows(c, key, depth)
    ensures SameMap(Plug(c, hole), Plug(c, SplitAt(hole, n, second)))
  {
    forall k ensures Lookup(SplitAt(hole, n, second), k) == Lookup(hole, k) { SplitKeepsLookup(hole, n, second, k); }
    PlugHead(c, hole, SplitAt(hole, n, second));
    SplitNoNewPaths(hole, n, second);
    PlugNoNewPaths(c, hole, SplitAt(hole, n, second));
    PlugUpdates(c, hole, SplitAt(hole, n, second), key, depth, Lookup(hole, key[depth..]));
    PlugLookup(c, hole, key, depth);
  }

  lemma RootInside(io: DataNodeIo, top: Tree, lost: set<int>)
    requires HoldsTrie(io, top, lost)
    ensures Inside(io.mem, ROOT, NODE_SIZE)
  {
  }

  lemma StartWalk(io: DataNodeIo, op: Operation, key: Bytes, it: Item, top: Tree, lost: set<int>)
    requires HoldsTrie(io, top, lost) && it == Item(Stored(io.mem, ROOT), ROOT, false, false)
    ensures Descending(io, op, key, top, lost, FromRoot(it), Zipper(Top, top))
  {
    hide Partition, Repr, Sound, DecodeNode;
    assert CleanStack(Bottom);
  }

  /** The walk starts behind the root node. */
  function FromRoot(root: Item): Descent {
    Descent(0, root, Push(Bottom, root.(goNext := true)), root.rec.next, false)
  }

  /** One round of the first loop of operate_trie_non_recursive: the node is read or created if it
      is not loaded, and matched with the key. */
  method Round(io: DataNodeIo, op: Operation, key: Bytes, given: Descent, ghost top: Tree, ghost lost: set<int>,
               ghost from: Zipper)
    returns (r: Outcome, action: Action, w: Descent, ghost to: Zipper, ghost split: bool)
    requires io.Valid() && given.depth <= |key| && Descending(io, op, key, top, lost, given, from)
    requires given.loaded ==> from.hole.Node? && from.hole.at != EMPTY
    modifies io.Parts()
    ensures Fair(io.cache.store.crypto, r, old(io.cache.store.AllHeld()),
                 old(SplitNeed(op, from.hole, key, given.depth, io.end)))
    ensures !r.Thrown?
    ensures r.Pass? ==> io.Valid() && Later(old(io.Base()), io.Base())
    ensures r.Pass? ==> Walked(split, old(ExtentOf(io)), ExtentOf(io))
    ensures r.Pass? && !action.Absent? ==> Descending(io, op, key, top, lost, w, to)
    ensures r.Pass? && !action.Absent? ==> Rounded(op, key, given.depth, from, action, w, to, split)
    ensures r.Pass? && action.Absent? ==> !split && !op.PutOp? && Lookup(top, key) == None
    ensures r.Pass? && action.Absent? ==> !(key == [] && DeadHead(top))
  {
    hide DataNodeIo.Valid, Later, Descending, Walked, Splits, Intact, Advanced;
    action, w, to, split := Absent, given, from, false;
    LaterInTurn(io.Base(), io.Base(), io.Base());
    NotWalked(ExtentOf(io));
    ghost var list := from.hole;
    if !w.loaded {
      var there;
      there, w, list :- LoadNode(io, op, key, w, top, lost, from);
      if !there {
        return Pass, Absent, w, to, split;
      }
    }
    SplitsLoaded(from.hole, key, given.depth);
    ghost var base := io.Base();
    LaterInTurn(old(io.Base()), base, base);
    action, w, to, split :- MatchNode(io, op, key, w, top, lost, Zipper(from.c, list));
    LaterInTurn(old(io.Base()), base, io.Base());
    if action.Absent? { AbsentUnsplit(op, key, given.depth, Zipper(from.c, list), w, to, split); }
    r := Pass;
  }

  /** One round, in which the node has been read or created first. */
  ghost predicate Rounded(op: Operation, key: Bytes, given: nat, from: Zipper, action: Action, w: Descent, to: Zipper,
                          split: bool)
  {
    given <= |key| &&
    Advanced(op, key, given, Zipper(from.c, NodeOf(from.hole, key, given)), action, w, to, split)
  }

  lemma SplitsLoaded(list: Tree, key: Bytes, depth: nat)
    requires depth <= |key|
    ensures Matches(NewChunk(key, depth), key, depth)
    ensures Splits(NodeOf(list, key, depth), key[depth..]) == Splits(list, key[depth..])
  {
  }

  lemma AbsentUnsplit(op: Operation, key: Bytes, given: nat, from: Zipper, w: Descent, to: Zipper, split: bool)
    requires Advanced(op, key, given, from, Absent, w, to, split)
    ensures split ==> op.PutOp?
  {
  }

  /** The first loop of operate_trie_non_recursive. It ends at the node that ends the key; a put
      always gets there, the others may find that there is none. */
  method Descend(io: DataNodeIo, op: Operation, key: Bytes, ghost top: Tree, ghost lost: set<int>)
    returns (r: Outcome, found: bool, w: Descent, ghost z: Zipper)
    requires io.Valid() && HoldsTrie(io, top, lost)
    modifies io.Parts()
    ensures Fair(io.cache.store.crypto, r, old(io.cache.store.AllHeld()), old(SplitNeed(op, top, key, 0, io.end)))
    ensures !r.Thrown?
    ensures r.Pass? ==> io.Valid() && Later(old(io.Base()), io.Base())
    ensures r.Pass? ==> Walked(op.PutOp? && Splits(top, key), old(ExtentOf(io)), ExtentOf(io))
    ensures r.Pass? && found ==> Descending(io, op, key, top, lost, w, z) && w.loaded && w.depth == |key|
    ensures r.Pass? && found ==> z.hole.Node? && z.hole.chunk == [] && 15 * Unplaced(z.c) <= |key| + 14
    ensures r.Pass? && !found ==> !op.PutOp? && Lookup(top, key) == None && !(key == [] && DeadHead(top))
  {
    hide DataNodeIo.Valid, Later, Descending, HoldsTrie, Walked, Splits, Intact, Rounded, Progress;
    found, z := false, Zipper(Top, top);
    w := FromRoot(Item(NewRecord([], 0), EMPTY, true, false));
    RootInside(io, top, lost);
    var root;
    root :- ReadNode(io, ROOT);
    LaterInTurn(old(io.Base()), io.Base(), io.Base());
    StartWalk(io, op, key, root, top, lost);
    NotWalked(ExtentOf(io));
    w := FromRoot(root);
    var action;
    ghost var split := false;
    ProgressStart(op, key, top, w);
    while true
      invariant io.Valid() && Later(old(io.Base()), io.Base()) && !found && w.depth <= |key|
      invariant Walked(split, old(ExtentOf(io)), ExtentOf(io)) && Progress(op, key, top, w, z, split)
      invariant Descending(io, op, key, top, lost, w, z)
      decreases |key| - w.depth, Siblings(z.hole), if z.hole.Node? then |z.hole.chunk| else 0
    {
      ghost var base, extent := io.Base(), ExtentOf(io);
      ghost var more, given, from := false, w, z;
      LaterInTurn(old(io.Base()), base, base);
      BeforeRound(op, key, top, w, z, split, old(ExtentOf(io)), extent);
      action, w, z, more :- Round(io, op, key, w, top, lost, z);
      LaterInTurn(old(io.Base()), base, io.Base());
      if action.Absent? {
        WalkedInTurn(split, more, old(ExtentOf(io)), extent, ExtentOf(io));
        AbsentProgress(op, key, top, given, from, split);
        break;
      }
      AfterRound(op, key, top, given, from, split, action, w, z, more);
      WalkedInTurn(split, more, old(ExtentOf(io)), extent, ExtentOf(io));
      split := split || more;
      if action.AtKeyEnd? {
        found := true;
        break;
      }
    }
    r := Pass;
  }

  /** What the walk has done so far: one new node for each 15 bytes of the key, at most one split. */
  ghost predicate Progress(op: Operation, key: Bytes, top: Tree, w: Descent, z: Zipper, split: bool) {
    && w.depth <= |key| && 15 * Unplaced(z.c) <= w.depth + (if w.depth == |key| then 14 else 0)
    && (w.loaded ==> z.hole.Node? && z.hole.at != EMPTY)
    && if split then op.PutOp? && Splits(top, key) && !Splits(z.hole, key[w.depth..])
       else Splits(top, key) == Splits(z.hole, key[w.depth..])
  }

  lemma ProgressStart(op: Operation, key: Bytes, top: Tree, w: Descent)
    requires w.depth == 0 && !w.loaded
    ensures Progress(op, key, top, w, Zipper(Top, top), false)
  {
    assert key[0..] == key;
  }

  lemma BeforeRound(op: Operation, key: Bytes, top: Tree, w: Descent, z: Zipper, split: bool, before: Extent,
                    now: Extent)
    requires Progress(op, key, top, w, z, split) && Walked(split, before, now)
    ensures w.loaded ==> z.hole.Node? && z.hole.at != EMPTY
    ensures SplitNeed(op, z.hole, key, w.depth, now.room.end) <= SplitNeed(op, top, key, 0, before.room.end)
  {
    assert key[0..] == key;
  }

  lemma AbsentProgress(op: Operation, key: Bytes, top: Tree, w: Descent, z: Zipper, split: bool)
    requires Progress(op, key, top, w, z, split) && !op.PutOp?
    ensures !split
  {
  }

  /** The walk comes nearer to the end of the key. */
  ghost predicate Closer(given: Descent, from: Zipper, w: Descent, to: Zipper) {
    given.depth <= w.depth && (given.depth == w.depth ==>
      || Siblings(to.hole) < Siblings(from.hole)
      || (Siblings(to.hole) == Siblings(from.hole) && from.hole.Node? && to.hole.Node?
           && |to.hole.chunk| < |from.hole.chunk|))
  }

  lemma AfterRound(op: Operation, key: Bytes, top: Tree, given: Descent, from: Zipper, split: bool, action: Action,
                   w: Descent, to: Zipper, more: bool)
    requires Progress(op, key, top, given, from, split) && !action.Absent?
    requires Rounded(op, key, given.depth, from, action, w, to, more)
    ensures !(split && more) && w.depth <= |key|
    ensures action.Continue? ==> Progress(op, key, top, w, to, split || more) && Closer(given, from, w, to)
    ensures action.AtKeyEnd? ==> w.loaded && to.hole.Node? && to.hole.chunk == [] && w.depth == |key|
    ensures action.AtKeyEnd? ==> 15 * Unplaced(to.c) <= |key| + 14 && (split || more <==> op.PutOp? && Splits(top, key))
  {
    hide Nearer, Splits, Siblings, NewChunk, Matches, Closer;
    SplitsLoaded(from.hole, key, given.depth);
    if action.Continue? { RoundNearer(op, key, given, from, w, to, more); }
    if action.AtKeyEnd? {
      assert key[w.depth..] == [];
      NoSplitAtEnd(to.hole);
    }
  }

  lemma RoundNearer(op: Operation, key: Bytes, given: Descent, from: Zipper, w: Descent, to: Zipper, more: bool)
    requires Rounded(op, key, given.depth, from, Continue, w, to, more)
    ensures Closer(given, from, w, to)
  {
    hide Splits, Unplaced, Siblings, NewChunk, Matches;
    SplitsLoaded(from.hole, key, given.depth);
  }

  lemma NotWalked(a: Extent)
    ensures Walked(false, a, a)
  {
  }

  lemma WalkedInTurn(first: bool, second: bool, a: Extent, b: Extent, c: Extent)
    requires Walked(first, a, b) && Walked(second, b, c) && !(first && second)
    ensures Walked(first || second, a, c)
  {
  }

  lemma {:induction false} NoSplitAtEnd(t: Tree)
    ensures !Splits(t, [])
  {
    if t.Node? { NoSplitAtEnd(t.next); }
  }
}
