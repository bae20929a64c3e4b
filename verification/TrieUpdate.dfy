/** The operation at the end of a walk, and the walk back up. */
module TrieUpdate {
  import opened ByteCodec
  import opened Addressing
  import opened DataNodes
  import opened SecureBlockIo
  import opened DataNodeIo
  import opened Tries
  import opened TrieHeap
  import opened TrieStack
  import opened TrieMark
  import opened TrieWalk
  import opened TrieOps
  import opened TrieMap

  /** The node at the end of the key with another value, or with none. */
  function WithChild(hole: Tree, child: Tree): Tree
    requires hole.Node?
  {
    hole.(child := child)
  }

  /** Everything in use except the old value survives; the new value lies outside it. */
  lemma ChildParts(c: Ctx, hole: Tree, child: Tree)
    requires Apart(c, hole) && hole.Node? && Separate(child)
    requires Footprint(child) !! (Used(c, hole) - Footprint(hole.child))
    ensures Apart(c, WithChild(hole, child))
    ensures Used(c, WithChild(hole, child)) == Used(c, hole) - Footprint(hole.child) + Footprint(child)
    ensures Around(c) <= Used(c, hole) - Footprint(hole.child)
    ensures Own(hole.at) <= Used(c, hole) - Footprint(hole.child)
    ensures Footprint(hole.next) <= Used(c, hole) - Footprint(hole.child)
  {
    hide Own;
  }

  lemma ChildShape(c: Ctx, hole: Tree, child: Tree)
    requires Shaped(c, hole) && hole.Node? && hole.chunk == [] && (child.Leaf? || child.Value?)
    ensures Shaped(c, WithChild(hole, child))
  {
  }

  /** The key now has the value of the new child, and no other key changes. */
  lemma ChildMeaning(c: Ctx, hole: Tree, child: Tree, key: Bytes)
    requires hole.Node? && hole.chunk == [] && Follows(c, key, |key|) && (child.Leaf? || child.Value?)
    ensures Updates(Plug(c, hole), Plug(c, WithChild(hole, child)), key,
                    if child.Value? then Some(child.value) else None)
    ensures HeadOf(Plug(c, WithChild(hole, child))) == HeadOf(Plug(c, hole)) != NoKey
    ensures NoNewPaths(Plug(c, hole), Plug(c, WithChild(hole, child)))
  {
    var v := if child.Value? then Some(child.value) else None;
    assert key[|key|..] == [];
    assert Lookup(child, []) == v;
    PlugUpdates(c, hole, WithChild(hole, child), key, |key|, v);
    PlugHead(c, hole, WithChild(hole, child));
    PlugNoNewPaths(c, hole, WithChild(hole, child));
  }

  /** The item holds the first node of the list, whatever its child is on disk. */
  ghost predicate Bare(mem: Bytes, it: Item, hole: Tree) {
    && hole.Node? && Loaded(mem, it, hole.at, hole.chunk, Pointer(hole.child), Pointer(hole.next))
    && Repr(mem, hole.next)
  }

  /** Replacing or deleting the value at the node hits no node of another key. */
  predicate SafeHere(c: Ctx, hole: Tree)
    requires hole.Node?
  {
    Marks(hole.child) ==> !ChunkIn(Plug(c, hole), Linear(hole.child.at) + 9)
  }

  /** The mark spares everything around the value: it falls into the value, or behind an empty one on
      a byte whose change nobody notices. */
  lemma AfterMark(mem: Bytes, mid: Bytes, s: Stack, c: Ctx, hole: Tree, it: Item)
    requires Apart(c, hole) && StackOk(mem, s, c, it.at) && Focus(mem, it, hole)
    requires Marked(mem, mid, hole.child) && SafeHere(c, hole) && (hole.child.Leaf? || hole.child.Value?)
    ensures StackOk(mid, s, c, it.at) && Bare(mid, it, hole)
  {
    hide Apart, StackOk, Repr, Loaded, Written, Agree, Used, Own, Plug;
    if hole.child.Value? {
      if hole.child.value == [] {
        MarkBehind(mem, mid, s, c, hole, it);
      } else {
        MarkInside(mem, mid, s, c, hole, it);
      }
    }
  }

  lemma MarkBehind(mem: Bytes, mid: Bytes, s: Stack, c: Ctx, hole: Tree, it: Item)
    requires Apart(c, hole) && StackOk(mem, s, c, it.at) && Focus(mem, it, hole)
    requires Marked(mem, mid, hole.child) && SafeHere(c, hole) && Marks(hole.child)
    ensures StackOk(mid, s, c, it.at) && Bare(mid, it, hole)
  {
    hide StackOk, Repr, Loaded, Written, Own, Around, Plug;
    var a := Linear(hole.child.at) + 9;
    ChildParts(c, hole, Leaf);
    PlugChunk(c, hole, a);
    assert a - 1 in Footprint(hole.child);
    StackMarked(mem, mid, a, s, c, it.at);
    LoadedMarked(mem, mid, a, it, hole.at, hole.chunk, Pointer(hole.child), Pointer(hole.next));
    ReprMarked(mem, mid, a, hole.next);
  }

  lemma MarkInside(mem: Bytes, mid: Bytes, s: Stack, c: Ctx, hole: Tree, it: Item)
    requires Apart(c, hole) && StackOk(mem, s, c, it.at) && Focus(mem, it, hole)
    requires Marked(mem, mid, hole.child) && hole.child.Value? && hole.child.value != []
    ensures StackOk(mid, s, c, it.at) && Bare(mid, it, hole)
  {
    hide Apart, StackOk, Repr, Loaded, Written, Agree, Own, Around;
    var a, rest := Linear(hole.child.at) + 9, Used(c, hole) - Footprint(hole.child);
    ChildParts(c, hole, Leaf);
    assert Interval(a, 1) <= Footprint(hole.child);
    WrittenAgrees(mem, mid, a, [MARK], rest);
    BareFrame(mem, mid, s, c, hole, it);
  }

  lemma BareFrame(mem: Bytes, mem': Bytes, s: Stack, c: Ctx, hole: Tree, it: Item)
    requires Apart(c, hole) && StackOk(mem, s, c, it.at) && Bare(mem, it, hole)
    requires Agree(mem, mem', Used(c, hole) - Footprint(hole.child))
    ensures StackOk(mem', s, c, it.at) && Bare(mem', it, hole)
  {
    hide Agree, Apart, Used, Own, Footprint, Around, StackOk, Repr, Loaded;
    var rest := Used(c, hole) - Footprint(hole.child);
    LeafTree(mem);
    ChildParts(c, hole, Leaf);
    AgreeSub(mem, mem', rest, Around(c));
    AgreeSub(mem, mem', rest, Own(hole.at));
    AgreeSub(mem, mem', rest, Footprint(hole.next));
    StackFrame(mem, mem', s, c, it.at);
    LoadedFrame(mem, mem', it, hole.at, hole.chunk, Pointer(hole.child), Pointer(hole.next));
    ReprFrame(mem, mem', hole.next);
  }

  /** After the value has changed on disk the walk is where it was, with the node to be rewritten. */
  lemma AfterValue(mem: Bytes, mem': Bytes, s: Stack, c: Ctx, hole: Tree, child: Tree, it: Item, it': Item)
    requires Apart(c, hole) && StackOk(mem, s, c, it.at) && Bare(mem, it, hole)
    requires Agree(mem, mem', Used(c, hole) - Footprint(hole.child)) && Repr(mem', child)
    requires Fits32(Pointer(child)) && it' == it.(rec := it.rec.(child := Pointer(child)), modified := true)
    ensures StackOk(mem', s, c, it'.at) && Focus(mem', it', WithChild(hole, child))
  {
    hide Agree, Apart, Used, Own, Footprint, Around, StackOk, Repr, Stored;
    BareFrame(mem, mem', s, c, hole, it);
  }

  /** A value is to be replaced by one of the same length, which is not zero. */
  predicate SameSize(child: Tree, value: Bytes) {
    child.Value? && |child.value| == |value| > 0
  }

  /** The put at the node that ends the key. */
  method PutHere(io: DataNodeIo, given: Item, value: Bytes, key: Bytes, ghost s: Stack, ghost c: Ctx, ghost hole: Tree,
                 ghost lost: set<int>)
    returns (r: Outcome, it: Item, ghost list: Tree, ghost lost': set<int>)
    requires io.Valid() && Walking(io, s, c, hole, given.at, lost) && Focus(io.mem, given, hole)
    requires hole.chunk == [] && Follows(c, key, |key|) && SafeHere(c, hole)
    modifies io.Parts()
    ensures Fair(io.cache.store.crypto, r, old(io.cache.store.AllHeld()),
                 old(io.end) + 9 + |value| + if Marks(hole.child) then 1 else 0) && !r.Thrown?
    ensures r.Pass? ==> io.Valid() && Later(old(io.Base()), io.Base())
    ensures r.Pass? ==> Walking(io, s, c, list, it.at, lost') && Focus(io.mem, it, list) && EndOk(c, list)
    ensures r.Pass? ==> Updates(Plug(c, hole), Plug(c, list), key, Some(value))
    ensures r.Pass? ==> HeadOf(Plug(c, list)) == HeadOf(Plug(c, hole)) != NoKey
    ensures r.Pass? ==> NoNewPaths(Plug(c, hole), Plug(c, list))
    ensures r.Pass? ==> Spent(old(io.Room()), io.Room(), 9 + |value|, Marks(hole.child)) && it.at == given.at
    ensures r.Pass? ==> Leaks(lost, lost', old(io.end), Marks(hole.child))
    ensures r.Pass? && SameSize(hole.child, value) ==> io.end == old(io.end)
  {
    hide DataNodeIo.Valid, Later, Partition, StackOk, Used, Repr, Agree, ValueAt, Footprint, Apart, Shaped, Plug,
      Updates, NoNewPaths, Grew, Spent, Intact, Bare, SafeHere, Marked, Leaks, Follows, Interval;
    it, list, lost' := given, hole, lost;
    EosChild(c, hole);
    ChildInUse(c, hole);
    ghost var mid;
    it, mid, lost' :- WriteValue(io, given, value, hole.child, Used(c, hole), lost);
    ghost var child := Value(it.rec.child, value);
    ValueTree(io.mem, child);
    ChildParts(c, hole, child);
    ChildShape(c, hole, child);
    ChildMeaning(c, hole, child, key);
    AfterMark(old(io.mem), mid, s, c, hole, given);
    AfterValue(mid, io.mem, s, c, hole, child, given, it);
    list := WithChild(hole, child);
    r := Pass;
  }

  lemma EosChild(c: Ctx, hole: Tree)
    requires Shaped(c, hole) && hole.Node? && hole.chunk == []
    ensures hole.child.Leaf? || hole.child.Value?
  {
  }

  lemma ChildInUse(c: Ctx, hole: Tree)
    requires hole.Node?
    ensures Footprint(hole.child) <= Used(c, hole)
  {
  }

  lemma ValueTree(mem: Bytes, child: Tree)
    requires child.Value?
    ensures Separate(child) && Footprint(child) == Interval(Linear(child.at), 9 + |child.value|)
    ensures Repr(mem, child) <==> ValueAt(mem, child.at, child.value)
  {
  }

  /** The delete at the node that ends the key, when it has a value. */
  method DeleteHere(io: DataNodeIo, given: Item, key: Bytes, ghost s: Stack, ghost c: Ctx, ghost hole: Tree,
                    ghost lost: set<int>)
    returns (r: Outcome, it: Item, ghost list: Tree, ghost lost': set<int>)
    requires io.Valid() && Walking(io, s, c, hole, given.at, lost) && Focus(io.mem, given, hole)
    requires hole.chunk == [] && hole.child.Value? && Follows(c, key, |key|) && SafeHere(c, hole)
    modifies io.Parts()
    ensures Fair(io.cache.store.crypto, r, old(io.cache.store.AllHeld()), MarkNeed(hole.child.value, old(io.end)))
    ensures !r.Thrown?
    ensures r.Pass? ==> io.Valid() && Later(old(io.Base()), io.Base()) && it.at == given.at
    ensures r.Pass? ==> Walking(io, s, c, list, it.at, lost') && Focus(io.mem, it, list) && list.child.Leaf?
    ensures r.Pass? ==> Updates(Plug(c, hole), Plug(c, list), key, None)
    ensures r.Pass? ==> HeadOf(Plug(c, list)) == HeadOf(Plug(c, hole)) && NoNewPaths(Plug(c, hole), Plug(c, list))
    ensures r.Pass? ==> Spent(old(io.Room()), io.Room(), 0, Marks(hole.child))
    ensures r.Pass? ==> Leaks(lost, lost', old(io.end), Marks(hole.child))
  {
    hide DataNodeIo.Valid, Later, Partition, StackOk, Used, Repr, Agree, ValueAt, Footprint, Apart, Shaped, Plug,
      Updates, NoNewPaths, Grew, Spent, Intact, Bare, SafeHere, Written, Leaks, LostTo, Follows,
      Interval;
    it, list, lost' := given, hole, lost;
    EosChild(c, hole);
    ChildInUse(c, hole);
    ValueTree(io.mem, hole.child);
    io.Bounds();
    ValueParts(io.mem, hole.child.at, hole.child.value);
    it :- DeleteValue(io, given, hole.child.value, Used(c, hole), lost);
    lost' := LostTo(lost, old(io.end), io.end);
    LeaksMark(lost, old(io.Room()), io.Room(), Marks(hole.child));
    LeafTree(io.mem);
    ChildParts(c, hole, Leaf);
    ChildShape(c, hole, Leaf);
    ChildMeaning(c, hole, Leaf, key);
    AfterMark(old(io.mem), io.mem, s, c, hole, given);
    AgreeWithMore(io.mem, [], Used(c, hole) - Footprint(hole.child));
    AfterValue(io.mem, io.mem, s, c, hole, Leaf, given, it);
    assert Used(c, WithChild(hole, Leaf)) == Used(c, hole) - Footprint(hole.child);
    list := WithChild(hole, Leaf);
    r := Pass;
  }

  lemma LeafTree(mem: Bytes)
    ensures Separate(Leaf) && Footprint(Leaf) == {} && Repr(mem, Leaf) && Pointer(Leaf) == EMPTY && Fits32(EMPTY)
  {
  }

  /** delete_trie_node_childless on a node that leads nowhere: its space is free, the deleted
      record is still written there, and the list goes on with the next sibling. */
  method Reclaim(io: DataNodeIo, it: Item, key: Bytes, ghost depth: nat, ghost s: Stack, ghost c: Ctx, ghost hole: Tree,
                 ghost lost: set<int>)
    returns (r: Outcome, link: BlockOffset)
    requires io.Valid() && Walking(io, s, c, hole, it.at, lost) && Focus(io.mem, it, hole)
    requires hole.child.Leaf? && it.at != EMPTY && depth <= |key| && Follows(c, key, depth) && !c.Top?
    modifies io.Parts()
    ensures Fair(io.cache.store.crypto, r, old(io.cache.store.AllHeld()), 0) && !r.Thrown?
    ensures r.Pass? ==> io.Valid() && Later(old(io.Base()), io.Base()) && Grew(old(io.Room()), io.Room(), 0)
    ensures r.Pass? ==> Walking(io, s, c, hole.next, it.at, lost) && Repr(io.mem, hole.next) && Full(hole.next)
    ensures r.Pass? ==> link == Pointer(hole.next) && Fits32(link) && SameMap(Plug(c, hole), Plug(c, hole.next))
    ensures RecordOk(it.rec) && (r.Pass? ==> Inside(io.mem, it.at, 32))
    ensures r.Pass? ==> io.mem[Linear(it.at)..Linear(it.at) + 32] == EncodeNode(it.rec.(deleted := true))
  {
    hide DataNodeIo.Valid, Later, Partition, StackOk, Used, Repr, Agree, Footprint, Apart, Shaped, Plug, Own,
      EncodeNode, NoNewPaths, Grew, Intact, Interval, Follows;
    link := EMPTY;
    FocusRecord(io.mem, it, hole);
    ghost var used, mem := Used(c, hole), io.mem;
    DropParts(c, hole);
    OwnBelow(io.end, used, io.collector.free, lost, it.at);
    FreeParts(io.end, used, io.collector.free, lost, Own(it.at));
    io.Release(it.at, 32);
    ghost var room, base := io.Room(), io.Base();
    LaterInTurn(old(io.Base()), base, base);
    var dead;
    dead :- WriteNode(io, it.(rec := it.rec.(deleted := true), modified := true), Used(c, hole.next), lost);
    GrewInTurn(old(io.Room()), room, io.Room(), 0, 0);
    AfterDrop(mem, io.mem, s, c, hole, it);
    DropShaped(c, hole);
    DropMeaning(c, hole, key, depth);
    link := it.rec.next;
    r := Pass;
  }

  lemma OwnBelow(end: nat, used: set<int>, free: set<int>, lost: set<int>, at: BlockOffset)
    requires Partition(end, used, free, lost) && Own(at) <= used && at != EMPTY
    ensures Own(at) == Interval(Linear(at), 32) && Linear(at) + 32 <= end
  {
    assert Linear(at) + 31 in Own(at);
  }

  lemma DropParts(c: Ctx, hole: Tree)
    requires Apart(c, hole) && hole.Node? && hole.child.Leaf?
    ensures Apart(c, hole.next) && Own(hole.at) <= Used(c, hole) && Own(hole.at) !! Used(c, hole.next)
    ensures Used(c, hole.next) == Used(c, hole) - Own(hole.at)
  {
    hide Own;
  }

  lemma AfterDrop(mem: Bytes, mem': Bytes, s: Stack, c: Ctx, hole: Tree, it: Item)
    requires StackOk(mem, s, c, it.at) && Focus(mem, it, hole) && Apart(c, hole) && hole.child.Leaf?
    requires Agree(mem, mem', Used(c, hole.next) - Own(hole.at))
    ensures StackOk(mem', s, c, it.at) && Repr(mem', hole.next) && Fits32(it.rec.next)
  {
    hide Agree, Apart, Own, Footprint, Around, StackOk, Repr;
    DropParts(c, hole);
    assert Used(c, hole.next) - Own(hole.at) == Used(c, hole.next);
    AgreeSub(mem, mem', Used(c, hole.next), Around(c));
    AgreeSub(mem, mem', Used(c, hole.next), Footprint(hole.next));
    StackFrame(mem, mem', s, c, it.at);
    ReprFrame(mem, mem', hole.next);
  }

  lemma DropShaped(c: Ctx, hole: Tree)
    requires Shaped(c, hole) && hole.Node?
    ensures Shaped(c, hole.next) && Full(hole.next)
  {
    if hole.next.Node? { FullIsSpine(hole.next.child); }
  }

  lemma DropMeaning(c: Ctx, hole: Tree, key: Bytes, depth: nat)
    requires Shaped(c, hole) && hole.Node? && hole.child.Leaf? && depth <= |key| && Follows(c, key, depth) && !c.Top?
    ensures SameMap(Plug(c, hole), Plug(c, hole.next))
  {
    forall k ensures Lookup(hole.next, k) == Lookup(hole, k) { DropKeepsLookup(hole, k); }
    PlugHead(c, hole, hole.next);
    PlugNoNewPaths(c, hole, hole.next);
    PlugUpdates(c, hole, hole.next, key, depth, Lookup(hole, key[depth..]));
    PlugLookup(c, hole, key, depth);
  }

  /** Memory, append cursor and free space are as they were. */
  ghost predicate Same(mem: Bytes, mem': Bytes, end: nat, end': nat, free: set<int>, free': set<int>) {
    mem' == mem && end' == end && free' == free
  }

  /** The list with its first node stored elsewhere. */
  function MovedTo(hole: Tree, at: BlockOffset): Tree
    requires hole.Node?
  {
    Node(at, hole.chunk, hole.child, hole.next)
  }

  /** A node in memory is written if it has changed; it is then on disk with all it leads to. */
  method Save(io: DataNodeIo, it: Item, key: Bytes, ghost depth: nat, ghost s: Stack, ghost c: Ctx, ghost hole: Tree,
              ghost lost: set<int>)
    returns (r: Outcome, link: BlockOffset, ghost list: Tree)
    requires io.Valid() && Walking(io, s, c, hole, it.at, lost) && Focus(io.mem, it, hole)
    requires depth <= |key| && Follows(c, key, depth)
    modifies io.Parts()
    ensures Fair(io.cache.store.crypto, r, old(io.cache.store.AllHeld()),
                 if it.at == EMPTY then old(io.end) + 32 else 0) && !r.Thrown?
    ensures r.Pass? ==> io.Valid() && Later(old(io.Base()), io.Base())
    ensures r.Pass? ==> Grew(old(io.Room()), io.Room(), NodeNeed(it.at))
    ensures r.Pass? ==> Walking(io, s, c, list, it.at, lost) && Repr(io.mem, list)
    ensures r.Pass? ==> list == MovedTo(hole, Pointer(list))
    ensures r.Pass? ==> link == Pointer(list) && (link == it.at || Fits32(link))
    ensures r.Pass? ==> SameMap(Plug(c, hole), Plug(c, list))
    ensures r.Pass? && !it.modified ==> list == hole
    ensures r.Pass? && !it.modified ==>
              Same(old(io.mem), io.mem, old(io.end), io.end, old(io.collector.free), io.collector.free)
  {
    hide DataNodeIo.Valid, Later, Partition, StackOk, Used, Agree, Footprint, Apart, Shaped, Plug, Own, EncodeNode,
      NoNewPaths, Grew, Intact;
    LaterInTurn(io.Base(), io.Base(), io.Base());
    GrewNot(io.Room());
    NoChange(Plug(c, hole));
    GrewLess(io.Room(), io.Room(), 0, NodeNeed(it.at));
    link, list := it.at, hole;
    FocusRecord(io.mem, it, hole);
    if it.modified {
      ghost var used := Used(c, hole);
      OwnInUse(c, hole);
      if it.at != EMPTY { OwnBelow(io.end, used, io.collector.free, lost, it.at); }
      var written;
      written :- WriteNode(io, it, used, lost);
      link := written.at;
      list := MovedTo(hole, written.at);
      SavedParts(c, hole, written.at);
      SavedShaped(c, hole, written.at);
      SavedRepr(old(io.mem), io.mem, s, c, hole, it, written.at);
      SavedMeaning(c, hole, written.at, key, depth);
    }
    r := Pass;
  }

  lemma OwnInUse(c: Ctx, hole: Tree)
    requires hole.Node?
    ensures Own(hole.at) <= Used(c, hole)
  {
    hide Own;
  }

  lemma SavedParts(c: Ctx, hole: Tree, at: BlockOffset)
    requires Apart(c, hole) && hole.Node? && (if hole.at != EMPTY then at == hole.at else Own(at) !! Used(c, hole))
    ensures Apart(c, MovedTo(hole, at))
    ensures Used(c, MovedTo(hole, at)) == if hole.at == EMPTY then Used(c, hole) + Own(at) else Used(c, hole)
    ensures Around(c) <= Used(c, hole) - Own(at) && Footprint(hole.child) <= Used(c, hole) - Own(at)
    ensures Footprint(hole.next) <= Used(c, hole) - Own(at)
  {
    assert Own(EMPTY) == {};
    hide Own;
  }

  lemma SavedShaped(c: Ctx, hole: Tree, at: BlockOffset)
    requires Shaped(c, hole) && hole.Node?
    ensures Shaped(c, MovedTo(hole, at))
  {
  }

  lemma SavedRepr(mem: Bytes, mem': Bytes, s: Stack, c: Ctx, hole: Tree, it: Item, at: BlockOffset)
    requires StackOk(mem, s, c, it.at) && Focus(mem, it, hole) && Apart(c, hole)
    requires if hole.at != EMPTY then at == hole.at else Own(at) !! Used(c, hole)
    requires Agree(mem, mem', Used(c, hole) - Own(at))
    requires Inside(mem', at, 32) && mem'[Linear(at)..Linear(at) + 32] == EncodeNode(it.rec)
    ensures StackOk(mem', s, c, it.at) && Repr(mem', MovedTo(hole, at))
  {
    hide Agree, Apart, Own, Footprint, Around, StackOk, Repr, Used, EncodeNode;
    var rest := Used(c, hole) - Own(at);
    SavedParts(c, hole, at);
    AgreeSub(mem, mem', rest, Around(c));
    AgreeSub(mem, mem', rest, Footprint(hole.child));
    AgreeSub(mem, mem', rest, Footprint(hole.next));
    StackFrame(mem, mem', s, c, it.at);
    ReprFrame(mem, mem', hole.child);
    ReprFrame(mem, mem', hole.next);
    ReprWritten(mem', at, it.rec, hole.chunk, hole.child, hole.next);
  }

  lemma SavedMeaning(c: Ctx, hole: Tree, at: BlockOffset, key: Bytes, depth: nat)
    requires hole.Node? && depth <= |key| && Follows(c, key, depth)
    ensures SameMap(Plug(c, hole), Plug(c, MovedTo(hole, at)))
  {
    PlugHead(c, hole, MovedTo(hole, at));
    PlugNoNewPaths(c, hole, MovedTo(hole, at));
    PlugUpdates(c, hole, MovedTo(hole, at), key, depth, Lookup(hole, key[depth..]));
    PlugLookup(c, hole, key, depth);
  }

  /** The node above after its link has been compared with the new place of the list. */
  function Relinked(prev: Item, link: BlockOffset): Item {
    if prev.goNext then
      if prev.rec.next != link then prev.(rec := prev.rec.(next := link), modified := true) else prev
    else
      if prev.rec.child != link then prev.(rec := prev.rec.(child := link), modified := true) else prev
  }

  /** The list together with the node before or above it. */
  function OneUp(c: Ctx, list: Tree): Tree
    requires !c.Top?
  {
    if c.NextOf? then Node(c.at, c.chunk, c.child, list) else Node(c.at, c.chunk, list, c.next)
  }

  function DepthUp(c: Ctx, depth: int): int
    requires !c.Top?
  {
    if c.NextOf? then depth else depth - |c.chunk|
  }

  lemma UpShaped(c: Ctx, list: Tree)
    requires !c.Top? && Shaped(c, list) && Along(OnSpine(c), list)
    ensures Shaped(c.up, OneUp(c, list)) && ((list.Leaf? && c.ChildOf?) || EndOk(c.up, OneUp(c, list)))
  {
  }

  lemma UpApart(c: Ctx, list: Tree)
    requires !c.Top? && Apart(c, list)
    ensures Apart(c.up, OneUp(c, list)) && Used(c.up, OneUp(c, list)) == Used(c, list)
  {
    hide Apart;
    if c.NextOf? { NextApart(c.up, OneUp(c, list)); } else { ChildApart(c.up, OneUp(c, list)); }
  }

  /** One step of the walk up. */
  lemma UpStack(mem: Bytes, s: Stack, c: Ctx, list: Tree, link0: BlockOffset, link: BlockOffset, key: Bytes, depth: nat)
    requires !c.Top? && StackOk(mem, s, c, link0) && Repr(mem, list) && link == Pointer(list)
    requires Fits32(link) || link == link0
    requires depth <= |key| && Follows(c, key, depth)
    ensures s.Push? && StackOk(mem, s.below, c.up, Relinked(s.top, link).at)
    ensures Focus(mem, Relinked(s.top, link), OneUp(c, list)) && Relinked(s.top, link).at == c.at
    ensures Plug(c.up, OneUp(c, list)) == Plug(c, list)
    ensures link == link0 ==> Relinked(s.top, link) == s.top
    ensures 0 <= DepthUp(c, depth) <= |key| && Follows(c.up, key, DepthUp(c, depth))
  {
    hide Repr, DecodeNode;
  }

  lemma FullList(c: Ctx, hole: Tree)
    requires Shaped(c, hole) && EndOk(c, hole) && !c.Top?
    ensures Along(OnSpine(c), hole)
  {
  }

  /** One round of the second loop of operate_trie_non_recursive, for a node that is not the first
      of the top list: it is reclaimed or saved, and the node before or above it is relinked. */
  method Rise(io: DataNodeIo, op: Operation, given: Item, s: Stack, key: Bytes, ghost depth: nat, ghost c: Ctx,
              ghost hole: Tree, ghost lost: set<int>)
    returns (r: Outcome, it: Item, ghost list: Tree)
    requires io.Valid() && Walking(io, s, c, hole, given.at, lost) && Focus(io.mem, given, hole)
    requires depth <= |key| && Follows(c, key, depth) && !c.Top?
    requires op.DelOp? ==> given.at != EMPTY
    requires EndOk(c, hole) || (op.DelOp? && hole.Node? && hole.child.Leaf?)
    modifies io.Parts()
    ensures Fair(io.cache.store.crypto, r, old(io.cache.store.AllHeld()),
                 if given.at == EMPTY then old(io.end) + 32 else 0) && !r.Thrown?
    ensures r.Pass? ==> io.Valid() && Later(old(io.Base()), io.Base()) && s.Push?
    ensures r.Pass? ==> Walking(io, s.below, c.up, list, it.at, lost) && Focus(io.mem, it, list)
    ensures r.Pass? ==> EndOk(c.up, list) || (op.DelOp? && list.Node? && list.child.Leaf?)
    ensures r.Pass? ==> it.at == c.at && SameMap(Plug(c, hole), Plug(c.up, list))
    ensures r.Pass? ==> Grew(old(io.Room()), io.Room(), NodeNeed(given.at))
    ensures r.Pass? ==> 0 <= DepthUp(c, depth) <= |key| && Follows(c.up, key, DepthUp(c, depth))
    ensures r.Pass? && !op.DelOp? && !given.modified ==>
              && it == s.top && Plug(c.up, list) == Plug(c, hole)
              && Same(old(io.mem), io.mem, old(io.end), io.end, old(io.collector.free), io.collector.free)
  {
    hide DataNodeIo.Valid, Later, Partition, StackOk, Used, Agree, Footprint, Apart, Shaped, Plug, Own, EncodeNode,
      Repr, Follows, NoNewPaths, Grew, Intact;
    it, list := given, hole;
    FocusRecord(io.mem, given, hole);
    ghost var sub;
    var link;
    if op.DelOp? && given.rec.child == EMPTY {
      NoChild(io.mem, c, hole);
      link :- Reclaim(io, given, key, depth, s, c, hole, lost);
      sub := hole.next;
      FullIsSpine(sub);
    } else {
      link, sub :- Save(io, given, key, depth, s, c, hole, lost);
      EndOfMoved(c, hole, sub);
    }
    UpStack(io.mem, s, c, sub, given.at, link, key, depth);
    UpApart(c, sub);
    UpShaped(c, sub);
    it := Relinked(s.top, link);
    list := OneUp(c, sub);
    r := Pass;
  }

  lemma NoChild(mem: Bytes, c: Ctx, hole: Tree)
    requires hole.Node? && Pointer(hole.child) == EMPTY && Repr(mem, hole.child)
    ensures hole.child.Leaf?
  {
  }

  lemma EndOfMoved(c: Ctx, hole: Tree, list: Tree)
    requires hole.Node? && list == MovedTo(hole, Pointer(list)) && Shaped(c, list) && EndOk(c, hole) && !c.Top?
    ensures Along(OnSpine(c), list)
  {
    FullList(c, list);
  }

  /** The last two rounds of the second loop: the first node of the top list, which is never
      reclaimed, and the root. */
  method SaveTop(io: DataNodeIo, head: Item, s: Stack, key: Bytes, ghost hole: Tree, ghost lost: set<int>)
    returns (r: Outcome, ghost top: Tree)
    requires io.Valid() && Walking(io, s, Top, hole, head.at, lost) && Focus(io.mem, head, hole)
    modifies io.Parts()
    ensures Fair(io.cache.store.crypto, r, old(io.cache.store.AllHeld()),
                 if head.at == EMPTY then old(io.end) + 32 else 0) && !r.Thrown?
    ensures r.Pass? ==> io.Valid() && Later(old(io.Base()), io.Base())
    ensures r.Pass? ==> Grew(old(io.Room()), io.Room(), NodeNeed(head.at))
    ensures r.Pass? ==> HoldsTrie(io, top, lost) && SameMap(hole, top)
    ensures r.Pass? && !head.modified && CleanStack(s) ==>
              top == hole && Same(old(io.mem), io.mem, old(io.end), io.end, old(io.collector.free), io.collector.free)
  {
    hide DataNodeIo.Valid, Later, Partition, Agree, Footprint, Apart, Shaped, Own, EncodeNode, Repr, Used, Stored,
      NoNewPaths, Grew, Intact;
    top := hole;
    var link;
    link, top :- Save(io, head, key, 0, s, Top, hole, lost);
    ghost var base, mem, room := io.Base(), io.mem, io.Room();
    LaterInTurn(old(io.Base()), base, base);
    var root := Relinked(s.top, link);
    if root.modified {
      RootInUse(io.end, io.collector.free, lost, top);
      root :- WriteNode(io, root, Used(Top, top), lost);
      LaterInTurn(old(io.Base()), base, io.Base());
      GrewInTurn(old(io.Room()), room, io.Room(), NodeNeed(head.at), 0);
      SavedRoot(mem, io.mem, top, root.rec);
    }
    r := Pass;
  }

  lemma RootInUse(end: nat, free: set<int>, lost: set<int>, top: Tree)
    requires Partition(end, Used(Top, top), free, lost)
    ensures Linear(ROOT) + 32 <= end && Proper(ROOT)
  {
    assert 31 in Used(Top, top);
  }

  lemma SavedRoot(mem: Bytes, mem': Bytes, top: Tree, rec: NodeRecord)
    requires Repr(mem, top) && Apart(Top, top) && Agree(mem, mem', Used(Top, top) - Own(ROOT))
    requires Describes(rec, [], EMPTY, Pointer(top))
    requires Inside(mem', ROOT, 32) && mem'[Linear(ROOT)..Linear(ROOT) + 32] == EncodeNode(rec)
    ensures Repr(mem', top) && Describes(Stored(mem', ROOT), [], EMPTY, Pointer(top))
  {
    hide Repr, Agree, EncodeNode, DecodeNode, Interval;
    RootOwn();
    AgreeSub(mem, mem', Used(Top, top) - Own(ROOT), Footprint(top));
    ReprFrame(mem, mem', top);
    NodeRoundTrip(rec);
  }

  /** The bytes that the nodes on the way up still need. */
  function Debt(c: Ctx, at: BlockOffset): nat {
    32 * Unplaced(c) + NodeNeed(at)
  }

  function Owed(debt: nat, end: nat): nat {
    if debt == 0 then 0 else end + debt
  }

  lemma OneFrame(c: Ctx, s: Stack)
    requires !c.Top?
    ensures 32 * Unplaced(c) == 32 * Unplaced(c.up) + NodeNeed(c.at)
    ensures Placed(c) ==> Placed(c.up) && c.at != EMPTY
    ensures CleanStack(s) && s.Push? ==> CleanStack(s.below) && !s.top.modified
  {
  }

  lemma SameMapInTurn(t: Tree, u: Tree, v: Tree)
    ensures SameMap(t, t)
    ensures SameMap(t, u) && SameMap(u, v) ==> SameMap(t, v)
  {
  }

  lemma GrewEnd(before: Space, after: Space, need: nat)
    requires Grew(before, after, need)
    ensures after.end <= before.end + need
  {
  }

  /** A get finds nothing to write on its way up. */
  predicate Quiet(op: Operation, it: Item, s: Stack) {
    op.GetOp? && !it.modified && CleanStack(s)
  }

  /** What holds all the way up. */
  ghost predicate Climbing(io: DataNodeIo, op: Operation, it: Item, s: Stack, key: Bytes, depth: int, c: Ctx,
                           hole: Tree, lost: set<int>)
    reads io, io.collector
  {
    && Walking(io, s, c, hole, it.at, lost) && Focus(io.mem, it, hole)
    && 0 <= depth <= |key| && Follows(c, key, depth) && (op.DelOp? ==> Placed(c) && it.at != EMPTY)
    && (EndOk(c, hole) || (op.DelOp? && hole.Node? && hole.child.Leaf?))
  }

  /** One round of the second loop, seen from where it began. */
  method ClimbOnce(io: DataNodeIo, op: Operation, given: Item, s: Stack, key: Bytes, ghost depth: nat, ghost c: Ctx,
                   ghost hole: Tree, ghost lost: set<int>, ghost base: Ground, ghost room: Space, ghost start: Tree,
                   ghost spent: nat)
    returns (r: Outcome, it: Item, ghost list: Tree)
    requires io.Valid() && Climbing(io, op, given, s, key, depth, c, hole, lost) && !c.Top?
    requires Later(base, io.Base()) && Grew(room, io.Room(), spent) && SameMap(start, Plug(c, hole))
    modifies io.Parts()
    ensures Fair(io.cache.store.crypto, r, Intact(base.stored), Owed(spent + Debt(c, given.at), room.end)) && !r.Thrown?
    ensures r.Pass? ==> io.Valid() && s.Push? && Climbing(io, op, it, s.below, key, DepthUp(c, depth), c.up, list, lost)
    ensures r.Pass? ==> Later(base, io.Base()) && Grew(room, io.Room(), spent + NodeNeed(given.at))
    ensures r.Pass? ==> SameMap(start, Plug(c.up, list))
    ensures r.Pass? ==> Debt(c, given.at) == NodeNeed(given.at) + Debt(c.up, it.at)
    ensures r.Pass? && Quiet(op, given, s) ==> Quiet(op, it, s.below) && Plug(c.up, list) == Plug(c, hole)
    ensures r.Pass? && Quiet(op, given, s) ==>
              Same(old(io.mem), io.mem, old(io.end), io.end, old(io.collector.free), io.collector.free)
  {
    hide DataNodeIo.Valid, Later, Walking, Focus, SameMap, Grew, Intact, Plug, Follows, HoldsTrie, EndOk, Unplaced,
      Placed, CleanStack;
    ghost var base1, room1 := io.Base(), io.Room();
    it, list := given, hole;
    LaterInTurn(base, base1, base1);
    GrewEnd(room, room1, spent);
    OneFrame(c, s);
    it, list :- Rise(io, op, given, s, key, depth, c, hole, lost);
    LaterInTurn(base, base1, io.Base());
    GrewInTurn(room, room1, io.Room(), spent, NodeNeed(given.at));
    SameMapInTurn(start, Plug(c, hole), Plug(c.up, list));
    r := Pass;
  }

  /** The second loop of operate_trie_non_recursive, down to the last two items of the stack. */
  method Climb(io: DataNodeIo, op: Operation, given: Item, given': Stack, key: Bytes, ghost place: Ctx,
               ghost list: Tree, ghost lost: set<int>)
    returns (r: Outcome, it: Item, s: Stack, ghost hole: Tree, ghost spent: nat)
    requires io.Valid() && Climbing(io, op, given, given', key, |key|, place, list, lost)
    modifies io.Parts()
    ensures Fair(io.cache.store.crypto, r, old(io.cache.store.AllHeld()), old(Owed(Debt(place, given.at), io.end)))
    ensures !r.Thrown?
    ensures r.Pass? ==> io.Valid() && Later(old(io.Base()), io.Base())
    ensures r.Pass? ==> Climbing(io, op, it, s, key, 0, Top, hole, lost)
    ensures r.Pass? ==> Grew(old(io.Room()), io.Room(), spent) && spent + NodeNeed(it.at) == Debt(place, given.at)
    ensures r.Pass? ==> SameMap(Plug(place, list), hole)
    ensures r.Pass? && Quiet(op, given, given') ==> Quiet(op, it, s) && hole == Plug(place, list)
    ensures r.Pass? && Quiet(op, given, given') ==>
              Same(old(io.mem), io.mem, old(io.end), io.end, old(io.collector.free), io.collector.free)
  {
    hide DataNodeIo.Valid, Later, Climbing, SameMap, Grew, Intact, Plug, Quiet, Unplaced;
    LaterInTurn(io.Base(), io.Base(), io.Base());
    GrewNot(io.Room());
    SameMapInTurn(Plug(place, list), Plug(place, list), Plug(place, list));
    it, s, hole, spent := given, given', list, 0;
    ghost var c, depth, base, room := place, |key|, io.Base(), io.Room();
    StackSize(io, op, it, s, key, depth, c, hole, lost);
    while s.below.Push?
      invariant io.Valid() && Later(base, io.Base()) && s.Push? && (s.below.Push? <==> !c.Top?)
      invariant 0 <= depth && Climbing(io, op, it, s, key, depth, c, hole, lost)
      invariant SameMap(Plug(place, list), Plug(c, hole))
      invariant Grew(room, io.Room(), spent) && spent + Debt(c, it.at) == Debt(place, given.at)
      invariant Quiet(op, given, given') ==> Quiet(op, it, s) && Plug(c, hole) == Plug(place, list)
      invariant Quiet(op, given, given') ==>
                  Same(old(io.mem), io.mem, old(io.end), io.end, old(io.collector.free), io.collector.free)
      decreases s
    {
      ghost var sub, need := hole, NodeNeed(it.at);
      it, sub :- ClimbOnce(io, op, it, s, key, depth, c, hole, lost, base, room, Plug(place, list), spent);
      spent, depth := spent + need, DepthUp(c, depth);
      s := s.below;
      c, hole := c.up, sub;
      StackSize(io, op, it, s, key, depth, c, hole, lost);
    }
    AtTop(io, op, it, s, key, depth, hole, lost);
    r := Pass;
  }

  /** The second loop of operate_trie_non_recursive. */
  method Ascend(io: DataNodeIo, op: Operation, given: Item, given': Stack, key: Bytes, ghost place: Ctx,
                ghost list: Tree, ghost lost: set<int>)
    returns (r: Outcome, ghost top: Tree)
    requires io.Valid() && Walking(io, given', place, list, given.at, lost) && Focus(io.mem, given, list)
    requires Follows(place, key, |key|) && (op.DelOp? ==> Placed(place) && given.at != EMPTY)
    requires EndOk(place, list) || (op.DelOp? && list.Node? && list.child.Leaf?)
    modifies io.Parts()
    ensures Fair(io.cache.store.crypto, r, old(io.cache.store.AllHeld()), old(Owed(Debt(place, given.at), io.end)))
    ensures !r.Thrown?
    ensures r.Pass? ==> io.Valid() && Later(old(io.Base()), io.Base())
    ensures r.Pass? ==> Grew(old(io.Room()), io.Room(), Debt(place, given.at))
    ensures r.Pass? ==> HoldsTrie(io, top, lost) && SameMap(Plug(place, list), top)
    ensures r.Pass? && Quiet(op, given, given') ==>
              top == Plug(place, list)
                && Same(old(io.mem), io.mem, old(io.end), io.end, old(io.collector.free), io.collector.free)
  {
    hide DataNodeIo.Valid, Later, Walking, Focus, SameMap, Grew, Intact, Plug, Follows, HoldsTrie, EndOk, Unplaced;
    top := list;
    var it, s;
    ghost var hole, spent;
    it, s, hole, spent :- Climb(io, op, given, given', key, place, list, lost);
    ghost var base, room := io.Base(), io.Room();
    LaterInTurn(old(io.Base()), base, base);
    GrewEnd(old(io.Room()), room, spent);
    top :- SaveTop(io, it, s, key, hole, lost);
    LaterInTurn(old(io.Base()), base, io.Base());
    GrewInTurn(old(io.Room()), room, io.Room(), spent, NodeNeed(it.at));
    SameMapInTurn(Plug(place, list), hole, top);
    r := Pass;
  }

  lemma StackSize(io: DataNodeIo, op: Operation, it: Item, s: Stack, key: Bytes, depth: int, c: Ctx, hole: Tree,
                  lost: set<int>)
    requires Climbing(io, op, it, s, key, depth, c, hole, lost)
    ensures s.Push? && (s.below.Push? <==> !c.Top?) && 0 <= depth
  {
    if !c.Top? { StackNonEmpty(io.mem, s.below, c.up, c.at); }
  }

  lemma AtTop(io: DataNodeIo, op: Operation, it: Item, s: Stack, key: Bytes, depth: int, hole: Tree, lost: set<int>)
    requires Climbing(io, op, it, s, key, depth, Top, hole, lost)
    ensures depth == 0 && Plug(Top, hole) == hole && Unplaced(Top) == 0
  {
  }

  lemma StackNonEmpty(mem: Bytes, s: Stack, c: Ctx, link: BlockOffset)
    requires StackOk(mem, s, c, link)
    ensures s.Push?
  {
  }

  /** The empty value stands for a missing one. */
  function Answer(v: Option<Bytes>): Bytes {
    if v.Some? then v.value else []
  }

  /** The bytes that the value of a put needs, apart from a mark. */
  function ValueNeed(op: Operation, value: Bytes): nat {
    if op.PutOp? then 9 + |value| else 0
  }

  /** What an operation has done at the node that ends the key. */
  ghost predicate Acted(op: Operation, key: Bytes, value: Bytes, out: Bytes, c: Ctx, hole: Tree, list: Tree,
                        given: Item, it: Item) {
    && it.at == given.at && list.Node? && (EndOk(c, list) || (op.DelOp? && list.child.Leaf?))
    && HeadOf(Plug(c, list)) == HeadOf(Plug(c, hole)) && NoNewPaths(Plug(c, hole), Plug(c, list))
    && match op
       case PutOp => Updates(Plug(c, hole), Plug(c, list), key, Some(value)) && HeadOf(Plug(c, hole)) != NoKey
       case DelOp => Updates(Plug(c, hole), Plug(c, list), key, None)
       case GetOp => list == hole && it == given && Lookup(Plug(c, hole), key) == Some(out)
  }

  /** The operation deletes an empty value. */
  predicate MarksAt(op: Operation, child: Tree) {
    !op.GetOp? && Marks(child)
  }

  /** The bytes up to which the switch may write. */
  function ActNeed(op: Operation, value: Bytes, marks: bool, end: nat): nat {
    if op.PutOp? || marks then end + ValueNeed(op, value) + (if marks then 1 else 0) else 0
  }

  /** The switch over the operation. A get or delete throws exactly when there is no value. */
  method ActHere(io: DataNodeIo, op: Operation, given: Item, key: Bytes, value: Bytes, ghost s: Stack, ghost c: Ctx,
                 ghost hole: Tree, ghost lost: set<int>)
    returns (r: Outcome, out: Bytes, it: Item, ghost list: Tree, ghost lost': set<int>)
    requires io.Valid() && Walking(io, s, c, hole, given.at, lost) && Focus(io.mem, given, hole)
    requires hole.chunk == [] && Follows(c, key, |key|) && (EndOk(c, hole) || op.PutOp?)
    requires !op.GetOp? ==> SafeHere(c, hole)
    modifies io.Parts()
    ensures Fair(io.cache.store.crypto, r, old(io.cache.store.AllHeld()),
                 ActNeed(op, value, MarksAt(op, hole.child), old(io.end)))
    ensures r.Thrown? ==> !op.PutOp? && hole.child.Leaf?
    ensures r.Pass? && hole.child.Leaf? ==> op.PutOp?
    ensures r.Thrown? || (r.Pass? && op.GetOp?) ==> lost' == lost
    ensures r.Pass? ==> Leaks(lost, lost', old(io.end), MarksAt(op, hole.child))
    ensures r.Pass? && op.PutOp? && SameSize(hole.child, value) ==> io.end == old(io.end)
    ensures r.Thrown? || (r.Pass? && op.GetOp?) ==>
              Same(old(io.mem), io.mem, old(io.end), io.end, old(io.collector.free), io.collector.free)
    ensures r.Thrown? ==> io.Base() == old(io.Base()) && io.Valid()
    ensures r.Pass? ==> io.Valid() && Later(old(io.Base()), io.Base())
    ensures r.Pass? ==> Spent(old(io.Room()), io.Room(), ValueNeed(op, value), MarksAt(op, hole.child))
    ensures r.Pass? ==> Walking(io, s, c, list, it.at, lost') && Focus(io.mem, it, list)
    ensures r.Pass? ==> Acted(op, key, value, out, c, hole, list, given, it)
  {
    hide DataNodeIo.Valid, Later, Partition, StackOk, Focus, Repr, Used, Sound, Stored, Plug, NoNewPaths, Updates, Grew,
      Spent, Intact, SafeHere;
    LaterInTurn(io.Base(), io.Base(), io.Base());
    NothingSpent(io.Room());
    out, it, list, lost' := [], given, hole, lost;
    FocusRecord(io.mem, it, hole);
    AtTheEnd(io.mem, it, c, hole, key);
    NoChange(Plug(c, hole));
    match op {
      case PutOp =>
        it, list, lost' :- PutHere(io, it, value, key, s, c, hole, lost);
      case GetOp =>
        if it.rec.child == EMPTY {
          return Thrown, [], it, hole, lost;
        }
        out :- ReadValue(io, it.rec.child, hole.child.value);
      case DelOp =>
        if it.rec.child == EMPTY {
          return Thrown, [], it, hole, lost;
        }
        it, list, lost' :- DeleteHere(io, it, key, s, c, hole, lost);
    }
    FocusRecord(io.mem, it, list);
    r := Pass;
  }

  lemma NoChange(t: Tree)
    ensures NoNewPaths(t, t)
  {
  }

  /** The bytes that a put may append: a node for each 15 bytes of the key, the node that ends it, the
      record of the value, and what a split costs. */
  function PutNeed(key: Bytes, value: Bytes): nat {
    32 * NodesFor(key) + |value| + 105
  }

  function NodesFor(key: Bytes): nat {
    (|key| + 14) / 15
  }

  lemma DebtBound(c: Ctx, at: BlockOffset, key: Bytes)
    requires 15 * Unplaced(c) <= |key| + 14
    ensures Debt(c, at) <= 32 * NodesFor(key) + 32
  {
  }

  /** The operation deletes an empty value of the trie. */
  predicate MarksIn(op: Operation, top: Tree, key: Bytes) {
    !op.GetOp? && Lookup(top, key) == Some([])
  }

  /** The key has a value of the same length as the new one, which is not zero. */
  predicate Replaces(top: Tree, key: Bytes, value: Bytes) {
    Lookup(top, key).Some? && |Lookup(top, key).value| == |value| > 0
  }

  /** What an operation has done to the trie. */
  ghost predicate Answered(op: Operation, key: Bytes, value: Bytes, out: Bytes, top: Tree, top': Tree) {
    && HeadOf(top') == HeadAfter(op, key, HeadOf(top))
    && match op
       case PutOp => Updates(top, top', key, Some(value)) && OldPaths(top, top', key)
       case DelOp => Updates(top, top', key, None) && NoNewPaths(top, top')
       case GetOp => out == Answer(Lookup(top, key)) && top' == top
  }

  /** What an operation has done to the space. */
  ghost predicate Filled(op: Operation, key: Bytes, value: Bytes, top: Tree, s: Space, s': Space) {
    match op
    case PutOp => PutGrew(s, s', Splits(top, key), PutNeed(key, value))
    case DelOp => Spent(s, s', 0, MarksIn(op, top, key))
    case GetOp => Grew(s, s', 0)
  }

  ghost predicate Operated(op: Operation, key: Bytes, value: Bytes, out: Bytes, top: Tree, top': Tree, s: Space,
                           s': Space) {
    Answered(op, key, value, out, top, top') && Filled(op, key, value, top, s, s')
  }

  /** The bytes up to which an operation may write. */
  function OperateNeed(op: Operation, key: Bytes, value: Bytes, top: Tree, end: nat): nat {
    if op.PutOp? then end + PutNeed(key, value) else if MarksIn(op, top, key) then end + 1 else 0
  }

  /** The operation at the node that ends the key, and the walk back. `before` is what the walk down
      began with. */
  method OperateThere(io: DataNodeIo, op: Operation, key: Bytes, value: Bytes, w: Descent, ghost top: Tree,
                      ghost lost: set<int>, ghost z: Zipper, ghost before: Extent)
    returns (r: Outcome, out: Bytes, ghost top': Tree, ghost lost': set<int>)
    requires io.Valid() && Descending(io, op, key, top, lost, w, z) && w.loaded && w.depth == |key|
    requires z.hole.Node? && z.hole.chunk == [] && 15 * Unplaced(z.c) <= |key| + 14
    requires TrieAt(before.mem, before.room.end, before.free, lost, top)
    requires (!op.GetOp? ==> MarkSafe(top, key)) && Walked(op.PutOp? && Splits(top, key), before, ExtentOf(io))
    modifies io.Parts()
    ensures Fair(io.cache.store.crypto, r, old(io.cache.store.AllHeld()),
                 OperateNeed(op, key, value, top, before.room.end))
    ensures r.Pass? || r.Thrown? ==> io.Valid() && Later(old(io.Base()), io.Base()) && HoldsTrie(io, top', lost')
    ensures r.Pass? ==> Operated(op, key, value, out, top, top', before.room, io.Room())
    ensures r.Pass? ==> Leaks(lost, lost', before.room.end, MarksIn(op, top, key))
    ensures r.Pass? && op.PutOp? && Replaces(top, key, value) ==> io.end == before.room.end
    ensures r.Thrown? || (r.Pass? && op.GetOp?) ==> top' == top && lost' == lost
    ensures r.Thrown? || (r.Pass? && op.GetOp?) ==>
              Same(before.mem, io.mem, before.room.end, io.end, before.free, io.collector.free)
    ensures r.Thrown? ==> !op.PutOp? && key == [] && DeadHead(top)
    ensures r.Pass? && key == [] && DeadHead(top) ==> op.PutOp?
  {
    hide DataNodeIo.Valid, Later, Partition, StackOk, Focus, Repr, Used, Sound, Stored, Plug, Walked, Grew, Spent,
      Acted,
      Intact, Operated, SafeHere, MarkSafe, Leaks, NodesFor;
    out, top', lost' := [], top, lost;
    var it := w.it;
    ghost var base, walked, c := io.Base(), ExtentOf(io), z.c;
    LaterInTurn(base, base, base);
    AtItsEnd(io, op, key, top, lost, w, z);
    DebtBound(c, it.at, key);
    WalkedEnd(op.PutOp? && Splits(top, key), before, walked);
    ghost var list := z.hole;
    out, it, list, lost' :- ActHere(io, op, it, key, value, w.stack, c, z.hole, lost);
    LeaksSame(lost, lost', walked.room.end, before.room.end, MarksIn(op, top, key));
    base := io.Base();
    LaterInTurn(old(io.Base()), base, base);
    ghost var s2 := io.Room();
    SpentEnd(walked.room, s2, ValueNeed(op, value), MarksIn(op, top, key));
    ActedParts(op, key, value, out, c, z.hole, list, w.it, it);
    top' :- Ascend(io, op, it, w.stack, key, c, list, lost');
    LaterInTurn(old(io.Base()), base, io.Base());
    if Replaces(top, key, value) {
      NoDebt(before, lost, top, z, w.it) by { FocusRecord(walked.mem, w.it, z.hole); }
      GrewNone(s2, io.Room());
    }
    MeaningTogether(op, key, value, out, top, top', z, list, w.it, it);
    SpaceTogether(op, key, value, top, before, walked, s2, io.Room(), Debt(c, it.at));
    BothTogether(op, key, value, out, top, top', before.room, io.Room());
    r := Pass;
  }

  /** operate_trie_non_recursive: the trie answers and changes as a map does. */
  method Operate(io: DataNodeIo, op: Operation, key: Bytes, value: Bytes, ghost top: Tree, ghost lost: set<int>)
    returns (r: Outcome, out: Bytes, ghost top': Tree, ghost lost': set<int>)
    requires io.Valid() && HoldsTrie(io, top, lost) && (!op.GetOp? ==> MarkSafe(top, key))
    modifies io.Parts()
    ensures Fair(io.cache.store.crypto, r, old(io.cache.store.AllHeld()), OperateNeed(op, key, value, top, old(io.end)))
    ensures r.Pass? || r.Thrown? ==> io.Valid() && Later(old(io.Base()), io.Base()) && HoldsTrie(io, top', lost')
    ensures r.Pass? ==> Operated(op, key, value, out, top, top', old(io.Room()), io.Room())
    ensures r.Pass? ==> Leaks(lost, lost', old(io.end), MarksIn(op, top, key))
    ensures r.Pass? && op.PutOp? && Replaces(top, key, value) ==> io.end == old(io.end)
    ensures r.Thrown? || (r.Pass? && op.GetOp?) ==> top' == top && lost' == lost
    ensures r.Thrown? || (r.Pass? && op.GetOp?) ==>
              Same(old(io.mem), io.mem, old(io.end), io.end, old(io.collector.free), io.collector.free)
    ensures r.Thrown? ==> !op.PutOp? && key == [] && DeadHead(top)
    ensures r.Pass? && key == [] && DeadHead(top) ==> op.PutOp?
  {
    hide DataNodeIo.Valid, Later, TrieAt, Descending, Walked, Intact, Operated, MarkSafe, Leaks, Splits;
    out, top', lost' := [], top, lost;
    NoLeak(lost, io.end, MarksIn(op, top, key));
    var found, w;
    ghost var z;
    found, w, z :- Descend(io, op, key, top, lost);
    if !found {
      Unfound(op, key, value, top, old(ExtentOf(io)), ExtentOf(io));
      return Pass, [], top, lost;
    }
    ghost var base := io.Base();
    LaterInTurn(old(io.Base()), base, base);
    r, out, top', lost' := OperateThere(io, op, key, value, w, top, lost, z, old(ExtentOf(io)));
    LaterInTurn(old(io.Base()), base, io.Base());
  }

  lemma LeaksSame(lost: set<int>, lost': set<int>, end: nat, end': nat, marked: bool)
    requires Leaks(lost, lost', end, marked) && (marked ==> end' == end)
    ensures Leaks(lost, lost', end', marked)
  {
  }

  lemma BothTogether(op: Operation, key: Bytes, value: Bytes, out: Bytes, top: Tree, top': Tree, s: Space, s': Space)
    requires Answered(op, key, value, out, top, top') && Filled(op, key, value, top, s, s')
    ensures Operated(op, key, value, out, top, top', s, s')
  {
  }

  lemma Unfound(op: Operation, key: Bytes, value: Bytes, top: Tree, before: Extent, after: Extent)
    requires !op.PutOp? && Lookup(top, key) == None && Walked(false, before, after)
    ensures Operated(op, key, value, [], top, top, before.room, after.room) && after == before
  {
    GrewNot(before.room);
  }

  lemma WalkedEnd(split: bool, before: Extent, after: Extent)
    requires Walked(split, before, after)
    ensures if split then after.room.end <= before.room.end + 64 else after == before
  {
  }

  lemma {:induction false} PlacedNone(c: Ctx)
    requires Placed(c)
    ensures Unplaced(c) == 0
  {
    if !c.Top? { PlacedNone(c.up); }
  }

  /** What the walk down leaves for the operation. */
  lemma AtItsEnd(io: DataNodeIo, op: Operation, key: Bytes, top: Tree, lost: set<int>, w: Descent, z: Zipper)
    requires Descending(io, op, key, top, lost, w, z) && w.loaded && w.depth == |key|
    requires z.hole.Node? && z.hole.chunk == [] && (!op.GetOp? ==> MarkSafe(top, key))
    ensures Walking(io, w.stack, z.c, z.hole, w.it.at, lost) && Focus(io.mem, w.it, z.hole) && Follows(z.c, key, |key|)
    ensures Faithful(op, key, top, z.c, z.hole)
    ensures (EndOk(z.c, z.hole) || op.PutOp?) && (!op.GetOp? ==> SafeHere(z.c, z.hole))
    ensures MarksAt(op, z.hole.child) <==> MarksIn(op, top, key)
    ensures Lookup(top, key) == if z.hole.child.Value? then Some(z.hole.child.value) else None
    ensures Lookup(top, key).Some? ==> Plug(z.c, z.hole) == top && !Splits(top, key)
    ensures !op.PutOp? ==> Placed(z.c) && w.it.at != EMPTY && !w.it.modified && CleanStack(w.stack)
    ensures !op.PutOp? ==> Debt(z.c, w.it.at) == 0 && Plug(z.c, z.hole) == top
    ensures z.hole.child.Leaf? && !op.PutOp? ==> key == [] && DeadHead(top)
    ensures z.hole.child.Value? && !op.PutOp? ==> !(key == [] && DeadHead(top))
    ensures z.hole.child.Leaf? || z.hole.child.Value?
  {
    hide MarkSafe, SafeHere, MarksAt, MarksIn, OldPaths, Splits, ChunkIn;
    AtTheEnd(io.mem, w.it, z.c, z.hole, key);
    if !op.PutOp? { PlacedNone(z.c); }
    MarkAtEnd(op, key, top, z.c, z.hole);
    if Lookup(top, key).Some? { FoundUnsplit(top, key); }
  }

  /** Where all nodes are in memory, none needs a place. */
  lemma {:induction false} ReprPlaced(mem: Bytes, c: Ctx, hole: Tree)
    requires Repr(mem, Plug(c, hole)) && hole.Node?
    ensures hole.at != EMPTY && Unplaced(c) == 0
  {
    hide Describes, ValueAt;
    match c
    case Top =>
    case NextOf(at, chunk, child, up) =>
      ReprPlaced(mem, up, Node(at, chunk, child, hole));
      ReprBelow(mem, up, Node(at, chunk, child, hole));
    case ChildOf(at, chunk, next, up) =>
      ReprPlaced(mem, up, Node(at, chunk, hole, next));
      ReprBelow(mem, up, Node(at, chunk, hole, next));
  }

  lemma {:induction false} ReprBelow(mem: Bytes, c: Ctx, t: Tree)
    requires Repr(mem, Plug(c, t))
    ensures Repr(mem, t)
  {
    hide Describes, ValueAt;
    match c
    case Top =>
    case NextOf(at, chunk, child, up) => ReprBelow(mem, up, Node(at, chunk, child, t));
    case ChildOf(at, chunk, next, up) => ReprBelow(mem, up, Node(at, chunk, t, next));
  }

  /** Replacing a value creates no node. */
  lemma NoDebt(before: Extent, lost: set<int>, top: Tree, z: Zipper, it: Item)
    requires TrieAt(before.mem, before.room.end, before.free, lost, top) && Plug(z.c, z.hole) == top && z.hole.Node?
    requires it.at == z.hole.at
    ensures Debt(z.c, it.at) == 0
  {
    hide Partition, Repr, Sound, Stored;
    ReprPlaced(before.mem, z.c, z.hole);
  }

  lemma GrewNone(s: Space, s': Space)
    requires Grew(s, s', 0)
    ensures s'.end == s.end
  {
  }

  /** The mark of this operation, told from the trie and from the node that ends the key. */
  lemma MarkAtEnd(op: Operation, key: Bytes, top: Tree, c: Ctx, hole: Tree)
    requires Faithful(op, key, top, c, hole) && Follows(c, key, |key|) && (!op.GetOp? ==> MarkSafe(top, key))
    requires hole.Node? && hole.chunk == []
    requires Lookup(Plug(c, hole), key) == if hole.child.Value? then Some(hole.child.value) else None
    ensures !op.GetOp? ==> SafeHere(c, hole)
    ensures MarksAt(op, hole.child) <==> MarksIn(op, top, key)
    ensures op.PutOp? && MarksIn(op, top, key) ==> !Splits(top, key)
  {
    hide ChunkIn, Splits, OldPaths;
    assert Lookup(Plug(c, hole), key) == Lookup(top, key);
    if MarksIn(op, top, key) {
      PlugPlaceOf(c, hole, key, |key|);
      assert key[|key|..] == [];
      FoundUnsplit(top, key);
    }
  }

  /** A key that has a value splits no node. */
  lemma {:induction false} FoundUnsplit(t: Tree, key: Bytes)
    requires Lookup(t, key).Some?
    ensures !Splits(t, key)
    decreases t
  {
    if t.Node? {
      if Head(t.chunk) != Head(key) {
        FoundUnsplit(t.next, key);
      } else if t.chunk == [] {
        assert key == [];
        NoSplitAtEnd(t.next);
      } else {
        FoundUnsplit(t.child, key[|t.chunk|..]);
      }
    }
  }

  lemma ActedParts(op: Operation, key: Bytes, value: Bytes, out: Bytes, c: Ctx, hole: Tree, list: Tree, given: Item,
                   it: Item)
    requires Acted(op, key, value, out, c, hole, list, given, it)
    ensures it.at == given.at && list.Node? && (EndOk(c, list) || (op.DelOp? && list.child.Leaf?))
    ensures op.GetOp? ==> list == hole && it == given
  {
  }

  /** The walk down, the change at the end and the walk up, put together: what they mean. */
  lemma MeaningTogether(op: Operation, key: Bytes, value: Bytes, out: Bytes, top: Tree, top': Tree, z: Zipper,
                        list: Tree, given: Item, it: Item)
    requires Faithful(op, key, top, z.c, z.hole) && Acted(op, key, value, out, z.c, z.hole, list, given, it)
    requires SameMap(Plug(z.c, list), top') && (op.GetOp? ==> top' == Plug(z.c, list))
    ensures Answered(op, key, value, out, top, top')
  {
    hide OldPaths, NoNewPaths, Plug, Lookup;
    PathsTogether(top, Plug(z.c, z.hole), Plug(z.c, list), top', key, op);
  }

  /** And the space they take. */
  lemma SpaceTogether(op: Operation, key: Bytes, value: Bytes, top: Tree, before: Extent, walked: Extent, s2: Space,
                      s3: Space, debt: nat)
    requires Walked(op.PutOp? && Splits(top, key), before, walked)
    requires Spent(walked.room, s2, ValueNeed(op, value), MarksIn(op, top, key)) && Grew(s2, s3, debt)
    requires op.PutOp? && MarksIn(op, top, key) ==> !Splits(top, key)
    requires debt <= 32 * NodesFor(key) + 32 && (!op.PutOp? ==> debt == 0)
    ensures Filled(op, key, value, top, before.room, s3)
  {
    hide Grew, SplitGrew, Lookup, Spent, Splits;
    SpentInTurn(walked.room, s2, s3, ValueNeed(op, value), debt, MarksIn(op, top, key));
    if op.PutOp? {
      var rest := ValueNeed(op, value) + debt;
      if Splits(top, key) {
        PutGrewSplit(before.room, walked.room, s3, rest, PutNeed(key, value));
      } else {
        PutGrewUnsplit(before.room, s3, rest, PutNeed(key, value), MarksIn(op, top, key));
      }
    }
  }

  lemma PathsTogether(t: Tree, u: Tree, v: Tree, w: Tree, key: Bytes, op: Operation)
    requires OldPaths(t, u, key) && (!op.PutOp? ==> u == t) && NoNewPaths(u, v) && NoNewPaths(v, w)
    ensures OldPaths(t, w, key) && (!op.PutOp? ==> NoNewPaths(t, w))
  {
  }

  /** At the node that ends the key: it has a value, or it is the first of the top list. */
  lemma AtTheEnd(mem: Bytes, it: Item, c: Ctx, hole: Tree, key: Bytes)
    requires Sound(c, hole) && Focus(mem, it, hole) && hole.chunk == [] && Follows(c, key, |key|)
    ensures Lookup(Plug(c, hole), key) == if hole.child.Value? then Some(hole.child.value) else None
    ensures hole.child.Value? || hole.child.Leaf?
    ensures hole.child.Value? ==> Pointer(hole.child) != EMPTY && ValueAt(mem, hole.child.at, hole.child.value)
    ensures c.Top? ==> key == [] && Plug(c, hole) == hole
    ensures key == [] && hole.child.Value? ==> !DeadHead(Plug(c, hole))
  {
    PlugLookup(c, hole, key, |key|);
    if key == [] && hole.child.Value? { EmptyKeyPath(c, hole); }
  }
}
