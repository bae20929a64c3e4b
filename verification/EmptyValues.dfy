/** What the deletion of an empty value does to the rest of the trie: its mark goes to the byte
    after the record. */
module EmptyValues {
  import opened ByteCodec
  import opened Addressing
  import opened DataNodes
  import opened FlatMemory
  import opened Tries
  import opened TrieHeap
  import opened TrieStack
  import opened TrieMark
  import opened TrieWalk
  import opened TrieOps
  import opened TrieMap
  import opened TrieRead

  /** The record of an empty value starts at this address. */
  predicate EmptyValueIn(t: Tree, a: int) {
    match t
    case Leaf => false
    case Value(at, v) => v == [] && Linear(at) == a
    case Node(_, _, child, next) => EmptyValueIn(child, a) || EmptyValueIn(next, a)
  }

  /** The last byte of the record is a byte of the tree. */
  lemma {:induction false} EmptyValueCovers(mem: Bytes, t: Tree, a: int)
    requires EmptyValueIn(t, a) && Repr(mem, t)
    ensures a + 8 in Footprint(t)
  {
    hide Stored, EncodeValue;
    if t.Node? {
      if EmptyValueIn(t.child, a) { EmptyValueCovers(mem, t.child, a); } else { EmptyValueCovers(mem, t.next, a); }
    }
  }

  /** Every search gives the same in both memories. */
  ghost predicate SameReadings(mem: Bytes, after: Bytes) {
    forall key, n: nat :: ReadKey(MemoryOf(after), key, n) == ReadKey(MemoryOf(mem), key, n)
  }

  lemma ValueStillRead(mem: Bytes, after: Bytes, a: nat, at: BlockOffset, v: Bytes)
    requires Written(mem, after, a, [MARK]) && |mem| <= LIMIT
    requires ValueAt(mem, at, v) && Spared(Linear(at), 9 + |v|, a)
    ensures ValueOf(MemoryOf(after), at) == Found(v)
  {
    hide Range, FromLittleEndian, Written, ToLittleEndian;
    ProperIsPlaced(at);
    ValueMarked(mem, after, a, at, v);
    SameLength(mem, at, v);
    var f := Linear(at);
    RangeOfFlat(after, f, 1);
    RangeOfFlat(after, f + 1, 8);
    RangeOfFlat(after, f + 9, |v|);
    BodyParts(after, at, v);
  }

  /** The length of a record that fits into the memory fits into 32 bits. */
  lemma SameLength(mem: Bytes, at: BlockOffset, v: Bytes)
    requires ValueAt(mem, at, v) && |mem| <= LIMIT
    ensures |v| < 0x1_0000_0000
  {
  }

  /** If the mark hits no chunk, every search of the tree goes the same way. */
  lemma {:induction false} WalkMarked(mem: Bytes, after: Bytes, a: nat, t: Tree, key: Bytes, n: nat)
    requires Written(mem, after, a, [MARK]) && |mem| <= LIMIT
    requires Repr(mem, t) && Shape(t) && Separate(t) && !ChunkIn(t, a)
    requires (a - 1 in Footprint(t) ==> EmptyValueIn(t, a - 9))
    ensures Walk(MemoryOf(after), Pointer(t), key, n) == Walk(MemoryOf(mem), Pointer(t), key, n)
    decreases t
  {
    hide Written, Stored, EncodeValue, RecordOf, ValueOf, Interval, Linear;
    if t.Node? && n > 0 {
      ProperIsPlaced(t.at);
      TreeSpared(mem, t, a);
      NodeMarked(mem, after, a, t.at);
      NodeOfFlat(mem, t.at);
      NodeOfFlat(after, t.at);
      if Head(t.chunk) != Head(key) {
        WalkMarked(mem, after, a, t.next, key, n - 1);
      } else if t.chunk == [] {
        EndOfKey(mem, t.child);
        if t.child.Value? {
          ValueStillRead(mem, after, a, t.child.at, t.child.value);
        } else {
          NoValue(MemoryOf(after));
        }
      } else if t.chunk <= key {
        WalkMarked(mem, after, a, t.child, key[|t.chunk|..], n - 1);
      }
    }
  }

  lemma NoValue(m: Memory)
    ensures ValueOf(m, EMPTY) == Throws
  {
  }

  /** A record that holds the byte after an empty value starts there. */
  lemma TreeSpared(mem: Bytes, t: Tree, a: nat)
    requires Repr(mem, t) && t.Node? && Separate(t) && (a - 1 in Footprint(t) ==> EmptyValueIn(t, a - 9))
    ensures Spared(Linear(t.at), 32, a)
    ensures t.child.Value? ==> Spared(Linear(t.child.at), 9 + |t.child.value|, a)
    ensures a - 1 in Footprint(t.child) ==> EmptyValueIn(t.child, a - 9)
    ensures a - 1 in Footprint(t.next) ==> EmptyValueIn(t.next, a - 9)
  {
    hide Stored, EncodeValue, Interval, Linear, Spared;
    ProperIsPlaced(t.at);
    if EmptyValueIn(t.child, a - 9) { EmptyValueCovers(mem, t.child, a - 9); }
    if EmptyValueIn(t.next, a - 9) { EmptyValueCovers(mem, t.next, a - 9); }
    assert a - 1 !in Own(t.at);
    OutsideSpares(Linear(t.at), 32, a);
    if t.child.Value? {
      if a - 1 in Footprint(t.child) {
        EndSpares(Linear(t.child.at), a);
      } else {
        OutsideSpares(Linear(t.child.at), 9 + |t.child.value|, a);
      }
    }
  }

  lemma EndSpares(from: int, a: int)
    requires from == a - 9
    ensures Spared(from, 9, a)
  {
  }

  lemma MarkHarmless(mem: Bytes, after: Bytes, a: nat, end: nat, free: set<int>, lost: set<int>, top: Tree)
    requires Written(mem, after, a, [MARK]) && |mem| <= LIMIT
    requires TrieAt(mem, end, free, lost, top) && EmptyValueIn(top, a - 9) && !ChunkIn(top, a)
    ensures SameReadings(mem, after)
  {
    hide Written, Stored, Partition, Repr, Separate, RecordOf, Walk, ChunkIn, EmptyValueIn;
    EmptyValueCovers(mem, top, a - 9);
    assert a - 1 !in Interval(0, 32);
    OutsideSpares(0, 32, a);
    NodeMarked(mem, after, a, ROOT);
    NodeOfFlat(mem, ROOT);
    NodeOfFlat(after, ROOT);
    forall key, n: nat ensures ReadKey(MemoryOf(after), key, n) == ReadKey(MemoryOf(mem), key, n) {
      WalkMarked(mem, after, a, top, key, n);
    }
  }

  /** The bytes that lead to a place. */
  function PathTo(c: Ctx): Bytes {
    match c
    case Top => []
    case NextOf(_, _, _, up) => PathTo(up)
    case ChildOf(_, chunk, _, up) => PathTo(up) + chunk
  }

  /** The nodes on the way to a place. */
  function Rounds(c: Ctx): nat {
    match c
    case Top => 0
    case NextOf(_, _, _, up) => 1 + Rounds(up)
    case ChildOf(_, _, _, up) => 1 + Rounds(up)
  }

  lemma {:induction false} FollowsPath(c: Ctx, rest: Bytes)
    requires ShapeCtx(c) && Head(rest) !in Taken(c)
    ensures Follows(c, PathTo(c) + rest, |PathTo(c)|)
  {
    var key := PathTo(c) + rest;
    assert key[|PathTo(c)|..] == rest;
    match c
    case Top =>
    case NextOf(_, _, _, up) =>
      FollowsPath(up, rest);
    case ChildOf(_, chunk, _, up) =>
      FollowsPath(up, chunk + rest);
      assert PathTo(up) + (chunk + rest) == key;
  }

  /** The nodes on the way to a place lie in the memory, linked as they should. */
  ghost predicate OnWay(mem: Bytes, c: Ctx, link: BlockOffset) {
    match c
    case Top => true
    case NextOf(at, chunk, child, up) =>
      Inside(mem, at, NODE_SIZE) && Describes(Stored(mem, at), chunk, Pointer(child), link) && OnWay(mem, up, at)
    case ChildOf(at, chunk, next, up) =>
      Inside(mem, at, NODE_SIZE) && Describes(Stored(mem, at), chunk, link, Pointer(next)) && OnWay(mem, up, at)
  }

  lemma {:induction false} PlugOnWay(mem: Bytes, c: Ctx, t: Tree)
    requires Repr(mem, Plug(c, t))
    ensures OnWay(mem, c, Pointer(t)) && Repr(mem, t)
  {
    hide Stored, Describes;
    match c
    case Top =>
    case NextOf(at, chunk, child, up) => PlugOnWay(mem, up, Node(at, chunk, child, t));
    case ChildOf(at, chunk, next, up) => PlugOnWay(mem, up, Node(at, chunk, t, next));
  }

  lemma {:induction false} WayStays(mem: Bytes, after: Bytes, a: nat, c: Ctx, link: BlockOffset)
    requires Written(mem, after, a, [MARK]) && OnWay(mem, c, link) && a !in Around(c)
    ensures OnWay(after, c, link)
  {
    hide Stored, Describes, Written, Linear;
    if !c.Top? {
      ProperIsPlaced(c.at);
      assert a !in Own(c.at);
      NodeMarked(mem, after, a, c.at);
      WayStays(mem, after, a, c.up, c.at);
    }
  }

  /** One round of a search, at a node of the way. */
  lemma WalkOn(mem: Bytes, at: BlockOffset, chunk: Bytes, child: BlockOffset, next: BlockOffset, key: Bytes, n: nat)
    requires Inside(mem, at, NODE_SIZE) && Describes(Stored(mem, at), chunk, child, next)
    ensures var m := MemoryOf(mem);
            && (Head(chunk) != Head(key) ==> Walk(m, at, key, n + 1) == Walk(m, next, key, n))
            && (chunk != [] && chunk <= key ==> Walk(m, at, key, n + 1) == Walk(m, child, key[|chunk|..], n))
  {
    hide Stored, RecordOf;
    NodeOfFlat(mem, at);
    ProperIsPlaced(at);
  }

  /** A search for a key that follows the way to a place arrives there. */
  lemma {:induction false} WalkDown(mem: Bytes, c: Ctx, t: Tree, key: Bytes, depth: nat, n: nat)
    requires OnWay(mem, c, Pointer(t)) && depth <= |key| && Follows(c, key, depth)
    ensures Walk(MemoryOf(mem), Pointer(Plug(c, t)), key, n + Rounds(c)) ==
            Walk(MemoryOf(mem), Pointer(t), key[depth..], n)
  {
    hide Stored, Describes, Walk;
    match c
    case Top =>
      assert key[0..] == key;
    case NextOf(at, chunk, child, up) =>
      WalkDown(mem, up, Node(at, chunk, child, t), key, depth, n + 1);
      WalkOn(mem, at, chunk, Pointer(child), Pointer(t), key[depth..], n);
    case ChildOf(at, chunk, next, up) =>
      var whole := key[depth - |chunk|..];
      assert whole == chunk + key[depth..];
      assert whole[|chunk|..] == key[depth..];
      WalkDown(mem, up, Node(at, chunk, t, next), key, depth - |chunk|, n + 1);
      WalkOn(mem, at, chunk, Pointer(t), Pointer(next), whole, n);
  }

  /** Where the node lies in the trie. */
  lemma {:induction false} FindChunk(c: Ctx, t: Tree, a: int) returns (c': Ctx, hole: Tree)
    requires Sound(c, t) && ChunkIn(t, a) && (c.Top? || Along(OnSpine(c), t))
    ensures Plug(c', hole) == Plug(c, t) && Sound(c', hole) && (c'.Top? || Along(OnSpine(c'), hole))
    ensures hole.Node? && hole.chunk != [] && Linear(hole.at) == a
    decreases t
  {
    hide Apart, Linear;
    c', hole := c, t;
    if t.chunk == [] || Linear(t.at) != a {
      if ChunkIn(t.next, a) {
        NextApart(c, t);
        NextShaped(c, t);
        c', hole := FindChunk(NextOf(t.at, t.chunk, t.child, c), t.next, a);
      } else {
        ChildApart(c, t);
        ChildShaped(c, t);
        c', hole := FindChunk(ChildOf(t.at, t.chunk, t.next, c), t.child, a);
      }
    }
  }

  /** A list all of whose nodes lead to values has one. */
  lemma {:induction false} SomeValue(t: Tree) returns (key: Bytes)
    requires t.Node? && Full(t)
    ensures Lookup(t, key).Some?
  {
    if t.chunk == [] {
      key := [];
      assert key[0..] == [];
    } else {
      var rest := SomeValue(t.child);
      key := t.chunk + rest;
      assert key[|t.chunk|..] == rest;
    }
  }

  /** At the marked node the search goes to the next one, and the search of a key that ends here
      takes what is below the node for a value. */
  lemma AtTheMark(mem: Bytes, after: Bytes, a: nat, hole: Tree, key: Bytes, n: nat)
    requires Written(mem, after, a, [MARK]) && hole.Node? && Repr(mem, hole) && Shape(hole) && Separate(hole)
    requires hole.chunk != [] && Linear(hole.at) == a && (key == [] ==> Unended(hole))
    ensures Walk(MemoryOf(after), hole.at, key, n + 1) ==
            if key == [] then Throws else Walk(MemoryOf(after), Pointer(hole.next), key, n)
  {
    hide Written, Stored, RecordOf, ValueOf, Separate;
    ProperIsPlaced(hole.at);
    NodeMarked(mem, after, a, hole.at);
    NodeOfFlat(after, hole.at);
    if key == [] {
      if hole.child.Node? { NodeIsNoValue(mem, after, a, hole); } else { NoValue(MemoryOf(after)); }
    }
  }

  /** The list below the node does not begin with an end of key. */
  predicate Unended(hole: Tree)
    requires hole.Node?
  {
    hole.child.Node? ==> hole.child.chunk != []
  }

  lemma NodeIsNoValue(mem: Bytes, after: Bytes, a: nat, hole: Tree)
    requires Written(mem, after, a, [MARK]) && hole.Node? && Repr(mem, hole) && Separate(hole)
    requires hole.child.Node? && Unended(hole) && Linear(hole.at) == a
    ensures ValueOf(MemoryOf(after), hole.child.at) == Throws
  {
    hide Range;
    var at := hole.child.at;
    ProperIsPlaced(hole.at);
    ProperIsPlaced(at);
    assert Linear(at) in Footprint(hole.child) && a in Own(hole.at);
    assert mem[Linear(at)..Linear(at) + 32][0] == mem[Linear(at)];
    RangeOfFlat(after, Linear(at), 1);
    MarkedSlice(mem, after, a, Linear(at), 1);
  }

  lemma {:induction false} RootAround(c: Ctx)
    ensures Interval(0, 32) <= Around(c)
  {
    if !c.Top? { RootAround(c.up); }
  }

  /** The way to the marked node is not marked. */
  lemma WayToTheMark(mem: Bytes, after: Bytes, a: nat, c: Ctx, hole: Tree)
    requires Written(mem, after, a, [MARK]) && Repr(mem, Plug(c, hole)) && Apart(c, hole)
    requires hole.Node? && Linear(hole.at) == a
    ensures Repr(mem, hole) && OnWay(after, c, hole.at) && a !in Interval(0, 32)
  {
    hide Written, Stored, OnWay, Separate, SeparateAround;
    PlugOnWay(mem, c, hole);
    ProperIsPlaced(hole.at);
    assert a in Own(hole.at);
    RootAround(c);
    WayStays(mem, after, a, c, hole.at);
  }

  /** The search in the marked memory, up to the marked node and one round further. */
  lemma ReadMarked(mem: Bytes, after: Bytes, a: nat, top: Tree, c: Ctx, hole: Tree, rest: Bytes, n: nat)
    requires Written(mem, after, a, [MARK])
    requires Inside(mem, ROOT, NODE_SIZE) && Describes(Stored(mem, ROOT), [], EMPTY, Pointer(top))
    requires Repr(mem, top) && top == Plug(c, hole) && Sound(c, hole) && Head(rest) !in Taken(c)
    requires hole.Node? && hole.chunk != [] && Linear(hole.at) == a && (rest == [] ==> Unended(hole))
    ensures ReadKey(MemoryOf(after), PathTo(c) + rest, n + 1 + Rounds(c)) ==
            if rest == [] then Throws else Walk(MemoryOf(after), Pointer(hole.next), rest, n)
  {
    hide Written, Stored, RecordOf, Walk, Repr, Separate, OnWay, Follows, Taken, Shape, ShapeCtx, FullCtx, FullRest,
      SeparateAround, Around, Footprint, Plug;
    var key, depth := PathTo(c) + rest, |PathTo(c)|;
    assert key[depth..] == rest;
    FollowsPath(c, rest);
    WayToTheMark(mem, after, a, c, hole);
    NodeMarked(mem, after, a, ROOT);
    NodeOfFlat(after, ROOT);
    WalkDown(after, c, hole, key, depth, n + 1);
    AtTheMark(mem, after, a, hole, rest, n);
  }

  /** A search that no longer gives what it gave: of the key that ends before the marked node, or if
      that ends earlier in the list, of a key that leads through the node. */
  lemma MarkHarms(mem: Bytes, after: Bytes, a: nat, end: nat, free: set<int>, lost: set<int>, top: Tree)
    returns (key: Bytes, n: nat)
    requires Written(mem, after, a, [MARK]) && |after| == |mem| <= LIMIT
    requires TrieAt(mem, end, free, lost, top) && ChunkIn(top, a)
    ensures ReadKey(MemoryOf(after), key, n) != ReadKey(MemoryOf(mem), key, n)
  {
    hide Written, Stored, Repr, Apart, Partition, Walk, ReadKey, Follows, Shaped, Used;
    var c, hole := FindChunk(Top, top, a);
    var rest := RestFor(c, hole);
    key, n := PathTo(c) + rest, end + Nodes(hole.next) + 2 + Rounds(c);
    ReadIsMeant(mem, end, free, lost, top, key, n);
    ReadMarked(mem, after, a, top, c, hole, rest, n - 1 - Rounds(c));
    if rest == [] {
      NotThrown(c, hole, top, key);
    } else {
      NotMissed(c, hole, top, rest);
      NextUnmarked(mem, after, a, c, hole, top);
      WalkIsSearch(after, hole.next, rest, n - 1 - Rounds(c));
    }
  }

  /** What to search for behind the way to a node. */
  lemma RestFor(c: Ctx, hole: Tree) returns (rest: Bytes)
    requires Shaped(c, hole) && (c.Top? || Along(OnSpine(c), hole)) && hole.Node? && hole.chunk != []
    ensures Head(rest) !in Taken(c) && (rest == [] ==> Unended(hole))
    ensures rest != [] ==> hole.chunk <= rest && Lookup(hole, rest).Some?
  {
    rest := [];
    if -1 in Taken(c) {
      var below := SomeValue(hole.child);
      rest := hole.chunk + below;
      assert rest[|hole.chunk|..] == below;
    } else if !Unended(hole) {
      rest := hole.chunk;
      EndBelow(c, hole);
      assert rest[|hole.chunk|..] == [];
    }
  }

  /** An end of key below a node has a value. */
  lemma EndBelow(c: Ctx, hole: Tree)
    requires Shaped(c, hole) && hole.Node? && hole.chunk != [] && !Unended(hole)
    ensures Lookup(hole.child, []).Some?
  {
    var none: Bytes := [];
    assert none[0..] == [];
    assert hole.child.child.Value?;
  }

  lemma NotThrown(c: Ctx, hole: Tree, top: Tree, key: Bytes)
    requires top == Plug(c, hole) && Shaped(c, hole) && Head([]) !in Taken(c)
    requires hole.Node? && hole.chunk != [] && key == PathTo(c) + []
    ensures Meant(top, key) != Throws
  {
    FollowsPath(c, []);
    if key == [] { EmptyKeyPath(c, hole); }
  }

  lemma NotMissed(c: Ctx, hole: Tree, top: Tree, rest: Bytes)
    requires top == Plug(c, hole) && Shaped(c, hole) && Head(rest) !in Taken(c)
    requires hole.Node? && hole.chunk != [] && hole.chunk <= rest && Lookup(hole, rest).Some?
    ensures Meant(top, PathTo(c) + rest) != Missing && Search(hole.next, rest) == Missing && Shape(hole.next)
  {
    var key, depth := PathTo(c) + rest, |PathTo(c)|;
    assert key[depth..] == rest;
    FollowsPath(c, rest);
    PlugLookup(c, hole, key, depth);
    SearchIsLookup(hole.next, rest, false);
    LookupHead(hole.next, rest);
  }

  lemma NextUnmarked(mem: Bytes, after: Bytes, a: nat, c: Ctx, hole: Tree, top: Tree)
    requires Written(mem, after, a, [MARK]) && Repr(mem, top) && top == Plug(c, hole) && Apart(c, hole)
    requires hole.Node? && Linear(hole.at) == a
    ensures Repr(mem, hole) && Repr(after, hole.next)
  {
    hide Written, Stored, OnWay;
    PlugOnWay(mem, c, hole);
    ProperIsPlaced(hole.at);
    assert a in Own(hole.at);
    WrittenAgrees(mem, after, a, [MARK], Footprint(hole.next));
    ReprFrame(mem, after, hole.next);
  }

  /** Marking an empty value keeps every answer if and only if no node that carries bytes of keys
      starts right behind the record. Behind the last byte of the memory the mark opens a new block. */
  lemma MarkKeepsAnswers(mem: Bytes, end: nat, free: set<int>, lost: set<int>, top: Tree, at: BlockOffset)
    requires TrieAt(mem, end, free, lost, top) && |mem| <= LIMIT && |mem| % 8184 == 0
    requires EmptyValueIn(top, Linear(at))
    ensures SameReadings(mem, WriteFlat(mem, Linear(at) + 9, [MARK])) <==> !ChunkIn(top, Linear(at) + 9)
  {
    hide TrieAt, WriteFlat, SameReadings, Written, ReadKey, Repr, ChunkIn, EmptyValueIn;
    TopRepr(mem, end, free, lost, top);
    EmptyValuePlace(mem, top, Linear(at));
    var a := Linear(at) + 9;
    var after := WriteFlat(mem, a, [MARK]);
    WriteFlatIsWritten(mem, a, [MARK]);
    if ChunkIn(top, a) {
      ChunkInside(mem, top, a);
      SameSize(mem, a, [MARK]);
      var key, n := MarkHarms(mem, after, a, end, free, lost, top);
      Differ(mem, after, key, n);
    } else {
      MarkHarmless(mem, after, a, end, free, lost, top);
    }
  }

  lemma Differ(mem: Bytes, after: Bytes, key: Bytes, n: nat)
    requires ReadKey(MemoryOf(after), key, n) != ReadKey(MemoryOf(mem), key, n)
    ensures !SameReadings(mem, after)
  {
  }

  lemma TopRepr(mem: Bytes, end: nat, free: set<int>, lost: set<int>, top: Tree)
    requires TrieAt(mem, end, free, lost, top)
    ensures Repr(mem, top)
  {
  }

  lemma {:induction false} EmptyValuePlace(mem: Bytes, t: Tree, a: int)
    requires Repr(mem, t) && EmptyValueIn(t, a)
    ensures 0 <= a && a + 9 <= |mem|
  {
    hide Stored, EncodeValue;
    if t.Node? {
      if EmptyValueIn(t.child, a) { EmptyValuePlace(mem, t.child, a); } else { EmptyValuePlace(mem, t.next, a); }
    }
  }

  lemma {:induction false} ChunkInside(mem: Bytes, t: Tree, a: int)
    requires Repr(mem, t) && ChunkIn(t, a)
    ensures a + 32 <= |mem|
  {
    hide Stored;
    if ChunkIn(t.child, a) { ChunkInside(mem, t.child, a); } else if ChunkIn(t.next, a) { ChunkInside(mem, t.next, a); }
  }

  /** Records one after the other. */
  function Joined(parts: seq<Bytes>): Bytes {
    if parts == [] then [] else Joined(parts[..|parts| - 1]) + parts[|parts| - 1]
  }

  /** Each record lies where those before it end. */
  lemma {:induction false} JoinedAt(parts: seq<Bytes>, i: nat)
    requires i < |parts|
    ensures |Joined(parts[..i])| + |parts[i]| <= |Joined(parts)|
    ensures Joined(parts)[|Joined(parts[..i])|..|Joined(parts[..i])| + |parts[i]|] == parts[i]
    ensures |Joined(parts[..i + 1])| == |Joined(parts[..i])| + |parts[i]|
  {
    var front := parts[..|parts| - 1];
    assert parts[..i + 1][..i] == parts[..i];
    if i < |parts| - 1 {
      JoinedAt(front, i);
      assert front[..i] == parts[..i];
    } else {
      assert parts[..i] == front;
      assert parts[..i + 1] == parts;
    }
  }

  function Off(a: nat): BlockOffset { BlockOffset(0, 8 + a) }

  /** A node whose chunk is this text. */
  function Rec(chunk: Bytes, child: BlockOffset, next: BlockOffset): NodeRecord
    requires |chunk| <= 15
  {
    NodeRecord(false, false, |chunk|, next, child, chunk + Zeros(15 - |chunk|))
  }

  /** The records of a store after: put of `a` with one byte, delete of `a`, put of `b` with 24 bytes
      into the space of that value and its node, put of `c` with no bytes into the nine that are left
      before the node of `a`, and put of `a` again. */
  function Run(v: Bytes, y: byte): seq<Bytes> {
    [EncodeNode(Rec([], EMPTY, Off(74))),
     EncodeValue(v),
     EncodeValue([]),
     EncodeNode(Rec([97], Off(244), Off(138))),
     EncodeNode(Rec([], Off(32), EMPTY)),
     EncodeNode(Rec([98], Off(106), Off(202))),
     EncodeNode(Rec([], Off(65), EMPTY)),
     EncodeNode(Rec([99], Off(170), EMPTY)),
     EncodeValue([y]),
     EncodeNode(Rec([], Off(234), EMPTY))]
  }

  function RunTree(v: Bytes, y: byte): Tree {
    var c := Node(Off(202), [99], Node(Off(170), [], Value(Off(65), []), Leaf), Leaf);
    var b := Node(Off(138), [98], Node(Off(106), [], Value(Off(32), v), Leaf), c);
    Node(Off(74), [97], Node(Off(244), [], Value(Off(234), [y]), Leaf), b)
  }

  function RunMemory(v: Bytes, y: byte): Bytes {
    Joined(Run(v, y) + [Zeros(7908)])
  }

  /** Record number `i` of the run lies at this address. */
  ghost predicate RunAt(v: Bytes, y: byte, i: nat, a: nat) {
    && i < |Run(v, y)| && a + |Run(v, y)[i]| <= |RunMemory(v, y)|
    && RunMemory(v, y)[a..a + |Run(v, y)[i]|] == Run(v, y)[i]
  }

  lemma RunStep(v: Bytes, y: byte, i: nat, a: nat)
    requires i < 10 && |Joined((Run(v, y) + [Zeros(7908)])[..i])| == a
    ensures RunAt(v, y, i, a) && |Joined((Run(v, y) + [Zeros(7908)])[..i + 1])| == a + |Run(v, y)[i]|
  {
    hide Joined, EncodeNode, EncodeValue, Run;
    assert |Run(v, y)| == 10 by { RunCount(v, y); }
    var parts := Run(v, y) + [Zeros(7908)];
    JoinedAt(parts, i);
    assert parts[i] == Run(v, y)[i];
  }

  lemma RunCount(v: Bytes, y: byte)
    ensures |Run(v, y)| == 10
  {
  }

  lemma RunLayout(v: Bytes, y: byte)
    requires |v| == 24
    ensures |RunMemory(v, y)| == 8184
    ensures RunAt(v, y, 0, 0) && RunAt(v, y, 1, 32) && RunAt(v, y, 2, 65) && RunAt(v, y, 3, 74)
    ensures RunAt(v, y, 4, 106) && RunAt(v, y, 5, 138) && RunAt(v, y, 6, 170) && RunAt(v, y, 7, 202)
    ensures RunAt(v, y, 8, 234) && RunAt(v, y, 9, 244)
  {
    hide Joined, EncodeNode, EncodeValue, RunAt;
    var parts := Run(v, y) + [Zeros(7908)];
    assert Joined(parts[..0]) == [] by { NoneJoined(parts[..0]); }
    RunStep(v, y, 0, 0);
    RunStep(v, y, 1, 32);
    RunStep(v, y, 2, 65);
    RunStep(v, y, 3, 74);
    RunStep(v, y, 4, 106);
    RunStep(v, y, 5, 138);
    RunStep(v, y, 6, 170);
    RunStep(v, y, 7, 202);
    RunStep(v, y, 8, 234);
    RunStep(v, y, 9, 244);
    JoinedAt(parts, 10);
    assert parts[..11] == parts;
  }

  lemma NoneJoined(parts: seq<Bytes>)
    requires parts == []
    ensures Joined(parts) == []
  {
  }

  /** A record of the run, linked to represented trees, represents a node. */
  lemma RunNode(mem: Bytes, a: nat, chunk: Bytes, child: Tree, next: Tree)
    requires |chunk| <= 15 && a + 32 <= |mem| && a <= 8184
    requires Fits32(Pointer(child)) && Fits32(Pointer(next))
    requires mem[a..a + 32] == EncodeNode(Rec(chunk, Pointer(child), Pointer(next)))
    requires Repr(mem, child) && Repr(mem, next)
    ensures Repr(mem, Node(Off(a), chunk, child, next))
  {
    hide EncodeNode, Repr, Stored;
    var rec := Rec(chunk, Pointer(child), Pointer(next));
    assert rec.keyChunk[..rec.size] == chunk;
    ReprWritten(mem, Off(a), rec, chunk, child, next);
  }

  lemma RunValue(mem: Bytes, a: nat, v: Bytes)
    requires a + 9 + |v| <= |mem| && a <= 8184 && mem[a..a + 9 + |v|] == EncodeValue(v)
    ensures Repr(mem, Value(Off(a), v))
  {
    ValueWritten(mem, Off(a), v);
  }

  lemma RunRepr(v: Bytes, y: byte)
    requires |v| == 24
    ensures Repr(RunMemory(v, y), RunTree(v, y))
  {
    hide EncodeNode, EncodeValue, RunMemory, Stored, ValueAt;
    RunLayout(v, y);
    var mem := RunMemory(v, y);
    var ec, eb, ea := Value(Off(65), []), Value(Off(32), v), Value(Off(234), [y]);
    RunValue(mem, 65, []);
    RunValue(mem, 32, v);
    RunValue(mem, 234, [y]);
    RunNode(mem, 170, [], ec, Leaf);
    RunNode(mem, 202, [99], Node(Off(170), [], ec, Leaf), Leaf);
    var c := Node(Off(202), [99], Node(Off(170), [], ec, Leaf), Leaf);
    RunNode(mem, 106, [], eb, Leaf);
    RunNode(mem, 138, [98], Node(Off(106), [], eb, Leaf), c);
    var b := Node(Off(138), [98], Node(Off(106), [], eb, Leaf), c);
    RunNode(mem, 244, [], ea, Leaf);
    RunNode(mem, 74, [97], Node(Off(244), [], ea, Leaf), b);
  }

  /** The addresses of one key of the run: its node, the node that ends it, its value. */
  lemma RunKey(node: nat, chunk: Bytes, end: nat, value: nat, v: Bytes, next: Tree)
    requires node + 32 <= end || end + 32 <= node
    requires node + 32 <= value || value + 9 + |v| <= node
    requires end + 32 <= value || value + 9 + |v| <= end
    requires Separate(next) && Footprint(next) !! Interval(node, 32) && Footprint(next) !! Interval(end, 32)
    requires Footprint(next) !! Interval(value, 9 + |v|)
    ensures var t := Node(Off(node), chunk, Node(Off(end), [], Value(Off(value), v), Leaf), next);
            && Footprint(t) == Interval(node, 32) + Interval(end, 32) + Interval(value, 9 + |v|) + Footprint(next)
            && Separate(t)
  {
    hide Interval;
    var e, w := Node(Off(end), [], Value(Off(value), v), Leaf), Value(Off(value), v);
    assert Footprint(w) == Interval(value, 9 + |v|) && Separate(w);
    assert Footprint(e) == Interval(end, 32) + Interval(value, 9 + |v|) && Separate(e);
  }

  lemma RunSeparate(v: Bytes, y: byte)
    requires |v| == 24
    ensures Separate(RunTree(v, y)) && Footprint(RunTree(v, y)) == Interval(32, 244)
  {
    hide Separate, Footprint, Interval;
    var t := RunTree(v, y);
    assert Separate(Leaf) && Footprint(Leaf) == {} by { LeafParts(); }
    RunKey(202, [99], 170, 65, [], Leaf);
    RunKey(138, [98], 106, 32, v, t.next.next);
    RunKey(74, [97], 244, 234, [y], t.next);
    forall x ensures x in Footprint(t) <==> x in Interval(32, 244) { }
  }

  lemma LeafParts()
    ensures Separate(Leaf) && Footprint(Leaf) == {}
  {
  }

  /** The run leads to a memory that holds a trie, with the empty value of `c` at 65 and the node of
      `a` behind it. The deletion of `c` then loses `a`. */
  lemma EmptyValueLosesKey(v: Bytes, y: byte, n: nat)
    requires |v| == 24 && n > 8
    ensures var mem, top := RunMemory(v, y), RunTree(v, y);
            var after := WriteFlat(mem, 74, [MARK]);
            && TrieAt(mem, 276, {}, {}, top) && EmptyValueIn(top, 65) && ChunkIn(top, 74)
            && ReadKey(MemoryOf(mem), [97], n) == Found([y]) && ReadKey(MemoryOf(after), [97], n) == Missing
  {
    hide Repr, RunMemory, RunTree, WriteFlat, Walk, ReadKey, TrieAt, Plug, Lookup, Nodes, Search, EmptyValueIn, ChunkIn,
      Sound, Meant, Written;
    var mem, top := RunMemory(v, y), RunTree(v, y);
    RunTrie(v, y);
    RunMeans(v, y);
    ReadIsMeant(mem, 276, {}, {}, top, [97], n);
    WriteFlatIsWritten(mem, 74, [MARK]);
    SameSize(mem, 74, [MARK]);
    FirstLost(mem, WriteFlat(mem, 74, [MARK]), 74, top, n);
  }

  /** If the first node of the top list is marked, a search for its key goes on behind it. */
  lemma FirstLost(mem: Bytes, after: Bytes, a: nat, top: Tree, n: nat)
    requires Written(mem, after, a, [MARK]) && |after| <= LIMIT && TrieAt(mem, 276, {}, {}, top)
    requires top.Node? && top.chunk != [] && Linear(top.at) == a && n > 1 + Nodes(top.next)
    ensures ReadKey(MemoryOf(after), [97], n) == Search(top.next, [97])
  {
    hide Repr, Walk, ReadKey, TrieAt, Lookup, Nodes, Search, Sound, Written;
    RunParts(mem, top);
    assert PathTo(Top) + [97] == [97];
    ReadMarked(mem, after, a, top, Top, top, [97], n - 1);
    NextUnmarked(mem, after, a, Top, top, top);
    WalkIsSearch(after, top.next, [97], n - 1);
  }

  lemma RunParts(mem: Bytes, top: Tree)
    requires TrieAt(mem, 276, {}, {}, top) && top.Node?
    ensures Inside(mem, ROOT, NODE_SIZE) && Describes(Stored(mem, ROOT), [], EMPTY, Pointer(top))
    ensures Repr(mem, top) && top == Plug(Top, top) && Sound(Top, top) && Apart(Top, top) && Shape(top.next)
  {
    hide Repr, Stored, Describes, Apart, Partition;
  }

  lemma RunMeans(v: Bytes, y: byte)
    ensures var top := RunTree(v, y);
            && EmptyValueIn(top, 65) && ChunkIn(top, 74) && Meant(top, [97]) == Found([y])
            && top.Node? && top.chunk != [] && Linear(top.at) == 74
            && Search(top.next, [97]) == Missing && Nodes(top.next) == 4
  {
    var top := RunTree(v, y);
    var rest: Bytes := [97][|top.chunk|..];
    assert rest == [] && rest[0..] == [];
    assert Lookup(top.child, rest) == Lookup(top.child.child, rest[0..]) == Some([y]);
    assert EmptyValueIn(top.next.next, 65);
    assert Search(top.next.next, [97]) == Missing;
    assert Nodes(top.next.next.child) == 1 && Nodes(top.next.next) == 2 && Nodes(top.next.child) == 1;
  }

  lemma RunShaped(v: Bytes, y: byte)
    ensures Shaped(Top, RunTree(v, y))
  {
    var top := RunTree(v, y);
    assert Shape(top.next.next) && Heads(top.next.next) == {99} && Full(top.next.next);
    assert Shape(top.next) && Heads(top.next) == {98, 99} && Full(top.next);
    assert Shape(top) && Full(top.child) && Spine(top.child);
  }

  lemma RunTrie(v: Bytes, y: byte)
    requires |v| == 24
    ensures TrieAt(RunMemory(v, y), 276, {}, {}, RunTree(v, y)) && |RunMemory(v, y)| == 8184
  {
    hide Repr, RunMemory, Separate, Stored, Shaped, Describes;
    RunRepr(v, y);
    RunSeparate(v, y);
    RunRoot(v, y);
    RunShaped(v, y);
    assert Pointer(RunTree(v, y)) == Off(74);
    RunPartition(RunTree(v, y));
  }

  lemma RunPartition(t: Tree)
    requires Footprint(t) == Interval(32, 244) && Separate(t)
    ensures Apart(Top, t) && Partition(276, Used(Top, t), {}, {})
  {
    hide Separate, Footprint, Interval;
    assert Interval(0, 32) + Interval(32, 244) == Interval(0, 276);
  }

  lemma RunRoot(v: Bytes, y: byte)
    requires |v| == 24
    ensures |RunMemory(v, y)| == 8184 && Inside(RunMemory(v, y), ROOT, 32)
    ensures Describes(Stored(RunMemory(v, y), ROOT), [], EMPTY, Off(74))
  {
    hide RunMemory, EncodeNode;
    RunLayout(v, y);
    NodeRoundTrip(Rec([], EMPTY, Off(74)));
  }
}
