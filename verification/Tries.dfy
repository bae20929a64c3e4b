/** The trie as a tree: sibling lists of key chunks, and what they mean as a map. */
module Tries {
  import opened ByteCodec
  import opened Addressing

  const MAX_CHUNK := 15

  /** A list of siblings. `at` is where the node or the value record is stored, or EMPTY while a
      node has been created and not yet written. The node of the empty chunk ends a key: its child
      is the value. */
  datatype Tree =
    | Leaf
    | Value(at: BlockOffset, value: Bytes)
    | Node(at: BlockOffset, chunk: Bytes, child: Tree, next: Tree)

  /** The first byte, on which a search chooses among siblings; -1 at the end of the key. */
  function Head(k: Bytes): int {
    if k == [] then -1 else k[0]
  }

  /** What a search for `k` finds: the first sibling that shares its first byte decides. */
  function Lookup(t: Tree, k: Bytes): Option<Bytes> {
    match t
    case Leaf => None
    case Value(_, v) => if k == [] then Some(v) else None
    case Node(_, chunk, child, next) =>
      if Head(chunk) != Head(k) then Lookup(next, k)
      else if chunk <= k then Lookup(child, k[|chunk|..])
      else None
  }

  /** All pairs stored in a tree, wherever they are: the meaning that searching must agree with. */
  ghost function Pairs(t: Tree): set<(Bytes, Bytes)> {
    match t
    case Leaf => {}
    case Value(_, v) => {([], v)}
    case Node(_, chunk, child, next) => (set p | p in Pairs(child) :: (chunk + p.0, p.1)) + Pairs(next)
  }

  function Heads(t: Tree): set<int> {
    match t
    case Node(_, chunk, _, next) => {Head(chunk)} + Heads(next)
    case _ => {}
  }

  /** What a node may lead to: a non-empty value at the end of a key, a sibling list otherwise. */
  predicate ChildOk(chunk: Bytes, child: Tree) {
    if chunk == [] then child.Leaf? || child.Value? else Shape(child)
  }

  /** Siblings begin with different bytes, at most one of them ends a key, chunks are short. */
  predicate Shape(t: Tree) {
    match t
    case Leaf => true
    case Value(_, _) => false
    case Node(_, chunk, child, next) =>
      |chunk| <= MAX_CHUNK && Head(chunk) !in Heads(next) && Shape(next) &&
      if chunk == [] then child.Leaf? || child.Value? else Shape(child)
  }

  /** Every pair begins with one of the heads. */
  lemma {:induction false} PairsHead(t: Tree, p: (Bytes, Bytes))
    requires Shape(t) && p in Pairs(t)
    ensures Head(p.0) in Heads(t)
  {
    var Node(_, chunk, child, next) := t;
    if p in Pairs(next) {
      PairsHead(next, p);
    } else {
      var q :| q in Pairs(child) && p == (chunk + q.0, q.1);
    }
  }

  lemma {:induction false} LookupHead(t: Tree, k: Bytes)
    requires Shape(t) && Head(k) !in Heads(t)
    ensures Lookup(t, k) == None
  {
    if t.Node? { LookupHead(t.next, k); }
  }

  /** A search finds exactly the pairs of the tree. */
  lemma {:induction false} LookupFindsPairs(t: Tree, k: Bytes, v: Bytes)
    requires Shape(t)
    ensures Lookup(t, k) == Some(v) <==> (k, v) in Pairs(t)
  {
    match t
    case Leaf =>
    case Node(_, chunk, child, next) =>
      LookupFindsPairs(next, k, v);
      if (k, v) in Pairs(next) { PairsHead(next, (k, v)); }
      if chunk <= k {
        var rest := k[|chunk|..];
        assert chunk + rest == k;
        if chunk != [] { LookupFindsPairs(child, rest, v); }
        assert (k, v) in (set p | p in Pairs(child) :: (chunk + p.0, p.1)) <==> (rest, v) in Pairs(child) by {
          if (k, v) in (set p | p in Pairs(child) :: (chunk + p.0, p.1)) {
            var p :| p in Pairs(child) && (k, v) == (chunk + p.0, p.1);
            assert k[|chunk|..] == p.0;
          }
        }
      }
  }

  /** The place of a sibling list in a trie. `NextOf`: after this node; `ChildOf`: below it. */
  datatype Ctx =
    | Top
    | NextOf(at: BlockOffset, chunk: Bytes, child: Tree, up: Ctx)
    | ChildOf(at: BlockOffset, chunk: Bytes, next: Tree, up: Ctx)

  /** The list `t` put back in its place. */
  function Plug(c: Ctx, t: Tree): Tree {
    match c
    case Top => t
    case NextOf(at, chunk, child, up) => Plug(up, Node(at, chunk, child, t))
    case ChildOf(at, chunk, next, up) => Plug(up, Node(at, chunk, t, next))
  }

  /** A search for `key` arrives at the place `c` having matched `depth` bytes. */
  ghost predicate Follows(c: Ctx, key: Bytes, depth: nat)
    requires depth <= |key|
  {
    match c
    case Top => depth == 0
    case NextOf(_, chunk, _, up) => Head(chunk) != Head(key[depth..]) && Follows(up, key, depth)
    case ChildOf(_, chunk, _, up) =>
      0 < |chunk| <= depth && key[depth - |chunk|..depth] == chunk && Follows(up, key, depth - |chunk|)
  }

  /** `u` answers like `t`, except that key `k` now gives `v`. */
  ghost predicate Updates(t: Tree, u: Tree, k: Bytes, v: Option<Bytes>) {
    forall j :: Lookup(u, j) == if j == k then v else Lookup(t, j)
  }

  /** A change at one place of the trie is the same change of the whole. */
  lemma {:induction false} PlugUpdates(c: Ctx, t: Tree, u: Tree, key: Bytes, depth: nat, v: Option<Bytes>)
    requires depth <= |key| && Follows(c, key, depth)
    requires Updates(t, u, key[depth..], v)
    ensures Updates(Plug(c, t), Plug(c, u), key, v)
  {
    match c
    case Top =>
    case NextOf(at, chunk, child, up) =>
      PlugUpdates(up, Node(at, chunk, child, t), Node(at, chunk, child, u), key, depth, v);
    case ChildOf(at, chunk, next, up) =>
      var whole := key[depth - |chunk|..];
      assert whole == chunk + key[depth..];
      forall j ensures Lookup(Node(at, chunk, u, next), j) ==
                       if j == whole then v else Lookup(Node(at, chunk, t, next), j) {
        if chunk <= j { assert j == chunk + j[|chunk|..]; }
      }
      PlugUpdates(up, Node(at, chunk, t, next), Node(at, chunk, u, next), key, depth - |chunk|, v);
  }

  lemma {:induction false} PlugLookup(c: Ctx, t: Tree, key: Bytes, depth: nat)
    requires depth <= |key| && Follows(c, key, depth)
    ensures Lookup(Plug(c, t), key) == Lookup(t, key[depth..])
  {
    match c
    case Top =>
      assert key[0..] == key;
    case NextOf(at, chunk, child, up) =>
      PlugLookup(up, Node(at, chunk, child, t), key, depth);
    case ChildOf(at, chunk, next, up) =>
      var whole := key[depth - |chunk|..];
      assert whole == chunk + key[depth..];
      assert whole[|chunk|..] == key[depth..];
      PlugLookup(up, Node(at, chunk, t, next), key, depth - |chunk|);
  }

  /** Where the value of a key is stored. */
  function PlaceOf(t: Tree, k: Bytes): (r: Option<BlockOffset>)
    ensures r.Some? <==> Lookup(t, k).Some?
  {
    match t
    case Leaf => None
    case Value(at, _) => if k == [] then Some(at) else None
    case Node(_, chunk, child, next) =>
      if Head(chunk) != Head(k) then PlaceOf(next, k)
      else if chunk <= k then PlaceOf(child, k[|chunk|..])
      else None
  }

  lemma {:induction false} PlugPlaceOf(c: Ctx, t: Tree, key: Bytes, depth: nat)
    requires depth <= |key| && Follows(c, key, depth)
    ensures PlaceOf(Plug(c, t), key) == PlaceOf(t, key[depth..])
  {
    match c
    case Top =>
      assert key[0..] == key;
    case NextOf(at, chunk, child, up) =>
      PlugPlaceOf(up, Node(at, chunk, child, t), key, depth);
    case ChildOf(at, chunk, next, up) =>
      var whole := key[depth - |chunk|..];
      assert whole == chunk + key[depth..];
      assert whole[|chunk|..] == key[depth..];
      PlugPlaceOf(up, Node(at, chunk, t, next), key, depth - |chunk|);
  }

  /** The heads of the siblings before a place. */
  function Taken(c: Ctx): set<int> {
    match c
    case NextOf(_, chunk, _, up) => {Head(chunk)} + Taken(up)
    case _ => {}
  }

  predicate ShapeCtx(c: Ctx) {
    match c
    case Top => true
    case NextOf(_, chunk, child, up) =>
      |chunk| <= MAX_CHUNK && ChildOk(chunk, child) && Head(chunk) !in Taken(up) && ShapeCtx(up)
    case ChildOf(_, chunk, next, up) =>
      0 < |chunk| <= MAX_CHUNK && Shape(next) && Head(chunk) !in Heads(next) &&
      ({Head(chunk)} + Heads(next)) !! Taken(up) && ShapeCtx(up)
  }

  lemma {:induction false} PlugShape(c: Ctx, t: Tree)
    requires ShapeCtx(c) && Shape(t) && Heads(t) !! Taken(c)
    ensures Shape(Plug(c, t))
  {
    match c
    case Top =>
    case NextOf(at, chunk, child, up) => PlugShape(up, Node(at, chunk, child, t));
    case ChildOf(at, chunk, next, up) => PlugShape(up, Node(at, chunk, t, next));
  }

  /** A search leaves behind the siblings with other heads. */
  lemma {:induction false} FollowsTaken(c: Ctx, key: Bytes, depth: nat)
    requires depth <= |key| && Follows(c, key, depth)
    ensures Head(key[depth..]) !in Taken(c)
  {
    if c.NextOf? { FollowsTaken(c.up, key, depth); }
  }

  /** Splitting the first node of a list after `n` bytes; the second part goes to `at`. */
  function SplitAt(t: Tree, n: nat, at: BlockOffset): Tree
    requires t.Node? && n <= |t.chunk|
  {
    Node(t.at, t.chunk[..n], Node(at, t.chunk[n..], t.child, Leaf), t.next)
  }

  /** Splitting changes the answer to no search. */
  lemma SplitKeepsLookup(t: Tree, n: nat, at: BlockOffset, k: Bytes)
    requires t.Node? && 0 < n < |t.chunk|
    ensures Lookup(SplitAt(t, n, at), k) == Lookup(t, k)
  {
    var chunk := t.chunk;
    assert chunk == chunk[..n] + chunk[n..];
    if Head(chunk) == Head(k) && chunk[..n] <= k {
      var rest := k[n..];
      assert k == chunk[..n] + rest;
      assert chunk[n..] <= rest <==> chunk <= k;
      if chunk <= k {
        assert rest[|chunk| - n..] == k[|chunk|..];
      } else {
        assert Lookup(Leaf, rest) == None;
      }
    }
  }

  /** Splitting keeps the stored pairs and the shape of the list. */
  lemma SplitKeepsPairs(t: Tree, n: nat, at: BlockOffset)
    requires Shape(t) && t.Node? && 0 < n < |t.chunk|
    ensures Shape(SplitAt(t, n, at)) && Heads(SplitAt(t, n, at)) == Heads(t)
    ensures Pairs(SplitAt(t, n, at)) == Pairs(t)
  {
    var u := SplitAt(t, n, at);
    forall p | true ensures p in Pairs(u) <==> p in Pairs(t) {
      LookupFindsPairs(u, p.0, p.1);
      LookupFindsPairs(t, p.0, p.1);
      SplitKeepsLookup(t, n, at, p.0);
    }
  }

  function Siblings(t: Tree): nat {
    if t.Node? then 1 + Siblings(t.next) else 0
  }

  /** Every node leads to a value. */
  predicate Full(t: Tree) {
    match t
    case Node(_, chunk, child, next) => (if chunk == [] then child.Value? else child.Node? && Full(child)) && Full(next)
    case _ => true
  }

  /** As Full, but the chain of first nodes may lead nowhere: it is what remains of the head of the
      top list, which is never reclaimed, after it has been split. */
  predicate Spine(t: Tree) {
    t.Node? ==> (if t.chunk == [] then t.child.Value? else Spine(t.child)) && Full(t.next)
  }

  predicate Along(spine: bool, t: Tree) {
    if spine then Spine(t) else Full(t)
  }

  lemma {:induction false} FullIsSpine(t: Tree)
    requires Full(t)
    ensures Spine(t)
  {
    if t.Node? { FullIsSpine(t.child); }
  }

  /** The place is reached through first nodes only. */
  predicate OnSpine(c: Ctx) {
    match c
    case Top => true
    case NextOf(_, _, _, _) => false
    case ChildOf(_, _, _, up) => OnSpine(up)
  }

  /** All but the first node of the list is as it should be. */
  predicate FullRest(spine: bool, t: Tree) {
    t.Node? ==> (t.chunk != [] ==> Along(spine, t.child)) && Full(t.next)
  }

  /** The same around a place; only the first node of the top list may end a key without a value. */
  predicate FullCtx(c: Ctx) {
    match c
    case Top => true
    case NextOf(_, chunk, child, up) =>
      && (if chunk == [] then child.Value? || up.Top? else Along(OnSpine(up), child) && (child.Node? || OnSpine(up)))
      && FullCtx(up)
    case ChildOf(_, _, next, up) => Full(next) && FullCtx(up)
  }

  /** Dropping a node that leads nowhere changes the answer to no search. */
  lemma DropKeepsLookup(t: Tree, k: Bytes)
    requires Shape(t) && t.Node? && t.child.Leaf?
    ensures Lookup(t.next, k) == Lookup(t, k)
  {
    if Head(t.chunk) == Head(k) { LookupHead(t.next, k); }
  }

  /** Which key a store was first given. */
  datatype First = NoKey | FirstKey(isEmpty: bool)

  /** The first node of the top list is never reclaimed and never changes between ending a key and
      not ending one: it tells whether the first key ever put was the empty one. */
  function HeadOf(top: Tree): First {
    if top.Node? then FirstKey(top.chunk == []) else NoKey
  }

  /** A change that keeps the head of a top list, or is made below or after it, keeps the head. */
  lemma {:induction false} PlugHead(c: Ctx, t: Tree, u: Tree)
    requires c.Top? ==> HeadOf(t) == HeadOf(u)
    ensures HeadOf(Plug(c, t)) == HeadOf(Plug(c, u))
    ensures t.Node? || !c.Top? ==> HeadOf(Plug(c, t)) != NoKey
  {
    match c
    case Top =>
    case NextOf(at, chunk, child, up) => PlugHead(up, Node(at, chunk, child, t), Node(at, chunk, child, u));
    case ChildOf(at, chunk, next, up) => PlugHead(up, Node(at, chunk, t, next), Node(at, chunk, u, next));
  }

  /** The first node of the top list ends a key and has lost its value. It is never reclaimed, and
      a get or delete of the empty key throws at it. */
  predicate DeadHead(top: Tree) {
    top.Node? && top.chunk == [] && top.child.Leaf?
  }

  /** It is so exactly when the empty key was put first and has no value. */
  lemma DeadHeadIff(top: Tree)
    requires Shape(top)
    ensures DeadHead(top) <==> HeadOf(top) == FirstKey(true) && Lookup(top, []) == None
  {
  }

  /** A search for the empty key goes past a top list only by nodes that do not end a key. */
  lemma {:induction false} EmptyKeyPath(c: Ctx, hole: Tree)
    requires Follows(c, [], 0) && (c.Top? ==> !DeadHead(hole))
    requires (hole.Node? ==> hole.chunk != [] || !hole.child.Leaf? || !c.Top?)
    ensures !DeadHead(Plug(c, hole))
  {
    match c
    case Top =>
    case NextOf(at, chunk, child, up) => EmptyKeyPath(up, Node(at, chunk, child, hole));
  }

  /** A put of `key` meets a node that shares a part of its chunk with the key, but not all. */
  predicate Splits(t: Tree, key: Bytes)
    decreases t
  {
    t.Node? &&
    if t.chunk != [] && key != [] && t.chunk[0] == key[0]
    then t.chunk <= key ==> Splits(t.child, key[|t.chunk|..])
    else Splits(t.next, key)
  }

  /** Some node spells a string that begins with `p`. */
  predicate Touches(t: Tree, p: Bytes)
    decreases t
  {
    t.Node? && (p <= t.chunk || (t.chunk <= p && Touches(t.child, p[|t.chunk|..])) || Touches(t.next, p))
  }

  /** A split is made for a string in the trie that begins like the key and is no part of it. */
  lemma {:induction false} SplitsTouch(t: Tree, key: Bytes) returns (p: Bytes)
    requires Splits(t, key)
    ensures Touches(t, p) && !(p <= key) && p != [] && key != [] && p[0] == key[0]
    decreases t
  {
    if t.chunk != [] && key != [] && t.chunk[0] == key[0] {
      if t.chunk <= key {
        var q := SplitsTouch(t.child, key[|t.chunk|..]);
        p := t.chunk + q;
        assert p[|t.chunk|..] == q;
      } else {
        p := t.chunk;
      }
    } else {
      p := SplitsTouch(t.next, key);
    }
  }

  /** Every string that `u` spells is spelled by `t`, or is a part of `key`. */
  ghost predicate OldPaths(t: Tree, u: Tree, key: Bytes) {
    forall p :: Touches(u, p) ==> Touches(t, p) || p <= key
  }

  ghost predicate NoNewPaths(t: Tree, u: Tree) {
    forall p :: Touches(u, p) ==> Touches(t, p)
  }

  lemma {:induction false} PlugOldPaths(c: Ctx, t: Tree, u: Tree, key: Bytes, depth: nat)
    requires depth <= |key| && Follows(c, key, depth) && OldPaths(t, u, key[depth..])
    ensures OldPaths(Plug(c, t), Plug(c, u), key)
  {
    match c
    case Top =>
    case NextOf(at, chunk, child, up) =>
      PlugOldPaths(up, Node(at, chunk, child, t), Node(at, chunk, child, u), key, depth);
    case ChildOf(at, chunk, next, up) =>
      var from := depth - |chunk|;
      var k := key[from..];
      forall p | Touches(Node(at, chunk, u, next), p) ensures Touches(Node(at, chunk, t, next), p) || p <= k {
        if chunk <= p && Touches(u, p[|chunk|..]) && p[|chunk|..] <= key[depth..] {
          assert k == chunk + key[depth..] && p == chunk + p[|chunk|..];
        }
      }
      PlugOldPaths(up, Node(at, chunk, t, next), Node(at, chunk, u, next), key, from);
  }

  lemma {:induction false} PlugNoNewPaths(c: Ctx, t: Tree, u: Tree)
    requires NoNewPaths(t, u)
    ensures NoNewPaths(Plug(c, t), Plug(c, u))
  {
    match c
    case Top =>
    case NextOf(at, chunk, child, up) => PlugNoNewPaths(up, Node(at, chunk, child, t), Node(at, chunk, child, u));
    case ChildOf(at, chunk, next, up) => PlugNoNewPaths(up, Node(at, chunk, t, next), Node(at, chunk, u, next));
  }

  lemma PathsInTurn(t: Tree, u: Tree, v: Tree, key: Bytes)
    requires OldPaths(t, u, key)
    ensures NoNewPaths(u, v) ==> OldPaths(t, v, key)
    ensures OldPaths(u, v, key) ==> OldPaths(t, v, key)
  {
  }

  /** A split spells no new string. */
  lemma SplitNoNewPaths(t: Tree, n: nat, second: BlockOffset)
    requires t.Node? && n <= |t.chunk|
    ensures NoNewPaths(t, SplitAt(t, n, second))
  {
    var u := SplitAt(t, n, second);
    forall p | Touches(u, p) ensures Touches(t, p) { SplitPath(t, n, second, p); }
  }

  lemma SplitPath(t: Tree, n: nat, second: BlockOffset, p: Bytes)
    requires t.Node? && n <= |t.chunk| && Touches(SplitAt(t, n, second), p)
    ensures Touches(t, p)
  {
    var lower := Node(second, t.chunk[n..], t.child, Leaf);
    assert t.chunk == t.chunk[..n] + t.chunk[n..];
    if !(p <= t.chunk[..n]) && !Touches(t.next, p) {
      var q := p[n..];
      assert SplitAt(t, n, second).child == lower;
      assert p == t.chunk[..n] + q && Touches(lower, q) && !Touches(lower.next, q);
      if q <= t.chunk[n..] {
        assert p == t.chunk[..|p|];
      } else {
        assert p[..|t.chunk|] == t.chunk && q[|t.chunk| - n..] == p[|t.chunk|..];
      }
    }
  }

  /** A key that shares `n` bytes of a chunk splits the node there, and then splits nothing more. */
  lemma SplitOnce(t: Tree, n: nat, second: BlockOffset, key: Bytes)
    requires t.Node? && 0 < n < |t.chunk| && n <= |key| && t.chunk[..n] == key[..n]
    requires (n < |key| ==> t.chunk[n] != key[n])
    ensures Splits(t, key) && !Splits(SplitAt(t, n, second), key)
  {
    var lower := Node(second, t.chunk[n..], t.child, Leaf);
    assert t.chunk[..n][0] == key[..n][0];
    assert n < |key| ==> key[n..][0] == key[n] && lower.chunk[0] == t.chunk[n];
    assert !Splits(lower, key[n..]);
  }

  /** The nodes around a place that have not been written yet. */
  function Unplaced(c: Ctx): nat {
    match c
    case Top => 0
    case NextOf(at, _, _, up) => Unplaced(up) + if at == EMPTY then 1 else 0
    case ChildOf(at, _, _, up) => Unplaced(up) + if at == EMPTY then 1 else 0
  }
}
