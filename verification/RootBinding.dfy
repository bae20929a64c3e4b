/** A root id stands for one map only: two stores that disagree about it hold a hash collision. */
module RootBinding {
  import opened ByteCodec
  import opened Addressing
  import opened DataNodes
  import opened SecureBlockIo
  import opened BlockCache
  import opened FlatMemory
  import FreeSpace
  import opened Tries
  import opened TrieHeap
  import opened TrieOps
  import opened TrieMap
  import opened TrieRead
  import opened StateNodes
  import opened StateContents
  import opened StateKeyValue

  /** Trees of the same kind: two lists of nodes, or two places for a value. */
  predicate SameKind(t: Tree, u: Tree) {
    (Shape(t) && Shape(u)) || (!t.Node? && !u.Node?)
  }

  lemma ValueUnique(mem: Bytes, at: BlockOffset, v: Bytes, w: Bytes)
    requires ValueAt(mem, at, v) && ValueAt(mem, at, w) && |mem| <= MAX_BLOCKS * 8184
    ensures v == w
  {
    hide ValueAt;
    ValueParts(mem, at, v);
    ValueParts(mem, at, w);
  }

  /** A memory and an offset determine the tree. */
  lemma {:induction false} ReprUnique(mem: Bytes, t: Tree, u: Tree)
    requires Repr(mem, t) && Repr(mem, u) && Pointer(t) == Pointer(u) && SameKind(t, u) && |mem| <= MAX_BLOCKS * 8184
    ensures t == u
    decreases t
  {
    hide Stored, ToLittleEndian;
    match t
    case Leaf =>
      assert u.Leaf?;
    case Value(at, v) =>
      ValueUnique(mem, at, v, u.value);
    case Node(at, chunk, child, next) =>
      assert u.Node?;
      ReprUnique(mem, next, u.next);
      ReprUnique(mem, child, u.child);
  }

  lemma TopUnique(mem: Bytes, end: nat, free: set<int>, lost: set<int>, t: Tree, free': set<int>, lost': set<int>,
                  u: Tree)
    requires TrieAt(mem, end, free, lost, t) && TrieAt(mem, end, free', lost', u) && |mem| <= MAX_BLOCKS * 8184
    ensures t == u
  {
    hide Partition, Repr, Stored;
    ReprUnique(mem, t, u);
  }

  /** The blocks that both stores have are the same. */
  ghost predicate Compatible(a: map<Bytes, Bytes>, b: map<Bytes, Bytes>) {
    forall id :: id in a && id in b ==> a[id] == b[id]
  }

  lemma FlatUnique(data: seq<Bytes>, mem: Bytes, mem': Bytes)
    requires Flat(data, mem) && Flat(data, mem')
    ensures mem == mem'
  {
    forall i | 0 <= i < |mem| ensures mem[i] == mem'[i] {
      FlatByte(data, mem, i);
      FlatByte(data, mem', i);
    }
  }

  lemma SameMemory(c: Crypto, a: map<Bytes, Bytes>, b: map<Bytes, Bytes>, s: Snapshot, t: Snapshot)
    requires Compatible(a, b) && BlocksStored(c, a, s) && BlocksStored(c, b, t) && s.ids == t.ids
    ensures s.mem == t.mem && s.end == t.end && |s.mem| <= MAX_BLOCKS * 8184
  {
    hide Flat, Deserialize, WellFormed, Payload;
    assert s.data == t.data by {
      forall i | 0 <= i < |s.data| ensures s.data[i] == t.data[i] {
        assert Image(c, a, s.ids[i], i, s.data[i]) && Image(c, b, t.ids[i], i, t.data[i]);
      }
    }
    FlatUnique(s.data, s.mem, t.mem);
    FlatLength(s.data, s.mem);
  }

  lemma FlatLength(data: seq<Bytes>, mem: Bytes)
    requires Flat(data, mem)
    ensures |mem| == 8184 * |data|
  {
  }

  lemma SameContents(top: Tree, m: map<Bytes, Bytes>, n: map<Bytes, Bytes>)
    requires Represents(top, m) && Represents(top, n)
    ensures m == n
  {
    forall k ensures k in m <==> k in n { assert Lookup(top, k) == if k in m then Some(m[k]) else None; }
    forall k | k in m ensures m[k] == n[k] { assert Lookup(top, k) == Some(m[k]); }
  }

  /** What a fetch accepts of an arbitrary block store: the blocks whose id is their hash. */
  ghost function Authentic(c: Crypto, blocks: map<Bytes, Bytes>): map<Bytes, Bytes> {
    map id | id in blocks && c.hash(blocks[id]) == id :: blocks[id]
  }

  /** The data part of a block as it can be had from an arbitrary block store: the block must be
      there, have its id as its hash, and carry the number it is listed under. */
  function Page(c: Crypto, blocks: map<Bytes, Bytes>, id: Bytes, num: nat): (p: Option<Bytes>)
    ensures p.Some? ==> |p.value| == 8184
  {
    if id !in blocks || c.hash(blocks[id]) != id || |c.unseal(blocks[id])| != 8192 then None
    else
      var dn := Deserialize(c.unseal(blocks[id]), id);
      if dn.blockNum != num then None else Some(Payload(dn))
  }

  function PageMemory(c: Crypto, blocks: map<Bytes, Bytes>, ids: seq<Bytes>): Memory {
    (i: nat) =>
      if i / 8184 >= |ids| then None
      else
        var page := Page(c, blocks, ids[i / 8184], i / 8184);
        if page.None? then None else Some(page.value[i % 8184])
  }

  /** A get under a root id from an arbitrary block store. The last block that the root lists is the
      free space table. */
  function Read(c: Crypto, blocks: map<Bytes, Bytes>, id: Bytes, key: Bytes, steps: nat): Reading {
    if id !in blocks || c.hash(blocks[id]) != id then Fault
    else
      var ids := Listed(c, blocks[id]);
      if ids.None? || ids.value == [] then Fault
      else ReadKey(PageMemory(c, blocks, ids.value[..|ids.value| - 1]), key, steps)
  }

  /** One root id, one answer: whatever two block stores have lost, forged or made up, a get that
      comes to an end under both gives the same, or there are two blocks with one hash. */
  lemma OneReadingPerRoot(c: Crypto, a: map<Bytes, Bytes>, b: map<Bytes, Bytes>, id: Bytes, key: Bytes, n: nat, n': nat)
    returns (x: Bytes, y: Bytes)
    requires Read(c, a, id, key, n) != Fault && Read(c, b, id, key, n') != Fault
    ensures Read(c, a, id, key, n) == Read(c, b, id, key, n') || (x != y && c.hash(x) == c.hash(y))
  {
    hide Listed, ReadKey, Page;
    x, y := a[id], b[id];
    if x == y {
      var listed := Listed(c, a[id]).value;
      var ids := listed[..|listed| - 1];
      var m, m' := PageMemory(c, a, ids), PageMemory(c, b, ids);
      if Consistent(m, m') {
        ReadConsistent(m, m', key, n, n');
      } else {
        var i: nat :| m(i).Some? && m'(i).Some? && m(i) != m'(i);
        x, y := PagesDiffer(c, a, b, ids[i / 8184], i / 8184);
      }
    }
  }

  /** Two different pages under one id are two blocks with one hash. */
  lemma PagesDiffer(c: Crypto, a: map<Bytes, Bytes>, b: map<Bytes, Bytes>, id: Bytes, num: nat)
    returns (x: Bytes, y: Bytes)
    requires Page(c, a, id, num).Some? && Page(c, b, id, num).Some? && Page(c, a, id, num) != Page(c, b, id, num)
    ensures x != y && c.hash(x) == c.hash(y)
  {
    x, y := a[id], b[id];
  }

  /** What a get is to give of these contents. */
  function Stated(s: Contents, key: Bytes): Reading {
    if key in s.pairs then Found(s.pairs[key])
    else if key == [] && s.first == FirstKey(true) then Throws
    else Missing
  }

  /** Reading from the block store under the id of a persisted state gives what was put. */
  lemma ReadPersisted(c: Crypto, blocks: map<Bytes, Bytes>, id: Bytes, s: Contents, key: Bytes, n: nat)
    requires Persisted(c, Authentic(c, blocks), id, s) && 32 * n > s.size
    ensures Read(c, blocks, id, key, n) == Stated(s, key)
  {
    hide TrieAt, Listed, BlocksStored, TableAt, OnlyKeys, TailOk, Represents, ReadKey, HeadOf, Lookup, DeadHead,
      PageMemory;
    var x :| PersistedAs(c, Authentic(c, blocks), id, s, x);
    SnapshotMemory(c, blocks, x);
    var m := PageMemory(c, blocks, x.ids[..|x.ids| - 1]);
    MeansOf(x.top, s.pairs, key);
    TopShape(x);
    DeadMeans(x.top, s.pairs);
    ReadIsMeant(x.mem, x.end, FreeSpace.Covered(x.items), x.lost, x.top, key, n);
    ReadStays(MemoryOf(x.mem), m, key, n, n);
  }

  lemma TopShape(x: Snapshot)
    requires TrieAt(x.mem, x.end, FreeSpace.Covered(x.items), x.lost, x.top)
    ensures Shape(x.top)
  {
  }

  lemma SnapshotMemory(c: Crypto, blocks: map<Bytes, Bytes>, x: Snapshot)
    requires BlocksStored(c, Authentic(c, blocks), x)
    ensures |x.mem| <= LIMIT && |x.ids| > 1
    ensures PartOf(MemoryOf(x.mem), PageMemory(c, blocks, x.ids[..|x.ids| - 1]))
  {
    hide Flat, Deserialize, WellFormed;
    FlatLength(x.data, x.mem);
    var ids := x.ids[..|x.ids| - 1];
    forall i: nat | i < |x.mem| ensures PageMemory(c, blocks, ids)(i) == Some(x.mem[i]) {
      var b := i / 8184;
      FlatByte(x.data, x.mem, i);
      assert Image(c, Authentic(c, blocks), x.ids[b], b, x.data[b]);
    }
  }

  lemma FlatByte(data: seq<Bytes>, mem: Bytes, i: nat)
    requires Flat(data, mem) && i < |mem|
    ensures i / 8184 < |data| && |data[i / 8184]| == 8184 && mem[i] == data[i / 8184][i % 8184]
  {
    var b := i / 8184;
    assert b * 8184 + i % 8184 == i && b < |data|;
    assert data[b][i % 8184] == mem[b * 8184..b * 8184 + 8184][i % 8184];
  }

  /** One root id, one map: whoever presents a second map for it presents two blocks with one hash. */
  lemma OneMapPerRoot(c: Crypto, a: map<Bytes, Bytes>, b: map<Bytes, Bytes>, id: Bytes, s: Contents, t: Contents)
    returns (x: Bytes, y: Bytes)
    requires Persisted(c, Authentic(c, a), id, s) && Persisted(c, Authentic(c, b), id, t)
    ensures (s.pairs == t.pairs && s.first == t.first) || (x != y && c.hash(x) == c.hash(y))
  {
    x, y := [], [];
    var a', b' := Authentic(c, a), Authentic(c, b);
    if Compatible(a', b') {
      CompatibleStores(c, a', b', id, s, t);
    } else {
      var i :| i in a' && i in b' && a'[i] != b'[i];
      x, y := a[i], b[i];
    }
  }

  lemma CompatibleStores(c: Crypto, a: map<Bytes, Bytes>, b: map<Bytes, Bytes>, id: Bytes, s: Contents, t: Contents)
    requires Compatible(a, b) && Persisted(c, a, id, s) && Persisted(c, b, id, t)
    ensures s.pairs == t.pairs && s.first == t.first
  {
    hide TrieAt, Represents, Listed, BlocksStored, TableAt, OnlyKeys, TailOk;
    var x :| PersistedAs(c, a, id, s, x);
    var y :| PersistedAs(c, b, id, t, y);
    SameMemory(c, a, b, x, y);
    TopUnique(x.mem, x.end, FreeSpace.Covered(x.items), x.lost, x.top, FreeSpace.Covered(y.items), y.lost, y.top);
    SameContents(x.top, s.pairs, t.pairs);
  }
}
