/** Where the model stops: a check that the program does not make, whether the mark of a deletion
    would hit a node of another key. */
module TrieGuard {
  import opened ByteCodec
  import opened Addressing
  import opened SecureBlockIo
  import opened DataNodeIo
  import opened Tries
  import opened TrieHeap
  import opened TrieStack
  import opened TrieMark
  import opened TrieWalk
  import opened TrieOps
  import opened TrieMap
  import opened TrieUpdate

  /** A node that carries bytes of keys starts at the address: all nodes are read. */
  method AnyChunk(io: DataNodeIo, link: BlockOffset, a: int, ghost t: Tree) returns (r: Outcome, hit: bool)
    requires io.Valid() && Repr(io.mem, t) && Shape(t) && link == Pointer(t)
    modifies io.cache, io.cache.warehouse, io.cache.store
    ensures Fair(io.cache.store.crypto, r, old(io.cache.store.AllHeld()), 0) && !r.Thrown?
    ensures r.Pass? ==> io.Valid() && Later(old(io.Base()), io.Base()) && hit == ChunkIn(t, a)
    decreases t
  {
    hide DataNodeIo.Valid, Later, Intact, Stored;
    hit := false;
    LaterInTurn(io.Base(), io.Base(), io.Base());
    if link == EMPTY {
      return Pass, false;
    }
    var it;
    it :- ReadNode(io, link);
    ghost var base := io.Base();
    LaterInTurn(old(io.Base()), base, base);
    if it.rec.size > 0 {
      if Linear(link) == a {
        return Pass, true;
      }
      hit :- AnyChunk(io, it.rec.child, a, t.child);
      LaterInTurn(old(io.Base()), base, io.Base());
      base := io.Base();
      LaterInTurn(old(io.Base()), base, base);
    }
    if !hit {
      hit :- AnyChunk(io, it.rec.next, a, t.next);
      LaterInTurn(old(io.Base()), base, io.Base());
    }
    r := Pass;
  }

  /** Overwriting or deleting the key would hit a node of another key. Nothing is written. */
  method Hits(io: DataNodeIo, key: Bytes, ghost top: Tree, ghost lost: set<int>) returns (r: Outcome, hit: bool)
    requires io.Valid() && HoldsTrie(io, top, lost)
    modifies io.Parts()
    ensures Fair(io.cache.store.crypto, r, old(io.cache.store.AllHeld()), 0) && !r.Thrown?
    ensures r.Pass? ==> io.Valid() && Later(old(io.Base()), io.Base()) && (hit <==> !MarkSafe(top, key))
    ensures r.Pass? ==> Same(old(io.mem), io.mem, old(io.end), io.end, old(io.collector.free), io.collector.free)
    ensures r.Pass? ==> io.Room() == old(io.Room())
  {
    hide DataNodeIo.Valid, Later, Intact, Stored, Descending, Repr, ChunkIn, TrieAt;
    hit := false;
    var found, w;
    ghost var z;
    found, w, z :- Descend(io, GetOp, key, top, lost);
    ghost var base := io.Base();
    LaterInTurn(old(io.Base()), base, base);
    if !found {
      return Pass, false;
    }
    ValueHere(io, key, top, lost, w, z);
    var place := w.it.rec.child;
    if place == EMPTY {
      return Pass, false;
    }
    var header, size, after;
    header, size, after :- ReadValueInfo(io, place, z.hole.child.value);
    LaterInTurn(old(io.Base()), base, io.Base());
    base := io.Base();
    LaterInTurn(old(io.Base()), base, base);
    if size != 0 {
      return Pass, false;
    }
    TopParts(io, top, lost);
    var root;
    root :- ReadNode(io, ROOT);
    LaterInTurn(old(io.Base()), base, io.Base());
    base := io.Base();
    LaterInTurn(old(io.Base()), base, base);
    hit :- AnyChunk(io, root.rec.next, Linear(place) + 9, top);
    LaterInTurn(old(io.Base()), base, io.Base());
    r := Pass;
  }

  lemma TopParts(io: DataNodeIo, top: Tree, lost: set<int>)
    requires HoldsTrie(io, top, lost)
    ensures Repr(io.mem, top) && Shape(top) && Inside(io.mem, ROOT, NODE_SIZE)
    ensures Stored(io.mem, ROOT).next == Pointer(top)
  {
    hide Stored, Repr, Partition;
  }

  /** The value of the key and where it is stored, at the node that ends the key. */
  lemma ValueHere(io: DataNodeIo, key: Bytes, top: Tree, lost: set<int>, w: Descent, z: Zipper)
    requires Descending(io, GetOp, key, top, lost, w, z) && w.loaded && w.depth == |key|
    requires z.hole.Node? && z.hole.chunk == []
    ensures w.it.rec.child == EMPTY <==> !z.hole.child.Value?
    ensures z.hole.child.Value? ==> ValueAt(io.mem, w.it.rec.child, z.hole.child.value)
    ensures z.hole.child.Value? ==> Lookup(top, key) == Some(z.hole.child.value)
    ensures z.hole.child.Value? ==> PlaceOf(top, key) == Some(w.it.rec.child)
    ensures !z.hole.child.Value? ==> Lookup(top, key) == None
  {
    hide Repr, Partition, ValueAt, Stored, StackOk, OldPaths;
    FocusRecord(io.mem, w.it, z.hole);
    AtTheEnd(io.mem, w.it, z.c, z.hole, key);
    PlugPlaceOf(z.c, z.hole, key, |key|);
    assert key[|key|..] == [];
  }
}
