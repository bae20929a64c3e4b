/** The block-id list and the block cache: a bounded set of slots in front of the block store. */
module BlockCache {
  import opened ByteCodec
  import opened Addressing
  import opened DataNodes
  import opened SecureBlockIo

  const CAPACITY := 512

  /** block_warehouse: block number `i` is the data block filed under `ids[i]`. */
  class BlockWarehouse {
    var ids: seq<Bytes>

    constructor ()
      ensures ids == []
    {
      ids := [];
    }
  }

  /** A cache entry; `slot` stands for the pointer into the slot vector. */
  datatype Entry = Entry(pinned: bool, references: nat, modified: bool, clock: nat, slot: nat)

  /** Everything that decides what the blocks hold: the real state of the cache and below, and
      the abstract contents `nums`, `data`, `frees` that the cache promises to keep. `frees` has
      a block number only while the free count of that block is kept exactly. `spare` is the id
      of the block whose number is no longer listed though it may still be cached. */
  datatype View = View(
    ids: seq<Bytes>, blocks: map<Bytes, Bytes>, entries: map<nat, Entry>, nodes: seq<DataNode>,
    nums: seq<nat>, data: seq<Bytes>, frees: map<nat, nat>, spare: Bytes)

  /** Block `id` of the store decrypts to a node with this number and payload. */
  ghost predicate Image(c: Crypto, blocks: map<Bytes, Bytes>, id: Bytes, num: nat, payload: Bytes) {
    && id in blocks && |c.unseal(blocks[id])| == 8192
    && var dn := Deserialize(c.unseal(blocks[id]), id);
       WellFormed(dn) && dn.blockNum == num && Payload(dn) == payload
  }

  ghost function ImageFree(c: Crypto, blocks: map<Bytes, Bytes>, id: Bytes): nat
    requires id in blocks && |c.unseal(blocks[id])| == 8192
  {
    Deserialize(c.unseal(blocks[id]), id).freeBytes
  }

  /** The free count of block `b` is stored with it. */
  ghost predicate FreeStored(c: Crypto, blocks: map<Bytes, Bytes>, ids: seq<Bytes>, b: nat, free: nat) {
    && b < |ids| && ids[b] in blocks && |c.unseal(blocks[ids[b]])| == 8192
    && ImageFree(c, blocks, ids[b]) == free
  }

  ghost predicate Clean(e: Entry) {
    !e.modified
  }

  /** The cached copy of block `b` is its content; when it is clean the store has it too. */
  ghost predicate EntryOk(c: Crypto, v: View, b: nat)
    requires b in v.entries && |v.nums| == |v.data| == |v.ids|
  {
    && v.entries[b].slot < |v.nodes|
    && var e, dn := v.entries[b], v.nodes[v.entries[b].slot];
       && WellFormed(dn)
       && (if b < |v.ids| then dn.blockNum == v.nums[b] && Payload(dn) == v.data[b]
           else !e.modified && dn.id == v.spare)
       && (b in v.frees ==> dn.freeBytes == v.frees[b])
       && (Clean(e) ==>
             && (b < |v.ids| ==> dn.id == v.ids[b])
             && Image(c, v.blocks, dn.id, dn.blockNum, Payload(dn))
             && (b in v.frees || |v.ids| <= b ==> ImageFree(c, v.blocks, dn.id) == dn.freeBytes))
  }

  /** The stored copy of block `b` is its content. */
  ghost predicate StoredOk(c: Crypto, v: View, b: nat)
    requires b < |v.nums| == |v.data| == |v.ids|
  {
    && Image(c, v.blocks, v.ids[b], v.nums[b], v.data[b])
    && (b in v.frees ==> ImageFree(c, v.blocks, v.ids[b]) == v.frees[b])
  }

  ghost predicate Coherent(c: Crypto, v: View) {
    && |v.nums| == |v.data| == |v.ids|
    && (forall b :: b in v.frees ==> b < |v.ids|)
    && (forall b :: b in v.entries ==> EntryOk(c, v, b))
    && (forall b :: 0 <= b < |v.ids| && b !in v.entries ==> StoredOk(c, v, b))
  }

  /** Slot accounting: used and queued slots are all different and together fill the cache. */
  ghost predicate SlotsOk(entries: map<nat, Entry>, queue: seq<nat>) {
    && |entries| + |queue| == CAPACITY
    && (forall b :: b in entries ==> entries[b].slot < CAPACITY && entries[b].slot !in queue)
    && (forall b, d :: b in entries && d in entries && b != d ==> entries[b].slot != entries[d].slot)
    && (forall i :: 0 <= i < |queue| ==> queue[i] < CAPACITY)
    && (forall i, j :: 0 <= i < j < |queue| ==> queue[i] != queue[j])
  }

  /** While no block has been written out and none waits for it, the listed ids are those that
      were loaded. */
  ghost predicate FromOrigin(synced: nat, origin: seq<Bytes>, ids: seq<Bytes>, entries: map<nat, Entry>) {
    synced == 0 && !Dirty(entries) ==> ids == origin
  }

  /** Some block waits to be written out. */
  ghost predicate Dirty(entries: map<nat, Entry>) {
    exists b :: b in entries && entries[b].modified
  }

  lemma OriginKept(synced: nat, origin: seq<Bytes>, ids: seq<Bytes>, before: map<nat, Entry>, after: map<nat, Entry>)
    requires FromOrigin(synced, origin, ids, before)
    requires forall b :: b in before && before[b].modified ==> b in after && after[b].modified
    ensures FromOrigin(synced, origin, ids, after)
  {
    if Dirty(before) {
      var b :| b in before && before[b].modified;
      assert after[b].modified;
    }
  }

  lemma StillDirty(entries: map<nat, Entry>, b: nat)
    requires b in entries && !entries[b].modified && Dirty(entries)
    ensures Dirty(entries - {b})
  {
    var d :| d in entries && entries[d].modified;
    assert (entries - {b})[d].modified;
  }

  lemma OriginOfDirty(synced: nat, origin: seq<Bytes>, ids: seq<Bytes>, entries: map<nat, Entry>, b: nat)
    requires b in entries && entries[b].modified
    ensures FromOrigin(synced, origin, ids, entries)
  {
  }

  lemma DropCoherent(c: Crypto, v: View, b: nat)
    requires Coherent(c, v) && b in v.entries
    requires b < |v.ids| ==> Clean(v.entries[b])
    ensures Coherent(c, v.(entries := v.entries - {b}))
  {
    var w := v.(entries := v.entries - {b});
    assert EntryOk(c, v, b);
    forall d | d in w.entries ensures EntryOk(c, w, d) { assert EntryOk(c, v, d); }
    forall d | 0 <= d < |w.ids| && d !in w.entries ensures StoredOk(c, w, d) {
      if d != b { assert StoredOk(c, v, d); }
    }
  }

  lemma DropSlots(entries: map<nat, Entry>, queue: seq<nat>, b: nat)
    requires SlotsOk(entries, queue) && b in entries
    ensures SlotsOk(entries - {b}, queue + [entries[b].slot])
  {
    assert entries == (entries - {b})[b := entries[b]];
  }

  /** Replacing the node or the flags of one cached block. */
  lemma SetCoherent(c: Crypto, v: View, w: View, b: nat)
    requires Coherent(c, v) && b < |w.ids|
    requires w.nums == v.nums && w.data == v.data && w.frees == v.frees && w.spare == v.spare && |w.ids| == |v.ids|
    requires forall d :: 0 <= d < |v.ids| && d != b ==> w.ids[d] == v.ids[d]
    requires Extends(v.blocks, w.blocks)
    requires b in w.entries && EntryOk(c, w, b)
    requires forall d :: d in w.entries && d != b <==> d in v.entries && d != b
    requires forall d :: d in v.entries && d != b ==>
               w.entries[d] == v.entries[d] && v.entries[d].slot < |w.nodes| &&
               (v.entries[d].slot < |v.nodes| ==> w.nodes[v.entries[d].slot] == v.nodes[v.entries[d].slot])
    ensures Coherent(c, w)
  {
    forall d | d in w.entries ensures EntryOk(c, w, d) {
      if d != b { assert EntryOk(c, v, d); }
    }
    forall d | 0 <= d < |w.ids| && d !in w.entries ensures StoredOk(c, w, d) {
      assert StoredOk(c, v, d);
    }
  }

  /** Writing out a modified node under a new id, and clearing its flag. */
  lemma SyncCoherent(c: Crypto, v: View, w: View, b: nat, block: Bytes, id: Bytes, nonce: nat, queue: seq<nat>)
    requires CryptoOk(c) && Coherent(c, v) && b in v.entries && b < |v.ids|
    requires SlotsOk(v.entries, queue)
    requires v.entries[b].slot < |v.nodes| && WellFormed(v.nodes[v.entries[b].slot])
    requires block == c.seal(nonce, SerializeHeader(v.nodes[v.entries[b].slot]))
    requires Extends(v.blocks, v.blocks[id := block])
    requires w == v.(ids := v.ids[b := id], blocks := v.blocks[id := block],
                     nodes := v.nodes[v.entries[b].slot :=
                                        Deserialize(SerializeHeader(v.nodes[v.entries[b].slot]), id)],
                     entries := v.entries[b := v.entries[b].(modified := false)])
    ensures Coherent(c, w)
  {
    assert EntryOk(c, v, b);
    HeaderRoundTrip(v.nodes[v.entries[b].slot], id);
    assert EntryOk(c, w, b);
    forall d | d in v.entries ensures v.entries[d].slot < |v.nodes| { assert EntryOk(c, v, d); }
    SetCoherent(c, v, w, b);
  }

  lemma CachedNode(c: Crypto, v: View, b: nat)
    requires Coherent(c, v) && b in v.entries
    ensures |v.nums| == |v.data| == |v.ids|
    ensures v.entries[b].slot < |v.nodes|
    ensures WellFormed(v.nodes[v.entries[b].slot]) && |v.nodes[v.entries[b].slot].data| == 8192
    ensures v.entries[b].modified ==> b < |v.ids|
  {
    assert EntryOk(c, v, b);
  }

  lemma FlagSlots(entries: map<nat, Entry>, queue: seq<nat>, b: nat, e: Entry)
    requires SlotsOk(entries, queue) && b in entries && e.slot == entries[b].slot
    ensures SlotsOk(entries[b := e], queue)
  {
  }

  lemma PutSlots(entries: map<nat, Entry>, queue: seq<nat>, b: nat, e: Entry)
    requires SlotsOk(entries, queue) && b !in entries && |queue| > 0 && e.slot == queue[0]
    ensures SlotsOk(entries[b := e], queue[1..])
  {
    assert forall i :: 0 <= i < |queue[1..]| ==> queue[1..][i] == queue[i + 1];
  }

  lemma AtMostCapacity(entries: map<nat, Entry>, queue: seq<nat>)
    requires SlotsOk(entries, queue)
    ensures |entries| <= CAPACITY
  {
  }

  lemma RoomInQueue(entries: map<nat, Entry>, queue: seq<nat>)
    requires SlotsOk(entries, queue) && |entries| < CAPACITY
    ensures |queue| > 0 && queue[0] < CAPACITY
    ensures forall b :: b in entries ==> entries[b].slot != queue[0]
  {
    assert queue[0] in queue;
  }

  /** Loading a stored block into an unused slot. */
  lemma LoadCoherent(c: Crypto, v: View, b: nat, e: Entry, dn: DataNode)
    requires Coherent(c, v) && b !in v.entries && b < |v.ids| && e.slot < |v.nodes|
    requires forall d :: d in v.entries ==> v.entries[d].slot != e.slot
    requires !e.modified
    requires v.ids[b] in v.blocks && |c.unseal(v.blocks[v.ids[b]])| == 8192
    requires dn == Deserialize(c.unseal(v.blocks[v.ids[b]]), v.ids[b])
    ensures Coherent(c, v.(entries := v.entries[b := e], nodes := v.nodes[e.slot := dn]))
  {
    var w := v.(entries := v.entries[b := e], nodes := v.nodes[e.slot := dn]);
    assert StoredOk(c, v, b);
    assert EntryOk(c, w, b);
    forall d | d in v.entries ensures v.entries[d].slot < |v.nodes| { assert EntryOk(c, v, d); }
    SetCoherent(c, v, w, b);
  }

  lemma StoredNode(c: Crypto, v: View, b: nat)
    requires Coherent(c, v) && b < |v.ids| && b !in v.entries
    ensures v.ids[b] in v.blocks && |c.unseal(v.blocks[v.ids[b]])| == 8192
  {
    assert StoredOk(c, v, b);
  }

  /** What the cache says about a block it holds. */
  lemma CachedContent(c: Crypto, v: View, b: nat)
    requires Coherent(c, v) && b in v.entries && b < |v.ids|
    ensures |v.nums| == |v.data| == |v.ids| && v.entries[b].slot < |v.nodes|
    ensures var dn := v.nodes[v.entries[b].slot];
            WellFormed(dn) && Payload(dn) == v.data[b] && dn.blockNum == v.nums[b] &&
            (b in v.frees ==> dn.freeBytes == v.frees[b])
  {
    assert EntryOk(c, v, b);
  }

  /** Changing the flags of an entry, or the content of a node in use, together with the promise. */
  lemma EditCoherent(c: Crypto, v: View, w: View, b: nat)
    requires Coherent(c, v) && b in v.entries && b < |v.ids|
    requires |w.nums| == |w.data| == |v.ids| && b in w.entries && w.entries[b].slot == v.entries[b].slot
    requires forall d :: d in v.entries && d != b ==> v.entries[d].slot != v.entries[b].slot
    requires w.ids == v.ids && w.blocks == v.blocks && w.spare == v.spare && |w.nodes| == |v.nodes|
    requires w.entries == v.entries[b := w.entries[b]]
    requires forall i :: 0 <= i < |v.nodes| && i != v.entries[b].slot ==> w.nodes[i] == v.nodes[i]
    requires forall d :: 0 <= d < |v.ids| && d != b ==> w.nums[d] == v.nums[d] && w.data[d] == v.data[d]
    requires forall d :: d in w.frees ==> d < |v.ids| && (d != b ==> d in v.frees && w.frees[d] == v.frees[d])
    requires EntryOk(c, w, b)
    ensures Coherent(c, w)
  {
    forall d | d in w.entries ensures EntryOk(c, w, d) {
      if d != b { assert EntryOk(c, v, d); }
    }
    forall d | 0 <= d < |w.ids| && d !in w.entries ensures StoredOk(c, w, d) {
      assert StoredOk(c, v, d);
    }
  }

  /** Flags may change freely on a listed block, as long as nothing becomes clean that was not. */
  lemma FlagCoherent(c: Crypto, v: View, b: nat, e: Entry)
    requires Coherent(c, v) && b in v.entries && b < |v.ids|
    requires e.slot == v.entries[b].slot && (Clean(e) ==> Clean(v.entries[b]))
    ensures Coherent(c, v.(entries := v.entries[b := e]))
  {
    var w := v.(entries := v.entries[b := e]);
    forall d | d in w.entries ensures EntryOk(c, w, d) { assert EntryOk(c, v, d); }
    forall d | 0 <= d < |w.ids| && d !in w.entries ensures StoredOk(c, w, d) { assert StoredOk(c, v, d); }
  }

  lemma WriteCoherent(c: Crypto, v: View, b: nat, dn: DataNode, queue: seq<nat>)
    requires Coherent(c, v) && b in v.entries && b < |v.ids| && |v.nums| == |v.data| == |v.ids|
    requires SlotsOk(v.entries, queue) && v.entries[b].slot < |v.nodes|
    requires WellFormed(dn) && dn.blockNum == v.nums[b]
    ensures Coherent(c, v.(entries := v.entries[b := v.entries[b].(modified := true)],
                           nodes := v.nodes[v.entries[b].slot := dn], data := v.data[b := Payload(dn)],
                           frees := if b in v.frees then v.frees[b := dn.freeBytes] else v.frees))
  {
    var w := v.(entries := v.entries[b := v.entries[b].(modified := true)],
                nodes := v.nodes[v.entries[b].slot := dn], data := v.data[b := Payload(dn)],
                frees := if b in v.frees then v.frees[b := dn.freeBytes] else v.frees);
    assert EntryOk(c, w, b);
    EditCoherent(c, v, w, b);
  }

  lemma ForgetCoherent(c: Crypto, v: View, b: nat, freeBytes: nat, queue: seq<nat>)
    requires Coherent(c, v) && b in v.entries && b < |v.ids| && freeBytes <= 8184
    requires SlotsOk(v.entries, queue) && v.entries[b].slot < |v.nodes|
    ensures Coherent(c, v.(nodes := v.nodes[v.entries[b].slot := v.nodes[v.entries[b].slot].(freeBytes := freeBytes)],
                           frees := v.frees - {b}))
  {
    var w := v.(nodes := v.nodes[v.entries[b].slot := v.nodes[v.entries[b].slot].(freeBytes := freeBytes)],
                frees := v.frees - {b});
    assert EntryOk(c, v, b);
    assert EntryOk(c, w, b);
    EditCoherent(c, v, w, b);
  }

  lemma Smaller(big: map<nat, Entry>, small: map<nat, Entry>)
    requires forall b :: b in small ==> b in big
    ensures |small| <= |big|
  {
    assert small.Keys <= big.Keys;
    SubsetSize(small.Keys, big.Keys);
  }

  lemma AppendCoherent(c: Crypto, v: View, id: Bytes, e: Entry, dn: DataNode)
    requires Coherent(c, v) && |v.ids| !in v.entries && e.slot < |v.nodes|
    requires forall d :: d in v.entries ==> v.entries[d].slot != e.slot
    requires e.modified && WellFormed(dn)
    ensures var b := |v.ids|;
            Coherent(c, v.(ids := v.ids + [id], entries := v.entries[b := e], nodes := v.nodes[e.slot := dn],
                           nums := v.nums + [dn.blockNum], data := v.data + [Payload(dn)],
                           frees := v.frees[b := dn.freeBytes]))
  {
    var b := |v.ids|;
    var w := v.(ids := v.ids + [id], entries := v.entries[b := e], nodes := v.nodes[e.slot := dn],
                nums := v.nums + [dn.blockNum], data := v.data + [Payload(dn)], frees := v.frees[b := dn.freeBytes]);
    forall d | d in w.entries ensures EntryOk(c, w, d) {
      if d != b { assert EntryOk(c, v, d); }
    }
    forall d | 0 <= d < |w.ids| && d !in w.entries ensures StoredOk(c, w, d) {
      assert StoredOk(c, v, d);
    }
  }

  predicate Candidate(e: Entry) {
    !e.pinned && e.references == 0
  }

  /** `after` is what Retrieve leaves of `before` when it hands out block `b`. */
  ghost predicate HandedOut(before: map<nat, Entry>, after: map<nat, Entry>, b: nat, pinned: bool) {
    && b in after
    && (b in before ==> after == before[b := before[b].(references := before[b].references + 1)])
    && (b !in before ==>
          && after[b].pinned == pinned && after[b].references == 1 && !after[b].modified
          && (forall d :: d in after && d != b ==> d in before && after[d] == before[d])
          && (forall d :: d in before && !Candidate(before[d]) ==> d in after))
  }

  /** A block that was cached, or that has been loaded into a cache from which only candidates have
      been flushed, is handed out by one more reference. */
  lemma HandingOut(before: map<nat, Entry>, kept: map<nat, Entry>, loaded: map<nat, Entry>, after: map<nat, Entry>,
                   b: nat, pinned: bool)
    requires b in loaded && after == loaded[b := loaded[b].(references := loaded[b].references + 1)]
    requires b in before ==> loaded == before
    requires b !in before ==> Thinned(before, kept) && loaded == kept[b := loaded[b]]
    requires b !in before ==> loaded[b].pinned == pinned && loaded[b].references == 0 && !loaded[b].modified
    ensures HandedOut(before, after, b, pinned)
  {
  }

  /** Only candidates have been flushed. */
  ghost predicate Thinned(before: map<nat, Entry>, after: map<nat, Entry>) {
    && (forall b :: b in after ==> b in before && after[b] == before[b])
    && (forall b :: b in before && !Candidate(before[b]) ==> b in after)
  }

  /** The effect of a write of `piece` at `bo` on the contents of the blocks. */
  ghost predicate DataAfter(before: seq<Bytes>, after: seq<Bytes>, bo: BlockOffset, piece: Bytes) {
    && bo.blockNum < |before| && |before[bo.blockNum]| == 8184
    && 8 <= bo.bytes && bo.bytes + |piece| <= 8192
    && after == before[bo.blockNum := Overwrite(before[bo.blockNum], bo.bytes - 8, piece)]
  }

  ghost predicate PieceOf(data: seq<Bytes>, bo: BlockOffset, piece: Bytes) {
    && bo.blockNum < |data| && |data[bo.blockNum]| == 8184
    && 8 <= bo.bytes && bo.bytes + |piece| <= 8192
    && piece == data[bo.blockNum][bo.bytes - 8..bo.bytes - 8 + |piece|]
  }

  /** The effect of a write of `count` bytes at `bo` on the exactly kept free counts. */
  ghost predicate FreesAfter(before: map<nat, nat>, after: map<nat, nat>, bo: BlockOffset, count: nat) {
    && (forall d :: d != bo.blockNum ==> (d in after <==> d in before) && (d in after ==> after[d] == before[d]))
    && (bo.blockNum in after ==> bo.blockNum in before)
    && bo.bytes + count <= 8192
    && (bo.blockNum in before && before[bo.blockNum] <= 8184 ==>
          var f := FreeAfter(before[bo.blockNum], bo.bytes + count);
          count > 0 || f == before[bo.blockNum] ==> bo.blockNum in after && after[bo.blockNum] == f)
  }

  /** What an operation that uses only block `b`, and has finished with it, leaves of the entries. */
  ghost predicate Used(before: map<nat, Entry>, after: map<nat, Entry>, b: nat) {
    && b in after
    && (forall d :: d in after && d != b ==> d in before && after[d] == before[d])
    && (forall d :: d in before && !Candidate(before[d]) ==> d in after)
    && (if b in before then after[b].(modified := before[b].modified) == before[b]
        else !after[b].pinned && after[b].references == 0)
  }

  lemma HandedBack(before: map<nat, Entry>, during: map<nat, Entry>, after: map<nat, Entry>, b: nat, flag: bool)
    requires HandedOut(before, during, b, false) && b in after && after == during[b := after[b]]
    requires during[b].references > 0
    requires after[b] == during[b].(references := during[b].references - 1, modified := flag)
    ensures Used(before, after, b)
  {
  }

  /** No two blocks were put at one time, and none will be put at a time that was. */
  ghost predicate ClocksOk(entries: map<nat, Entry>, clock: nat) {
    && (forall b :: b in entries ==> entries[b].clock < clock)
    && (forall b, d :: b in entries && d in entries && b != d ==> entries[b].clock != entries[d].clock)
  }

  lemma NextClock(entries: map<nat, Entry>, clock: nat, b: nat, e: Entry)
    requires ClocksOk(entries, clock) && e.clock == clock
    ensures ClocksOk(entries[b := e], clock + 1)
  {
  }

  class Cache {
    const store: BlockStore
    const warehouse: BlockWarehouse
    var entries: map<nat, Entry>
    var nodes: seq<DataNode>
    var queue: seq<nat>
    var clock: nat
    var synced: nat
    ghost var nums: seq<nat>
    ghost var data: seq<Bytes>
    ghost var frees: map<nat, nat>
    ghost var spare: Bytes
    ghost var origin: seq<Bytes>

    ghost function Now(): View
      reads this, warehouse, store
    {
      View(warehouse.ids, store.blocks, entries, nodes, nums, data, frees, spare)
    }

    ghost predicate Valid()
      reads this, warehouse, store
    {
      && store.Valid() && |nodes| == CAPACITY
      && SlotsOk(entries, queue)
      && Coherent(store.crypto, Now())
      && FromOrigin(synced, origin, warehouse.ids, entries)
      && ClocksOk(entries, clock)
    }

    constructor (store: BlockStore)
      requires store.Valid()
      ensures Valid() && this.store == store && fresh(warehouse)
      ensures entries == map[] && warehouse.ids == [] && nums == [] && data == [] && frees == map[] && synced == 0
    {
      this.store := store;
      warehouse := new BlockWarehouse();
      entries := map[];
      nodes := seq(CAPACITY, _ => EmptyNode(0));
      queue := seq(CAPACITY, i => i);
      clock, synced := 0, 0;
      nums, data, frees, spare, origin := [], [], map[], [], [];
    }

    /** What the store holds of a block that is not cached. */
    lemma InStore(b: nat)
      requires Valid() && b !in entries && b < |warehouse.ids|
      ensures |nums| == |data| == |warehouse.ids|
      ensures Image(store.crypto, store.blocks, warehouse.ids[b], nums[b], data[b])
      ensures b in frees ==> FreeStored(store.crypto, store.blocks, warehouse.ids, b, frees[b])
    {
      assert StoredOk(store.crypto, Now(), b);
    }

    lemma Cached(b: nat)
      requires Valid() && b in entries && b < |warehouse.ids|
      ensures |nums| == |data| == |warehouse.ids| && entries[b].slot < |nodes|
      ensures var dn := nodes[entries[b].slot];
              WellFormed(dn) && Payload(dn) == data[b] && dn.blockNum == nums[b] &&
              (b in frees ==> dn.freeBytes == frees[b])
    {
      CachedContent(store.crypto, Now(), b);
    }

    /** drop_entry: forgets a block, which must be clean unless it is no longer listed. */
    method DropEntry(b: nat)
      requires Valid() && b in entries
      requires b < |warehouse.ids| ==> Clean(entries[b])
      modifies this`entries, this`queue
      ensures Valid() && entries == old(entries) - {b}
    {
      hide Coherent, SlotsOk, FromOrigin, CryptoOk, ContentAddressed;
      CachedNode(store.crypto, Now(), b);
      DropCoherent(store.crypto, Now(), b);
      DropSlots(entries, queue, b);
      OriginKept(synced, origin, warehouse.ids, entries, entries - {b});
      queue := queue + [entries[b].slot];
      entries := entries - {b};
    }

    /** sync_entry: a modified node is written to the store under a new id. */
    method SyncEntry(b: nat) returns (r: Outcome)
      requires Valid() && b in entries && entries[b].references == 0
      modifies this, warehouse, store
      ensures Genuine(store.crypto, r) && (r.Pass? || r.Collision?)
      ensures r.Pass? ==> Valid() && nums == old(nums) && data == old(data) && frees == old(frees)
      ensures r.Pass? ==> spare == old(spare) && origin == old(origin)
      ensures r.Pass? ==> entries == old(entries)[b := old(entries)[b].(modified := false)]
      ensures r.Pass? ==> |warehouse.ids| == |old(warehouse.ids)|
      ensures r.Pass? ==> synced == old(synced) + (if old(entries)[b].modified then 1 else 0)
      ensures r.Pass? ==> Grows(old(store.State()), store.State())
    {
      hide Coherent, SlotsOk, CryptoOk, ContentAddressed, EntryOk, WellFormed, Deserialize, SerializeHeader;
      CachedNode(store.crypto, Now(), b);
      if entries[b].modified {
        var slot, e := entries[b].slot, entries[b].(modified := false);
        var raw := SerializeHeader(nodes[slot]);
        var nonce: nat := *;
        var id;
        id :- store.Evict(store.crypto.seal(nonce, raw));
        ghost var now := old(Now()).(ids := warehouse.ids[b := id], blocks := store.blocks,
                 nodes := nodes[slot := Deserialize(raw, id)], entries := entries[b := e]);
        SyncCoherent(store.crypto, old(Now()), now, b, store.crypto.seal(nonce, raw), id, nonce, queue);
        FlagSlots(entries, queue, b, e);
        nodes := nodes[slot := Deserialize(raw, id)];
        warehouse.ids := warehouse.ids[b := id];
        entries := entries[b := e];
        synced := synced + 1;
      }
      r := Pass;
    }

    /** flush_entry */
    method FlushEntry(b: nat) returns (r: Outcome)
      requires Valid() && b in entries && entries[b].references == 0
      modifies this, warehouse, store
      ensures Genuine(store.crypto, r) && (r.Pass? || r.Collision?)
      ensures r.Pass? ==> Valid() && nums == old(nums) && data == old(data) && frees == old(frees)
      ensures r.Pass? ==> spare == old(spare) && origin == old(origin)
      ensures r.Pass? ==> entries == old(entries) - {b} && |warehouse.ids| == |old(warehouse.ids)|
      ensures r.Pass? ==> synced == old(synced) + (if old(entries)[b].modified then 1 else 0)
      ensures r.Pass? ==> Grows(old(store.State()), store.State())
    {
      hide Coherent, SlotsOk, FromOrigin, CryptoOk, ContentAddressed;
      :- SyncEntry(b);
      DropEntry(b);
      r := Pass;
    }

    /** flush: the cache ends empty and every block is in the store. */
    method Flush() returns (r: Outcome)
      requires Valid() && forall b :: b in entries ==> entries[b].references == 0
      modifies this, warehouse, store
      ensures Genuine(store.crypto, r) && (r.Pass? || r.Collision?)
      ensures r.Pass? ==> Valid() && nums == old(nums) && data == old(data) && frees == old(frees)
      ensures r.Pass? ==> spare == old(spare) && origin == old(origin)
      ensures r.Pass? ==> entries == map[] && |warehouse.ids| == |old(warehouse.ids)|
      ensures r.Pass? && old(Dirty(entries)) ==> synced > 0
      ensures r.Pass? ==> Grows(old(store.State()), store.State())
    {
      hide Coherent, SlotsOk, FromOrigin, CryptoOk, ContentAddressed;
      while entries != map[]
        invariant Valid() && nums == old(nums) && data == old(data) && frees == old(frees) && spare == old(spare)
        invariant origin == old(origin)
        invariant forall b :: b in entries ==> entries[b].references == 0
        invariant |warehouse.ids| == |old(warehouse.ids)|
        invariant Grows(old(store.State()), store.State())
        invariant old(Dirty(entries)) ==> synced > 0 || Dirty(entries)
        decreases entries.Keys
      {
        var b :| b in entries;
        ghost var before := entries;
        :- FlushEntry(b);
        if Dirty(before) && !before[b].modified { StillDirty(before, b); }
      }
      r := Pass;
    }

    /** replacement_policy_MRU: evicts, of the blocks neither pinned nor in use, the one put last. */
    method EvictMostRecent() returns (r: Outcome, ghost victim: nat)
      requires Valid() && exists b :: b in entries && Candidate(entries[b])
      modifies this, warehouse, store
      ensures Genuine(store.crypto, r) && (r.Pass? || r.Collision?)
      ensures r.Pass? ==> Valid() && nums == old(nums) && data == old(data) && frees == old(frees)
      ensures r.Pass? ==> spare == old(spare) && origin == old(origin)
      ensures victim in old(entries) && Candidate(old(entries)[victim])
      ensures forall b :: b in old(entries) && Candidate(old(entries)[b]) && b != victim ==>
                old(entries)[b].clock < old(entries)[victim].clock
      ensures r.Pass? ==> entries == old(entries) - {victim} && |warehouse.ids| == |old(warehouse.ids)|
      ensures r.Pass? ==> Grows(old(store.State()), store.State())
    {
      hide Coherent, SlotsOk, FromOrigin, CryptoOk, ContentAddressed;
      var found, best, time := false, 0, 0;
      var todo := entries.Keys;
      while todo != {}
        invariant todo <= entries.Keys
        invariant found ==> best in entries && Candidate(entries[best]) && time == entries[best].clock
        invariant forall b :: b in entries && b !in todo && Candidate(entries[b]) ==> found && entries[b].clock <= time
        decreases todo
      {
        var b :| b in todo;
        if Candidate(entries[b]) && (!found || entries[b].clock > time) {
          found, best, time := true, b, entries[b].clock;
        }
        todo := todo - {b};
      }
      victim := best;
      r := FlushEntry(best);
    }

    /** replacement_policy: leaves room for one more block. */
    method ReplacementPolicy() returns (r: Outcome)
      requires Valid()
      requires |entries| == CAPACITY ==> exists b :: b in entries && Candidate(entries[b])
      modifies this, warehouse, store
      ensures Genuine(store.crypto, r) && (r.Pass? || r.Collision?)
      ensures r.Pass? ==> Valid() && nums == old(nums) && data == old(data) && frees == old(frees)
      ensures r.Pass? ==> spare == old(spare) && origin == old(origin)
      ensures r.Pass? ==> |entries| < 512 && |warehouse.ids| == |old(warehouse.ids)|
      ensures r.Pass? ==> Thinned(old(entries), entries) && Grows(old(store.State()), store.State())
      ensures |old(entries)| < 512 ==>
                r.Pass? && warehouse.ids == old(warehouse.ids) && synced == old(synced)
                  && store.State() == old(store.State())
    {
      hide Coherent, SlotsOk, FromOrigin, CryptoOk, ContentAddressed;
      AtMostCapacity(entries, queue);
      if |entries| == CAPACITY {
        ghost var victim;
        victim :- EvictMostRecent();
        assert old(entries) == entries[victim := old(entries)[victim]];
      }
      r := Pass;
    }

    /** retrieve: the slot of a block, loaded from the store if it is not cached. */
    method Retrieve(b: nat, pinned: bool) returns (r: Outcome, slot: nat)
      requires Valid() && b < |warehouse.ids|
      requires b !in entries && |entries| == CAPACITY ==> exists d :: d in entries && Candidate(entries[d])
      modifies this, warehouse, store
      ensures Fair(store.crypto, r, old(store.AllHeld()), 0) && !r.Thrown?
      ensures r.Pass? ==> Valid() && nums == old(nums) && data == old(data) && frees == old(frees)
      ensures r.Pass? ==> spare == old(spare) && origin == old(origin)
      ensures r.Pass? ==> |warehouse.ids| == |old(warehouse.ids)| && Grows(old(store.State()), store.State())
      ensures r.Pass? ==> b in entries && slot == entries[b].slot && entries[b].references > 0
      ensures r.Pass? ==> HandedOut(old(entries), entries, b, pinned)
      ensures |old(entries)| < CAPACITY ==>
                warehouse.ids == old(warehouse.ids) && synced == old(synced) && store.State() == old(store.State())
    {
      hide Valid, HandedOut, Intact;
      slot := 0;
      ghost var kept := entries;
      if b !in entries {
        :- ReplacementPolicy();
        kept := entries;
        :- Load(b, pinned);
      }
      slot := entries[b].slot;
      ghost var loaded := entries;
      AddReference(b);
      HandingOut(old(entries), kept, loaded, entries, b, pinned);
      r := Pass;
    }

    /** The load of a block into the first queued slot. It throws exactly when the block store has
        lost or forged the block. */
    method Load(b: nat, pinned: bool) returns (r: Outcome)
      requires Valid() && b < |warehouse.ids| && b !in entries && |entries| < CAPACITY
      modifies this`entries, this`nodes, this`queue, this`clock
      ensures Fair(store.crypto, r, store.AllHeld(), 0) && !r.Thrown?
      ensures r.Unavailable? <==>
                warehouse.ids[b] !in store.held || store.crypto.hash(store.held[warehouse.ids[b]]) != warehouse.ids[b]
      ensures r.Pass? ==> Valid() && b in entries && entries == old(entries)[b := entries[b]]
      ensures r.Pass? ==> entries[b].pinned == pinned && entries[b].references == 0 && !entries[b].modified
      ensures r.Pass? ==> entries[b].clock == old(clock) && clock == old(clock) + 1
    {
      hide Coherent, SlotsOk, FromOrigin, CryptoOk, Deserialize, EntryOk, WellFormed, Image, Intact, ClocksOk;
      StoredNode(store.crypto, Now(), b);
      RoomInQueue(entries, queue);
      var block;
      block :- store.FetchStored(warehouse.ids[b]);
      var dn := Deserialize(store.crypto.unseal(block), warehouse.ids[b]);
      var e := Entry(pinned, 0, false, clock, queue[0]);
      LoadCoherent(store.crypto, Now(), b, e, dn);
      PutSlots(entries, queue, b, e);
      OriginKept(synced, origin, warehouse.ids, entries, entries[b := e]);
      NextClock(entries, clock, b, e);
      nodes, queue, clock := nodes[e.slot := dn], queue[1..], clock + 1;
      entries := entries[b := e];
      r := Pass;
    }

    method AddReference(b: nat)
      requires Valid() && b in entries && b < |warehouse.ids|
      modifies this`entries
      ensures Valid() && entries == old(entries)[b := old(entries)[b].(references := old(entries)[b].references + 1)]
    {
      hide Coherent, SlotsOk, FromOrigin;
      var e := entries[b].(references := entries[b].references + 1);
      FlagCoherent(store.crypto, Now(), b, e);
      FlagSlots(entries, queue, b, e);
      OriginKept(synced, origin, warehouse.ids, entries, entries[b := e]);
      entries := entries[b := e];
    }

    /** pin and unpin */
    method SetPinned(b: nat, pinned: bool)
      requires Valid() && b in entries && b < |warehouse.ids|
      modifies this`entries
      ensures Valid() && entries == old(entries)[b := old(entries)[b].(pinned := pinned)]
    {
      hide Coherent, SlotsOk, FromOrigin;
      var e := entries[b].(pinned := pinned);
      FlagCoherent(store.crypto, Now(), b, e);
      FlagSlots(entries, queue, b, e);
      OriginKept(synced, origin, warehouse.ids, entries, entries[b := e]);
      entries := entries[b := e];
    }

    /** done: the caller no longer uses the node, and may have changed it. */
    method Done(b: nat, modified: bool)
      requires Valid() && b in entries && b < |warehouse.ids| && entries[b].references > 0
      modifies this`entries
      ensures Valid()
      ensures var e := old(entries)[b];
              entries == old(entries)[b := e.(references := e.references - 1, modified := e.modified || modified)]
    {
      hide Coherent, SlotsOk, FromOrigin;
      var e := entries[b].(references := entries[b].references - 1, modified := entries[b].modified || modified);
      FlagCoherent(store.crypto, Now(), b, e);
      FlagSlots(entries, queue, b, e);
      OriginKept(synced, origin, warehouse.ids, entries, entries[b := e]);
      entries := entries[b := e];
    }

    /** A write into the node of a cached block, with the flag that done sets after it. */
    method Write(b: nat, dn: DataNode)
      requires Valid() && b in entries && b < |warehouse.ids|
      requires WellFormed(dn) && |nums| == |data| == |warehouse.ids| && dn.blockNum == nums[b]
      modifies this`entries, this`nodes, this`data, this`frees
      ensures Valid() && data == old(data)[b := Payload(dn)]
      ensures frees == if b in old(frees) then old(frees)[b := dn.freeBytes] else old(frees)
      ensures entries == old(entries)[b := old(entries)[b].(modified := true)]
    {
      hide Coherent, SlotsOk, FromOrigin;
      CachedNode(store.crypto, Now(), b);
      var e := entries[b].(modified := true);
      WriteCoherent(store.crypto, Now(), b, dn, queue);
      FlagSlots(entries, queue, b, e);
      OriginOfDirty(synced, origin, warehouse.ids, entries[b := e], b);
      data := data[b := Payload(dn)];
      frees := if b in frees then frees[b := dn.freeBytes] else frees;
      nodes := nodes[e.slot := dn];
      entries := entries[b := e];
    }

    /** A change of the free count only, which the entry does not record as a modification: the
        count is no longer kept. */
    method ForgetFree(b: nat, freeBytes: nat)
      requires Valid() && b in entries && b < |warehouse.ids| && freeBytes <= 8184
      modifies this`nodes, this`frees
      ensures Valid() && frees == old(frees) - {b}
      ensures entries[b].slot < |nodes| && nodes[entries[b].slot].freeBytes == freeBytes
    {
      hide Coherent, SlotsOk, FromOrigin, WellFormed;
      CachedNode(store.crypto, Now(), b);
      ForgetCoherent(store.crypto, Now(), b, freeBytes, queue);
      nodes := nodes[entries[b].slot := nodes[entries[b].slot].(freeBytes := freeBytes)];
      frees := frees - {b};
    }

    /** put, pin and modified on a new block, and add_block_id with the all-zero id. */
    method Append(dn: DataNode)
      requires Valid() && |entries| < CAPACITY && WellFormed(dn)
      modifies this, warehouse
      ensures Valid() && warehouse.ids == old(warehouse.ids) + [Zeros(32)]
      ensures nums == old(nums) + [dn.blockNum] && data == old(data) + [Payload(dn)]
      ensures frees == old(frees)[|old(warehouse.ids)| := dn.freeBytes] && spare == old(spare) && origin == old(origin)
      ensures var b := |old(warehouse.ids)|;
              && b in entries && entries[b].pinned && entries[b].references == 0 && entries[b].modified
              && entries == old(entries)[b := entries[b]]
      ensures synced == old(synced)
    {
      hide Coherent, SlotsOk, FromOrigin, CryptoOk, ContentAddressed;
      var b := |warehouse.ids|;
      if b in entries {
        Smaller(entries, entries - {b});
        DropEntry(b);
      }
      PutNew(dn);
    }

    method PutNew(dn: DataNode)
      requires Valid() && |entries| < CAPACITY && WellFormed(dn) && |warehouse.ids| !in entries
      modifies this, warehouse
      ensures Valid() && warehouse.ids == old(warehouse.ids) + [Zeros(32)]
      ensures nums == old(nums) + [dn.blockNum] && data == old(data) + [Payload(dn)]
      ensures frees == old(frees)[|old(warehouse.ids)| := dn.freeBytes] && spare == old(spare) && origin == old(origin)
      ensures var b := |old(warehouse.ids)|;
              && b in entries && entries[b].pinned && entries[b].references == 0 && entries[b].modified
              && entries == old(entries)[b := entries[b]] && entries[b].clock == old(clock)
      ensures synced == old(synced) && clock == old(clock) + 1
    {
      hide Coherent, SlotsOk, FromOrigin, CryptoOk, ContentAddressed, Zeros, ClocksOk;
      var b := |warehouse.ids|;
      RoomInQueue(entries, queue);
      var e := Entry(true, 0, true, clock, queue[0]);
      AppendCoherent(store.crypto, Now(), Zeros(32), e, dn);
      PutSlots(entries, queue, b, e);
      OriginOfDirty(synced, origin, warehouse.ids + [Zeros(32)], entries[b := e], b);
      NextClock(entries, clock, b, e);
      nums, data, frees := nums + [dn.blockNum], data + [Payload(dn)], frees[b := dn.freeBytes];
      nodes, queue, clock := nodes[e.slot := dn], queue[1..], clock + 1;
      entries := entries[b := e];
      warehouse.ids := warehouse.ids + [Zeros(32)];
    }

    /** retrieve, read_at and done on one block. */
    method ReadBlock(bo: BlockOffset, length: nat) returns (r: Outcome, piece: Bytes)
      requires Valid() && Proper(bo) && bo.blockNum < |warehouse.ids| == |nums| && nums[bo.blockNum] == bo.blockNum
      requires |entries| == CAPACITY ==> exists d :: d in entries && Candidate(entries[d])
      modifies this, warehouse, store
      ensures Fair(store.crypto, r, old(store.AllHeld()), 0) && !r.Thrown?
      ensures r.Pass? ==> Valid() && nums == old(nums) && data == old(data) && frees == old(frees)
      ensures r.Pass? ==> spare == old(spare) && origin == old(origin)
      ensures r.Pass? ==> |warehouse.ids| == |old(warehouse.ids)| && Grows(old(store.State()), store.State())
      ensures r.Pass? ==> Used(old(entries), entries, bo.blockNum)
      ensures r.Pass? ==> |piece| == Min(length, 8192 - bo.bytes) && PieceOf(data, bo, piece)
    {
      hide Valid, HandedOut, Used, Grows, BlockStore.AllHeld;
      piece := [];
      var b, slot := bo.blockNum, 0;
      slot :- Retrieve(b, false);
      Cached(b);
      ghost var during := entries;
      piece := ReadAt(nodes[slot], bo, length);
      Done(b, false);
      HandedBack(old(entries), during, entries, b, during[b].modified);
      r := Pass;
    }

    /** The node after write_at takes the place of the old one; only a write of some bytes marks it. */
    method StoreNode(bo: BlockOffset, dn: DataNode, piece: Bytes)
      requires Valid() && bo.blockNum in entries && bo.blockNum < |warehouse.ids| == |nums| == |data|
      requires Proper(bo) && bo.bytes + |piece| <= 8192 && entries[bo.blockNum].slot < |nodes|
      requires WellFormed(dn) && dn.blockNum == nums[bo.blockNum] && |data[bo.blockNum]| == 8184
      requires Payload(dn) == Overwrite(data[bo.blockNum], bo.bytes - 8, piece)
      requires nodes[entries[bo.blockNum].slot].freeBytes <= 8184
      requires dn.freeBytes == FreeAfter(nodes[entries[bo.blockNum].slot].freeBytes, bo.bytes + |piece|)
      requires bo.blockNum in frees ==> nodes[entries[bo.blockNum].slot].freeBytes == frees[bo.blockNum]
      modifies this`entries, this`nodes, this`data, this`frees
      ensures Valid() && bo.blockNum in entries
      ensures entries == old(entries)[bo.blockNum :=
                                        old(entries)[bo.blockNum].(modified := entries[bo.blockNum].modified)]
      ensures DataAfter(old(data), data, bo, piece) && FreesAfter(old(frees), frees, bo, |piece|)
    {
      hide Valid, Payload;
      var b := bo.blockNum;
      if piece != [] {
        Write(b, dn);
      } else {
        assert Overwrite(data[b], bo.bytes - 8, []) == data[b];
        if dn.freeBytes != nodes[entries[b].slot].freeBytes {
          ForgetFree(b, dn.freeBytes);
        }
      }
    }

    /** retrieve, write_at and done on one block. */
    method WriteBlock(bo: BlockOffset, buffer: Bytes, from: nat) returns (r: Outcome, count: nat)
      requires Valid() && Proper(bo) && bo.blockNum < |warehouse.ids| == |nums| && nums[bo.blockNum] == bo.blockNum
      requires |entries| == CAPACITY ==> exists d :: d in entries && Candidate(entries[d])
      requires from <= |buffer|
      modifies this, warehouse, store
      ensures Fair(store.crypto, r, old(store.AllHeld()), 0) && !r.Thrown?
      ensures r.Pass? ==> Valid() && nums == old(nums) && spare == old(spare) && origin == old(origin)
      ensures r.Pass? ==> |warehouse.ids| == |old(warehouse.ids)| && Grows(old(store.State()), store.State())
      ensures r.Pass? ==> Used(old(entries), entries, bo.blockNum)
      ensures r.Pass? ==> count == Min(|buffer| - from, 8192 - bo.bytes)
      ensures r.Pass? ==> DataAfter(old(data), data, bo, buffer[from..from + count])
      ensures r.Pass? ==> FreesAfter(old(frees), frees, bo, count)
    {
      hide Valid, HandedOut, Used, Grows, BlockStore.AllHeld;
      count := 0;
      var b, slot := bo.blockNum, 0;
      slot :- Retrieve(b, false);
      Cached(b);
      ghost var during := entries;
      var written := WriteAt(nodes[slot], buffer, from, bo);
      count := written.1;
      StoreNode(bo, written.0, buffer[from..from + count]);
      ghost var flag := entries[b].modified || count > 0;
      Done(b, count > 0);
      HandedBack(old(entries), during, entries, b, flag);
      r := Pass;
    }

    /** deserialize_block_ids into an empty cache: every listed block is in the store. */
    method ListIds(ids: seq<Bytes>, ghost listedNums: seq<nat>, ghost listedData: seq<Bytes>,
                   ghost listedFrees: map<nat, nat>)
      requires Valid() && entries == map[]
      requires |listedNums| == |listedData| == |ids|
      requires forall b :: 0 <= b < |ids| ==> Image(store.crypto, store.blocks, ids[b], listedNums[b], listedData[b])
      requires forall b :: b in listedFrees ==> FreeStored(store.crypto, store.blocks, ids, b, listedFrees[b])
      modifies this, warehouse
      ensures Valid() && entries == map[] && warehouse.ids == ids && origin == ids
      ensures nums == listedNums && data == listedData && frees == listedFrees && synced == old(synced)
    {
      hide Image, ImageFree, SlotsOk, CryptoOk, ContentAddressed;
      warehouse.ids := ids;
      nums, data, frees, origin := listedNums, listedData, listedFrees, ids;
    }

    /** remove_block_id_from_datablock_num on the last block, which may stay in the cache. */
    method RemoveLast()
      requires Valid() && |warehouse.ids| > 0 && warehouse.ids == origin
      requires |warehouse.ids| - 1 in frees
      requires forall b :: b in entries ==> b == |warehouse.ids| - 1 && !entries[b].modified
      modifies this, warehouse
      ensures Valid() && warehouse.ids == old(warehouse.ids)[..|old(warehouse.ids)| - 1] && origin == warehouse.ids
      ensures nums == old(nums)[..|warehouse.ids|] && data == old(data)[..|warehouse.ids|]
      ensures frees == old(frees) - {|warehouse.ids|}
      ensures spare == old(warehouse.ids)[|warehouse.ids|] && entries == old(entries) && synced == old(synced)
    {
      hide Coherent, SlotsOk, CryptoOk, ContentAddressed;
      var n := |warehouse.ids| - 1;
      RemoveCoherent(store.crypto, Now());
      spare := warehouse.ids[n];
      nums, data, frees, origin := nums[..n], data[..n], frees - {n}, origin[..n];
      warehouse.ids := warehouse.ids[..n];
    }

    /** add_block_id of a block that is in the store. If its number is still cached, it is the
        block that was removed from the list. */
    method AddStored(id: Bytes, ghost num: nat, ghost payload: Bytes)
      requires Valid() && Image(store.crypto, store.blocks, id, num, payload)
      requires |warehouse.ids| in entries ==> id == spare
      modifies this, warehouse
      ensures Valid() && warehouse.ids == old(warehouse.ids) + [id] && origin == old(origin) + [id]
      ensures nums == old(nums) + [num] && data == old(data) + [payload] && entries == old(entries)
      ensures frees == old(frees)[|old(warehouse.ids)| := ImageFree(store.crypto, store.blocks, id)]
      ensures spare == old(spare) && synced == old(synced)
    {
      hide Coherent, SlotsOk, CryptoOk, ContentAddressed, Image;
      AddCoherent(store.crypto, Now(), id, num, payload);
      ghost var b := |warehouse.ids|;
      ImageHasFree(store.crypto, store.blocks, id, num, payload);
      frees := frees[b := ImageFree(store.crypto, store.blocks, id)];
      nums, data, origin := nums + [num], data + [payload], origin + [id];
      warehouse.ids := warehouse.ids + [id];
    }
  }

  lemma ImageHasFree(c: Crypto, blocks: map<Bytes, Bytes>, id: Bytes, num: nat, payload: Bytes)
    requires Image(c, blocks, id, num, payload)
    ensures id in blocks && |c.unseal(blocks[id])| == 8192
  {
  }

  lemma RemoveCoherent(c: Crypto, v: View)
    requires Coherent(c, v) && |v.ids| > 0 && |v.ids| - 1 in v.frees
    requires forall b :: b in v.entries ==> b == |v.ids| - 1 && !v.entries[b].modified
    ensures var n := |v.ids| - 1;
            && |v.nums| == |v.data| == |v.ids|
            && Coherent(c, v.(ids := v.ids[..n], nums := v.nums[..n], data := v.data[..n], frees := v.frees - {n},
                              spare := v.ids[n]))
  {
    var n := |v.ids| - 1;
    var w := v.(ids := v.ids[..n], nums := v.nums[..n], data := v.data[..n], frees := v.frees - {n}, spare := v.ids[n]);
    forall d | d in w.entries ensures EntryOk(c, w, d) { assert EntryOk(c, v, d); }
    forall d | 0 <= d < |w.ids| && d !in w.entries ensures StoredOk(c, w, d) { assert StoredOk(c, v, d); }
  }

  lemma AddCoherent(c: Crypto, v: View, id: Bytes, num: nat, payload: Bytes)
    requires Coherent(c, v) && Image(c, v.blocks, id, num, payload)
    requires |v.ids| in v.entries ==> id == v.spare
    ensures Coherent(c, v.(ids := v.ids + [id], nums := v.nums + [num], data := v.data + [payload],
                           frees := v.frees[|v.ids| := ImageFree(c, v.blocks, id)]))
  {
    var w := v.(ids := v.ids + [id], nums := v.nums + [num], data := v.data + [payload],
                frees := v.frees[|v.ids| := ImageFree(c, v.blocks, id)]);
    forall d | d in w.entries ensures EntryOk(c, w, d) { assert EntryOk(c, v, d); }
    forall d | 0 <= d < |w.ids| && d !in w.entries ensures StoredOk(c, w, d) {
      if d < |v.ids| { assert StoredOk(c, v, d); }
    }
  }
}
