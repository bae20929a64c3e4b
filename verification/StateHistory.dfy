/** Whole histories of a contract state: sessions of operations, each ended by a finalize and
    followed by an open of the id it returned. */
module StateHistory {
  import opened ByteCodec
  import opened Addressing
  import opened SecureBlockIo
  import opened FreeSpace
  import opened DataNodeIo
  import opened Tries
  import opened TrieUpdate
  import opened StateContents
  import TrieMap
  import StateNodes
  import opened StateKeyValue

  datatype Op = Put(key: Bytes, value: Bytes) | Get(key: Bytes) | Delete(key: Bytes)

  function Step(m: map<Bytes, Bytes>, op: Op): map<Bytes, Bytes> {
    match op
    case Put(key, value) => m[key := value]
    case Get(_) => m
    case Delete(key) => m - {key}
  }

  /** A map's reply to an operation: only a get has one. */
  function Reply(m: map<Bytes, Bytes>, op: Op): Bytes {
    if op.Get? && op.key in m then m[op.key] else []
  }

  function After(m: map<Bytes, Bytes>, ops: seq<Op>): map<Bytes, Bytes> {
    if ops == [] then m else Step(After(m, ops[..|ops| - 1]), ops[|ops| - 1])
  }

  function Replies(m: map<Bytes, Bytes>, ops: seq<Op>): (replies: seq<Bytes>)
    ensures |replies| == |ops|
  {
    if ops == [] then [] else
    Replies(m, ops[..|ops| - 1]) + [Reply(After(m, ops[..|ops| - 1]), ops[|ops| - 1])]
  }

  /** No operation replaces or deletes an empty value. */
  predicate Careful(m: map<Bytes, Bytes>, ops: seq<Op>) {
    forall i :: 0 <= i < |ops| && !ops[i].Get? ==> !EmptyFor(After(m, ops[..i]), ops[i].key)
  }

  predicate EmptyFor(m: map<Bytes, Bytes>, key: Bytes) {
    key in m && m[key] == []
  }

  /** The contents after an operation. A put uses space, and the deletion of an empty value one byte. */
  function StateStep(s: Contents, op: Op): Contents {
    if op.Put? then
      Contents(Step(s.pairs, op), if s.first == NoKey then FirstKey(op.key == []) else s.first, s.ever + {op.key},
               s.size + PutNeed(op.key, op.value))
    else
      s.(pairs := Step(s.pairs, op), size := s.size + if op.Delete? && EmptyFor(s.pairs, op.key) then 1 else 0)
  }

  function StateAfter(s: Contents, ops: seq<Op>): Contents {
    if ops == [] then s else StateStep(StateAfter(s, ops[..|ops| - 1]), ops[|ops| - 1])
  }

  lemma {:induction false} PairsAfter(s: Contents, ops: seq<Op>)
    ensures StateAfter(s, ops).pairs == After(s.pairs, ops)
  {
    if ops != [] { PairsAfter(s, ops[..|ops| - 1]); }
  }

  /** Later contents have no smaller bound and no fewer keys. */
  lemma {:induction false} StateGrows(s: Contents, ops: seq<Op>, i: nat)
    requires i <= |ops|
    ensures StateAfter(s, ops[..i]).size <= StateAfter(s, ops).size
    ensures StateAfter(s, ops[..i]).ever <= StateAfter(s, ops).ever
  {
    if i < |ops| {
      var before := ops[..|ops| - 1];
      assert before[..i] == ops[..i];
      StateGrows(s, before, i);
    } else {
      assert ops[..i] == ops;
    }
  }

  /** The program throws at this operation: it reads or deletes the empty key, which was put before
      any other key and has no value now. */
  predicate Throws(s: Contents, op: Op) {
    !op.Put? && op.key == [] && s.first == FirstKey(true) && [] !in s.pairs
  }

  predicate SomeThrows(s: Contents, ops: seq<Op>) {
    exists i :: 0 <= i < |ops| && Throws(StateAfter(s, ops[..i]), ops[i])
  }

  const EMPTY_STORE := Contents(map[], NoKey, {}, 32)

  /** Once some other key came first, no operation of any run throws. */
  lemma OtherKeyFirst(s: Contents, key: Bytes, value: Bytes, ops: seq<Op>)
    requires key != [] && s.first == NoKey
    ensures !SomeThrows(s, [Put(key, value)] + ops)
  {
    var all := [Put(key, value)] + ops;
    forall i | 0 <= i < |all| ensures !Throws(StateAfter(s, all[..i]), all[i]) {
      if i > 0 { FirstStays(s, all[..i]); }
    }
  }

  lemma {:induction false} FirstStays(s: Contents, ops: seq<Op>)
    requires ops != [] && ops[0].Put? && s.first == NoKey
    ensures StateAfter(s, ops).first == FirstKey(ops[0].key == [])
  {
    if |ops| == 1 {
      assert ops[..0] == [];
    } else {
      FirstStays(s, ops[..|ops| - 1]);
    }
  }

  /** But if the empty key came first, it cannot be read after its deletion. */
  lemma EmptyKeyFirst(value: Bytes)
    ensures SomeThrows(EMPTY_STORE, [Put([], value), Delete([]), Get([])])
  {
    var ops := [Put([], value), Delete([]), Get([])];
    assert ops[..2] == [Put([], value), Delete([])] && ops[..2][..1] == [Put([], value)] && ops[..2][..1][..0] == [];
    FirstStays(EMPTY_STORE, ops[..2]);
    assert StateAfter(EMPTY_STORE, ops[..2]) == StateStep(StateAfter(EMPTY_STORE, ops[..2][..1]), Delete([]));
    assert Throws(StateAfter(EMPTY_STORE, ops[..2]), ops[2]);
  }

  /** The first `i` operations have led here, and none of them threw. */
  predicate Reached(s: Contents, ops: seq<Op>, i: nat, now: Contents, replies: seq<Bytes>) {
    && i <= |ops| && Within(now, StateAfter(s, ops[..i])) && replies == Replies(s.pairs, ops[..i])
    && forall j :: 0 <= j < i ==> !Throws(StateAfter(s, ops[..j]), ops[j])
  }

  lemma ReachedStart(s: Contents, ops: seq<Op>)
    ensures Reached(s, ops, 0, s, [])
  {
  }

  /** What is known before the next operation. */
  lemma ReachedHere(s: Contents, ops: seq<Op>, i: nat, now: Contents, replies: seq<Bytes>)
    requires Reached(s, ops, i, now, replies) && i < |ops|
    ensures Throws(now, ops[i]) ==> SomeThrows(s, ops)
    ensures Careful(s.pairs, ops) && !ops[i].Get? ==> !EmptyFor(now.pairs, ops[i].key)
    ensures StateStep(now, ops[i]).size <= StateAfter(s, ops).size
  {
    hide Throws, StateStep, Within, Replies, EmptyFor;
    assert ops[..i + 1][..i] == ops[..i];
    PairsAfter(s, ops[..i]);
    StateGrows(s, ops, i + 1);
    StepWithin(now, StateAfter(s, ops[..i]), now, ops[i]);
  }

  lemma ReachedNext(s: Contents, ops: seq<Op>, i: nat, now: Contents, next: Contents, replies: seq<Bytes>)
    requires Reached(s, ops, i, now, replies) && i < |ops| && !Throws(now, ops[i])
    requires Within(next, StateStep(now, ops[i]))
    ensures Reached(s, ops, i + 1, next, replies + [Reply(now.pairs, ops[i])])
  {
    hide Reply, Throws, StateStep, Within;
    assert ops[..i + 1][..i] == ops[..i];
    PairsAfter(s, ops[..i]);
    StepWithin(now, StateAfter(s, ops[..i]), next, ops[i]);
  }

  lemma StepWithin(now: Contents, bound: Contents, next: Contents, op: Op)
    requires Within(now, bound)
    ensures now.pairs == bound.pairs && (Throws(now, op) <==> Throws(bound, op))
    ensures StateStep(now, op).size <= StateStep(bound, op).size
    ensures Within(next, StateStep(now, op)) ==> Within(next, StateStep(bound, op))
  {
  }

  lemma ReachedEnd(s: Contents, ops: seq<Op>, now: Contents, replies: seq<Bytes>)
    requires Reached(s, ops, |ops|, now, replies)
    ensures Within(now, StateAfter(s, ops)) && replies == Replies(s.pairs, ops) && !SomeThrows(s, ops)
  {
    assert ops[..|ops|] == ops;
  }

  /** One operation on the store does what it does on a map. It is not begun where its mark would hit
      a node of another key. */
  method Apply(kv: StateKV, op: Op) returns (r: Outcome, reply: Bytes)
    requires kv.Valid()
    modifies kv`top, kv`lost, kv`contents, kv`ever, kv.io.Parts()
    ensures r.Damaging? || Fair(kv.io.cache.store.crypto, r, old(kv.io.cache.store.AllHeld()),
                                StateStep(old(kv.State()), op).size)
    ensures r.Damaging? ==> !op.Get? && EmptyFor(old(kv.contents), op.key)
    ensures r.Pass? ==> kv.Valid() && Within(kv.State(), StateStep(old(kv.State()), op))
    ensures r.Pass? ==> reply == Reply(old(kv.contents), op)
    ensures r.Pass? ==> Grows(old(kv.io.cache.store.State()), kv.io.cache.store.State())
    ensures r.Pass? ==> !Throws(old(kv.State()), op)
    ensures r.Thrown? ==> Throws(old(kv.State()), op)
  {
    hide StateKV.Valid, StateKV.Replaceable, Extends, Intact;
    reply := [];
    ghost var stored := kv.io.cache.store.State();
    GrowsInTurn(stored, stored, stored, stored);
    if !op.Get? {
      var safe;
      safe :- kv.Check(op.key);
      if !safe {
        return Damaging, [];
      }
    }
    ghost var checked := kv.io.cache.store.State();
    match op {
      case Put(key, value) => r := kv.Put(key, value);
      case Get(key) => r, reply := kv.Get(key);
      case Delete(key) => r := kv.Delete(key);
    }
    GrowsInTurn(stored, stored, checked, kv.io.cache.store.State());
  }

  /** Every run of operations gives the replies of a map, and leaves the contents of a map, whatever
      the block store answers from one operation to the next. It throws only where it must, and runs
      out of space only when the operations need more than there is. */
  method Run(kv: StateKV, ops: seq<Op>, keeper: Keeper) returns (r: Outcome, replies: seq<Bytes>)
    requires kv.Valid()
    modifies kv`top, kv`lost, kv`contents, kv`ever, kv.io.Parts()
    ensures r.Damaging? || Fair(kv.io.cache.store.crypto, r, Honest(keeper) && old(kv.io.cache.store.AllHeld()),
                                StateAfter(old(kv.State()), ops).size)
    ensures r.Damaging? ==> !Careful(old(kv.contents), ops)
    ensures r.Pass? ==> kv.Valid() && Within(kv.State(), StateAfter(old(kv.State()), ops))
    ensures r.Pass? ==> replies == Replies(old(kv.contents), ops) && !SomeThrows(old(kv.State()), ops)
    ensures r.Pass? ==> GrowsUnder(Honest(keeper), old(kv.io.cache.store.State()), kv.io.cache.store.State())
    ensures r.Thrown? ==> SomeThrows(old(kv.State()), ops)
  {
    hide StateKV.Valid, Extends, Intact, Reply, Throws, Reached, StateStep, SomeThrows, StateAfter, Replies, Careful,
      Within, Honest;
    ghost var s, stored := kv.State(), kv.io.cache.store.State();
    GrowsInTurn(stored, stored, stored, stored);
    replies := [];
    ReachedStart(s, ops);
    var i := 0;
    while i < |ops|
      invariant i <= |ops| && kv.Valid() && Reached(s, ops, i, kv.State(), replies)
      invariant GrowsUnder(Honest(keeper), stored, kv.io.cache.store.State())
    {
      ghost var now, before := kv.State(), kv.io.cache.store.State();
      kv.Turn(keeper, Before(i));
      ghost var turned := kv.io.cache.store.State();
      GrowsUnderInTurn(Honest(keeper), stored, before, turned);
      ReachedHere(s, ops, i, now, replies);
      var reply;
      reply :- Apply(kv, ops[i]);
      ReachedNext(s, ops, i, now, kv.State(), replies);
      GrowsUnderInTurn(Honest(keeper), stored, turned, kv.io.cache.store.State());
      replies := replies + [reply];
      i := i + 1;
    }
    ReachedEnd(s, ops, kv.State(), replies);
    r := Pass;
  }

  /** The bytes up to which a session may write: those of its operations, and one block for the table. */
  function SessionNeed(s: Contents, ops: seq<Op>): nat {
    StateAfter(s, ops).size + 8185
  }

  /** Why a session may throw: a get or delete of the dead empty key, keys that begin alike, or a
      root block that is not there any more. */
  ghost predicate MayThrow(s: Contents, ops: seq<Op>, intact: bool) {
    SomeThrows(s, ops) || Clash(StateAfter(s, ops).ever) || !intact
  }

  /** One session: create or open, run, finalize. */
  method Session(store: BlockStore, keeper: Keeper, first: bool, id: Bytes, ops: seq<Op>, ghost s: Contents)
    returns (r: Outcome, id': Bytes, replies: seq<Bytes>)
    requires store.Valid()
    requires if first then s == EMPTY_STORE else Persisted(store.crypto, store.blocks, id, s)
    modifies store
    ensures r.Damaging? || Fair(store.crypto, r, Honest(keeper) && old(store.AllHeld()), SessionNeed(s, ops))
    ensures r.Damaging? ==> !Careful(s.pairs, ops)
    ensures r.Thrown? ==> MayThrow(s, ops, Honest(keeper) && old(store.AllHeld()))
    ensures r.Pass? ==> store.Valid() && Persisted(store.crypto, store.blocks, id', StateAfter(s, ops))
    ensures r.Pass? ==> !SomeThrows(s, ops)
    ensures r.Pass? ==> replies == Replies(s.pairs, ops)
    ensures r.Pass? ==> GrowsUnder(Honest(keeper), old(store.State()), store.State())
  {
    hide StateKV.Valid, StateKV.Blank, Careful, Replies, CryptoOk, ContentAddressed, Persisted, SomeThrows, Clash,
      Extends, Intact, StateAfter, Honest, PersistedAs;
    id', replies := [], [];
    ghost var honest, stored := Honest(keeper), store.State();
    store.Turn(keeper, Begin);
    ghost var turned := store.State();
    var kv := new StateKV(store);
    if first {
      :- kv.Create();
    } else {
      ghost var saved := StillKnown(kv, id, s);
      :- kv.Open(id, s, saved);
    }
    ghost var state, begun := kv.State(), store.State();
    GrowsUnderInTurn(honest, stored, turned, begun);
    StartWithin(state, s, ops);
    replies :- Run(kv, ops, keeper);
    ghost var done := store.State();
    GrowsUnderInTurn(honest, stored, begun, done);
    kv.Turn(keeper, End);
    ghost var used, ending := kv.State(), store.State();
    GrowsUnderInTurn(honest, stored, done, ending);
    WithinInTurn(used, StateAfter(state, ops), StateAfter(s, ops));
    TailClash(kv);
    ghost var final;
    id', final :- kv.Finalize();
    GrowsUnderInTurn(honest, stored, ending, store.State());
    PersistedWithin(store.crypto, store.blocks, id', used, StateAfter(s, ops), final);
    r := Pass;
  }

  /** Finalize, then open the id it returned: all is as before, byte for byte. The free list is the one
      that was saved, and what is not in it is lost. */
  method Reopen(kv: StateKV) returns (r: Outcome, next: StateKV)
    requires kv.Valid()
    modifies kv.Objects()
    ensures r.Thrown? ==> old(kv.TableDue() && kv.NothingAppended()) || !old(kv.io.cache.store.AllHeld())
    ensures Fair(kv.io.cache.store.crypto, r, old(kv.io.cache.store.AllHeld()), old(|kv.io.mem|) + 1)
    ensures r.Pass? ==> next.Valid() && next.State() == old(kv.State()) && next.top == old(kv.top)
    ensures r.Pass? ==> next.io.mem == old(kv.io.mem) && next.io.end == old(kv.io.end)
    ensures r.Pass? ==> next.io.collector.items == old(kv.Saved()) && !next.io.collector.isDeferred
    ensures r.Pass? ==> next.io.collector.free == Covered(old(kv.Saved()))
    ensures r.Pass? ==> next.lost == old(kv.lost + (kv.io.collector.free - Covered(kv.Saved())))
  {
    hide StateKV.Valid, StateKV.Blank, Persisted, PersistedAs, Clash, Extends, Intact, Covered, StateKV.Saved;
    var store := kv.io.cache.store;
    ghost var state := kv.State();
    next := kv;
    var id;
    ghost var s;
    id, s :- kv.Finalize();
    next := new StateKV(store);
    StillThere(next, id, state, s);
    :- next.Open(id, state, s);
    r := Pass;
  }

  lemma StillKnown(kv: StateKV, id: Bytes, state: Contents) returns (s: Snapshot)
    requires Persisted(kv.io.cache.store.crypto, kv.io.cache.store.blocks, id, state) && kv.io.cache.store.Valid()
    ensures PersistedAs(kv.io.cache.store.crypto, kv.io.cache.store.blocks, id, state, s)
    ensures kv.io.cache.store.AllHeld() ==> kv.Known(id)
  {
    s :| PersistedAs(kv.io.cache.store.crypto, kv.io.cache.store.blocks, id, state, s);
    StillThere(kv, id, state, s);
  }

  lemma StillThere(kv: StateKV, id: Bytes, state: Contents, s: Snapshot)
    requires PersistedAs(kv.io.cache.store.crypto, kv.io.cache.store.blocks, id, state, s) && kv.io.cache.store.Valid()
    ensures kv.io.cache.store.AllHeld() ==> kv.Known(id)
  {
  }

  lemma TailClash(kv: StateKV)
    requires kv.Valid()
    ensures kv.NothingAppended() ==> Clash(kv.ever)
    ensures |kv.io.mem| <= kv.io.end + 8184
  {
    kv.io.Bounds();
  }

  lemma WithinInTurn(a: Contents, b: Contents, c: Contents)
    requires Within(a, b) && Within(b, c)
    ensures Within(a, c)
  {
  }

  /** A smaller bound at the start gives a smaller bound at the end, and nothing else. */
  lemma {:induction false} StartWithin(a: Contents, b: Contents, ops: seq<Op>)
    requires Within(a, b)
    ensures Within(StateAfter(a, ops), StateAfter(b, ops)) && (SomeThrows(a, ops) <==> SomeThrows(b, ops))
  {
    AfterWithin(a, b, ops);
    forall i | 0 <= i < |ops|
      ensures Throws(StateAfter(a, ops[..i]), ops[i]) <==> Throws(StateAfter(b, ops[..i]), ops[i])
    {
      AfterWithin(a, b, ops[..i]);
    }
  }

  lemma {:induction false} AfterWithin(a: Contents, b: Contents, ops: seq<Op>)
    requires Within(a, b)
    ensures Within(StateAfter(a, ops), StateAfter(b, ops))
  {
    if ops != [] { AfterWithin(a, b, ops[..|ops| - 1]); }
  }

  lemma PersistedWithin(c: Crypto, blocks: map<Bytes, Bytes>, id: Bytes, s: Contents, t: Contents, snap: Snapshot)
    requires PersistedAs(c, blocks, id, s, snap) && Within(s, t)
    ensures Persisted(c, blocks, id, t)
  {
    hide InBlocks, StateNodes.Listed, TrieMap.TrieAt;
    assert PersistedAs(c, blocks, id, t, snap);
  }

  /** The contents after a number of sessions. */
  function HistoryState(sessions: seq<seq<Op>>): Contents {
    if sessions == [] then EMPTY_STORE
    else StateAfter(HistoryState(sessions[..|sessions| - 1]), sessions[|sessions| - 1])
  }

  lemma LastSession(sessions: seq<seq<Op>>, n: nat)
    requires n < |sessions|
    ensures HistoryState(sessions[..n + 1]) == StateAfter(HistoryState(sessions[..n]), sessions[n])
  {
    assert sessions[..n + 1][..n] == sessions[..n];
  }

  lemma {:induction false} HistoryGrows(sessions: seq<seq<Op>>, n: nat)
    requires n <= |sessions|
    ensures HistoryState(sessions[..n]).size <= HistoryState(sessions).size
    ensures HistoryState(sessions[..n]).ever <= HistoryState(sessions).ever
  {
    if n < |sessions| {
      var before := sessions[..|sessions| - 1];
      assert before[..n] == sessions[..n];
      HistoryGrows(before, n);
      var last := sessions[|sessions| - 1];
      StateGrows(HistoryState(before), last, 0);
      assert last[..0] == [];
    } else {
      assert sessions[..n] == sessions;
    }
  }

  /** What session `i` returned: the replies of a map, and an id that holds the contents of its time. */
  ghost predicate SessionOk(c: Crypto, blocks: map<Bytes, Bytes>, sessions: seq<seq<Op>>, i: nat, id: Bytes,
                            replies: seq<Bytes>) {
    && i < |sessions|
    && replies == Replies(HistoryState(sessions[..i]).pairs, sessions[i])
    && !SomeThrows(HistoryState(sessions[..i]), sessions[i])
    && Persisted(c, blocks, id, HistoryState(sessions[..i + 1]))
  }

  ghost predicate SessionsOk(c: Crypto, blocks: map<Bytes, Bytes>, sessions: seq<seq<Op>>, ids: seq<Bytes>,
                             replies: seq<seq<Bytes>>) {
    |ids| == |replies| <= |sessions| && forall i :: 0 <= i < |ids| ==>
      SessionOk(c, blocks, sessions, i, ids[i], replies[i])
  }

  /** Later sessions do not disturb earlier ones. */
  lemma SessionsStay(c: Crypto, blocks: map<Bytes, Bytes>, later: map<Bytes, Bytes>, sessions: seq<seq<Op>>,
                     ids: seq<Bytes>, replies: seq<seq<Bytes>>)
    requires SessionsOk(c, blocks, sessions, ids, replies) && Extends(blocks, later)
    ensures SessionsOk(c, later, sessions, ids, replies)
  {
    hide Persisted, Replies, SomeThrows, Extends, HistoryState;
    forall i | 0 <= i < |ids| ensures SessionOk(c, later, sessions, i, ids[i], replies[i]) {
      assert SessionOk(c, blocks, sessions, i, ids[i], replies[i]);
      PersistedStays(c, blocks, later, ids[i], HistoryState(sessions[..i + 1]));
    }
  }

  /** Why a history may throw: in some session the dead empty key is used, two of all the keys begin
      alike, or the block store is not intact. */
  ghost predicate HistoryThrows(sessions: seq<seq<Op>>, intact: bool) {
    || (exists i :: 0 <= i < |sessions| && SomeThrows(HistoryState(sessions[..i]), sessions[i]))
    || Clash(HistoryState(sessions).ever) || !intact
  }

  lemma HistoryThrew(sessions: seq<seq<Op>>, n: nat, intact: bool, before: bool)
    requires n < |sessions| && MayThrow(HistoryState(sessions[..n]), sessions[n], intact) && (before ==> intact)
    ensures HistoryThrows(sessions, before)
  {
    hide SomeThrows;
    LastSession(sessions, n);
    HistoryGrows(sessions, n + 1);
  }

  /** No session replaces or deletes an empty value. */
  predicate AllCareful(sessions: seq<seq<Op>>) {
    forall i :: 0 <= i < |sessions| ==> Careful(HistoryState(sessions[..i]).pairs, sessions[i])
  }

  /** The block store loses and changes nothing, in any session. */
  ghost predicate AllHonest(keepers: seq<Keeper>) {
    forall i :: 0 <= i < |keepers| ==> Honest(keepers[i])
  }

  /** A whole history, with a keeper for every session. Every id that was returned keeps the contents
      of its time, whatever came later; every session goes on where the one before it ended. */
  method History(store: BlockStore, sessions: seq<seq<Op>>, keepers: seq<Keeper>)
    returns (r: Outcome, ids: seq<Bytes>, replies: seq<seq<Bytes>>)
    requires store.Valid() && |keepers| == |sessions|
    modifies store
    ensures r.Damaging? || Fair(store.crypto, r, AllHonest(keepers) && old(store.AllHeld()),
                                HistoryState(sessions).size + 8185)
    ensures r.Damaging? ==> !AllCareful(sessions)
    ensures r.Thrown? ==> HistoryThrows(sessions, AllHonest(keepers) && old(store.AllHeld()))
    ensures r.Pass? ==> |ids| == |sessions| && SessionsOk(store.crypto, store.blocks, sessions, ids, replies)
  {
    hide CryptoOk, ContentAddressed, Persisted, Replies, Careful, Extends, SomeThrows, HistoryState, SessionOk, Clash,
      Intact, Honest;
    hide HistoryThrows, MayThrow, StateAfter;
    ids, replies := [], [];
    ghost var honest, stored := AllHonest(keepers), store.State();
    GrowsInTurn(stored, stored, stored, stored);
    while |ids| < |sessions|
      invariant store.Valid() && SessionsOk(store.crypto, store.blocks, sessions, ids, replies)
      invariant GrowsUnder(honest, stored, store.State())
    {
      var n := |ids|;
      LastSession(sessions, n);
      HistoryGrows(sessions, n + 1);
      StartOf(store.crypto, store.blocks, sessions, ids, replies);
      ghost var before := store.State();
      var id, answers;
      var from := if n == 0 then [] else ids[n - 1];
      r, id, answers := Session(store, keepers[n], n == 0, from, sessions[n], HistoryState(sessions[..n]));
      if r.Thrown? {
        HistoryThrew(sessions, n, Honest(keepers[n]) && Intact(before), honest && Intact(stored));
      }
      if !r.Pass? {
        return r, ids, replies;
      }
      GrowsUnderInTurn(honest, stored, before, store.State());
      SessionsStay(store.crypto, before.blocks, store.blocks, sessions, ids, replies);
      SessionDone(store.crypto, store.blocks, sessions, n, id, answers);
      ids, replies := ids + [id], replies + [answers];
    }
    r := Pass;
  }

  /** Where the next session begins. */
  lemma StartOf(c: Crypto, blocks: map<Bytes, Bytes>, sessions: seq<seq<Op>>, ids: seq<Bytes>, replies: seq<seq<Bytes>>)
    requires SessionsOk(c, blocks, sessions, ids, replies)
    ensures var n := |ids|;
            if n == 0 then HistoryState(sessions[..n]) == EMPTY_STORE
            else Persisted(c, blocks, ids[n - 1], HistoryState(sessions[..n]))
  {
    hide Persisted, SomeThrows, Replies;
    if |ids| > 0 { assert SessionOk(c, blocks, sessions, |ids| - 1, ids[|ids| - 1], replies[|ids| - 1]); }
  }

  lemma SessionDone(c: Crypto, blocks: map<Bytes, Bytes>, sessions: seq<seq<Op>>, n: nat, id: Bytes,
                    replies: seq<Bytes>)
    requires n < |sessions| && replies == Replies(HistoryState(sessions[..n]).pairs, sessions[n])
    requires !SomeThrows(HistoryState(sessions[..n]), sessions[n])
    requires Persisted(c, blocks, id, HistoryState(sessions[..n + 1]))
    ensures SessionOk(c, blocks, sessions, n, id, replies)
  {
  }
}
