/** The privileged and the unprivileged keys of an interpreter share one store and never meet. */
module InterpreterKeys {
  import opened ByteCodec
  import opened SecureBlockIo
  import opened StateKeyValue
  import opened StateHistory

  datatype Right = Privileged | Unprivileged

  /** An operation of one of the two interfaces. */
  datatype Access = Access(right: Right, op: Op)

  /** to_privileged_key and to_unprivileged_key: the access right becomes the first byte. */
  function KeyOf(right: Right, key: Bytes): Bytes {
    match right
    case Privileged => [80] + key
    case Unprivileged => [112] + key
  }

  /** The prefixes are the letters P and p, so different keys stay different and no key of one
      interface is a key of the other. */
  lemma KeysApart(right: Right, key: Bytes, right': Right, key': Bytes)
    ensures KeyOf(right, key) == (if right.Privileged? then Ascii("P") else Ascii("p")) + key
    ensures KeyOf(right, key) == KeyOf(right', key') <==> right == right' && key == key'
  {
    var k, k' := KeyOf(right, key), KeyOf(right', key');
    assert k[1..] == key && k'[1..] == key';
    assert Ascii("P") == [80] && Ascii("p") == [112];
  }

  function Prefixed(a: Access): Op {
    match a.op
    case Put(key, value) => Put(KeyOf(a.right, key), value)
    case Get(key) => Get(KeyOf(a.right, key))
    case Delete(key) => Delete(KeyOf(a.right, key))
  }

  function AllOps(accesses: seq<Access>): (ops: seq<Op>)
    ensures |ops| == |accesses| && forall i :: 0 <= i < |ops| ==> ops[i] == Prefixed(accesses[i])
  {
    seq(|accesses|, i requires 0 <= i < |accesses| => Prefixed(accesses[i]))
  }

  /** The operations of one interface, as their caller sees them. */
  function OpsOf(accesses: seq<Access>, right: Right): seq<Op> {
    if accesses == [] then [] else
    var a := accesses[|accesses| - 1];
    OpsOf(accesses[..|accesses| - 1], right) + if a.right == right then [a.op] else []
  }

  /** The replies to the operations of one interface. */
  function RepliesTo(accesses: seq<Access>, replies: seq<Bytes>, right: Right): seq<Bytes>
    requires |replies| == |accesses|
  {
    if accesses == [] then [] else
    var n := |accesses| - 1;
    RepliesTo(accesses[..n], replies[..n], right) + if accesses[n].right == right then [replies[n]] else []
  }

  /** `own` is the part of `m` under the keys of one interface. */
  ghost predicate Part(m: map<Bytes, Bytes>, right: Right, own: map<Bytes, Bytes>) {
    forall k :: (KeyOf(right, k) in m <==> k in own) && (k in own ==> m[KeyOf(right, k)] == own[k])
  }

  lemma OneStep(m: map<Bytes, Bytes>, own: map<Bytes, Bytes>, a: Access, right: Right)
    requires Part(m, right, own)
    ensures Part(Step(m, Prefixed(a)), right, if a.right == right then Step(own, a.op) else own)
    ensures a.right == right ==> Reply(m, Prefixed(a)) == Reply(own, a.op)
  {
    var m' := Step(m, Prefixed(a));
    var own' := if a.right == right then Step(own, a.op) else own;
    hide KeyOf;
    forall k ensures (KeyOf(right, k) in m' <==> k in own') && (k in own' ==> m'[KeyOf(right, k)] == own'[k]) {
      KeysApart(right, k, a.right, a.op.key);
    }
    assert KeyOf(right, a.op.key) in m <==> a.op.key in own;
  }

  /** In every run the contents and the replies of one interface are those of a map that is used
      through that interface alone. */
  lemma {:induction false} NoInterference(m: map<Bytes, Bytes>, own: map<Bytes, Bytes>, accesses: seq<Access>,
                                          right: Right)
    requires Part(m, right, own)
    ensures Part(After(m, AllOps(accesses)), right, After(own, OpsOf(accesses, right)))
    ensures RepliesTo(accesses, Replies(m, AllOps(accesses)), right) == Replies(own, OpsOf(accesses, right))
  {
    if accesses == [] {
      assert AllOps(accesses) == [];
    } else {
      hide Part, Step, Reply, Prefixed;
      var n, ops := |accesses| - 1, AllOps(accesses);
      assert ops[..n] == AllOps(accesses[..n]);
      NoInterference(m, own, accesses[..n], right);
      OneStep(After(m, ops[..n]), After(own, OpsOf(accesses[..n], right)), accesses[n], right);
      assert Replies(m, ops)[..n] == Replies(m, ops[..n]);
      if accesses[n].right == right {
        var mine := OpsOf(accesses, right);
        assert mine[..|mine| - 1] == OpsOf(accesses[..n], right);
      } else {
        assert OpsOf(accesses, right) == OpsOf(accesses[..n], right);
      }
    }
  }

  /** The two interfaces over one store: each behaves as a map of its own, and neither throws. */
  method Serve(kv: StateKV, accesses: seq<Access>, keeper: Keeper, ghost privileged: map<Bytes, Bytes>,
               ghost unprivileged: map<Bytes, Bytes>)
    returns (r: Outcome, replies: seq<Bytes>)
    requires kv.Valid()
    requires Part(kv.contents, Privileged, privileged) && Part(kv.contents, Unprivileged, unprivileged)
    modifies kv`top, kv`lost, kv`contents, kv`ever, kv.io.Parts()
    ensures r.Damaging? || Fair(kv.io.cache.store.crypto, r, Honest(keeper) && old(kv.io.cache.store.AllHeld()),
                                StateAfter(old(kv.State()), AllOps(accesses)).size)
    ensures r.Damaging? ==> !Careful(old(kv.contents), AllOps(accesses))
    ensures !r.Thrown?
    ensures r.Pass? ==> kv.Valid() && |replies| == |accesses|
    ensures r.Pass? ==> Part(kv.contents, Privileged, After(privileged, OpsOf(accesses, Privileged)))
    ensures r.Pass? ==> Part(kv.contents, Unprivileged, After(unprivileged, OpsOf(accesses, Unprivileged)))
    ensures r.Pass? ==> RepliesTo(accesses, replies, Privileged) == Replies(privileged, OpsOf(accesses, Privileged))
    ensures r.Pass? ==>
              RepliesTo(accesses, replies, Unprivileged) == Replies(unprivileged, OpsOf(accesses, Unprivileged))
  {
    hide StateKV.Valid, Part, After, Replies, Careful, OpsOf, RepliesTo, StateAfter, Intact, Honest;
    PairsAfter(kv.State(), AllOps(accesses));
    NoInterference(kv.contents, privileged, accesses, Privileged);
    NoInterference(kv.contents, unprivileged, accesses, Unprivileged);
    r, replies := Run(kv, AllOps(accesses), keeper);
  }
}
