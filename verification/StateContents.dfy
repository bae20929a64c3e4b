/** What a store holds, as its callers see it. */
module StateContents {
  import opened ByteCodec
  import opened FreeSpace
  import opened DataNodeIo
  import opened Tries
  import opened TrieMap
  import opened TrieUpdate

  /** The pairs, which key came first, all keys that were ever put, and a bound for the bytes below
      the append cursor. */
  datatype Contents = Contents(pairs: map<Bytes, Bytes>, first: First, ever: set<Bytes>, size: nat)

  /** The same contents, with no larger bound. */
  predicate Within(s: Contents, t: Contents) {
    s == t.(size := s.size) && s.size <= t.size
  }

  /** The trie holds exactly this map. */
  ghost predicate Represents(top: Tree, m: map<Bytes, Bytes>) {
    forall k :: Lookup(top, k) == if k in m then Some(m[k]) else None
  }

  /** Whatever the trie spells is a part of a key that was put. */
  ghost predicate OnlyKeys(top: Tree, ever: set<Bytes>) {
    forall p :: Touches(top, p) ==> exists k :: k in ever && p <= k
  }

  /** Two different keys begin with the same byte. */
  ghost predicate Clash(ever: set<Bytes>) {
    exists j, k :: j in ever && k in ever && Alike(j, k)
  }

  predicate Alike(j: Bytes, k: Bytes) {
    j != k && j != [] && k != [] && j[0] == k[0]
  }

  /** Only keys that begin alike lead to an empty append block. */
  ghost predicate TailOk(s: Space, ever: set<Bytes>) {
    EmptyTail(s) ==> Clash(ever)
  }

  lemma MeansOf(top: Tree, m: map<Bytes, Bytes>, key: Bytes)
    requires Represents(top, m)
    ensures Lookup(top, key) == if key in m then Some(m[key]) else None
  {
  }

  lemma DeadMeans(top: Tree, m: map<Bytes, Bytes>)
    requires Shape(top) && Represents(top, m)
    ensures DeadHead(top) <==> HeadOf(top) == FirstKey(true) && [] !in m
  {
    DeadHeadIff(top);
    MeansOf(top, m, []);
  }

  lemma AfterPut(top: Tree, top': Tree, m: map<Bytes, Bytes>, key: Bytes, value: Bytes)
    requires Represents(top, m) && Updates(top, top', key, Some(value))
    ensures Represents(top', m[key := value])
  {
  }

  lemma AfterDelete(top: Tree, top': Tree, m: map<Bytes, Bytes>, key: Bytes)
    requires Represents(top, m) && Updates(top, top', key, None)
    ensures Represents(top', m - {key})
  {
  }

  lemma KeysAfterPut(top: Tree, top': Tree, ever: set<Bytes>, key: Bytes)
    requires OnlyKeys(top, ever) && OldPaths(top, top', key)
    ensures OnlyKeys(top', ever + {key})
  {
    forall p | Touches(top', p) ensures exists k :: k in ever + {key} && p <= k {
      if p <= key {
        assert key in ever + {key};
      } else {
        var k :| k in ever && p <= k;
        assert k in ever + {key};
      }
    }
  }

  lemma KeysAfterDelete(top: Tree, top': Tree, ever: set<Bytes>)
    requires OnlyKeys(top, ever) && NoNewPaths(top, top')
    ensures OnlyKeys(top', ever)
  {
  }

  lemma ClashStays(ever: set<Bytes>, key: Bytes)
    requires Clash(ever)
    ensures Clash(ever + {key})
  {
    var j, k :| j in ever && k in ever && Alike(j, k);
    assert j in ever + {key} && k in ever + {key};
  }

  /** A split is made only for a key that begins like another key that was put before. */
  lemma SplitMeansClash(top: Tree, ever: set<Bytes>, key: Bytes)
    requires OnlyKeys(top, ever) && Splits(top, key)
    ensures exists k :: k in ever && Alike(k, key)
    ensures Clash(ever + {key})
  {
    var p := SplitsTouch(top, key);
    var k :| k in ever && p <= k;
    assert Alike(k, key) && k in ever + {key} && key in ever + {key};
  }

  lemma TailAfterPut(s: Space, s': Space, top: Tree, ever: set<Bytes>, key: Bytes, need: nat)
    requires OnlyKeys(top, ever) && TailOk(s, ever) && PutGrew(s, s', Splits(top, key), need)
    ensures TailOk(s', ever + {key})
  {
    hide OnlyKeys, RangeLeft, Clash;
    if EmptyTail(s') {
      if Splits(top, key) { SplitMeansClash(top, ever, key); } else { ClashStays(ever, key); }
    }
  }

  lemma TailSame(s: Space, s': Space, ever: set<Bytes>)
    ensures s'.size == s.size && s'.end == s.end && TailOk(s, ever) ==> TailOk(s', ever)
  {
  }

  lemma TailKept(s: Space, s': Space, ever: set<Bytes>, marked: bool)
    requires TailOk(s, ever) && Spent(s, s', 0, marked)
    ensures TailOk(s', ever) && s.end <= s'.end && s.size <= s'.size
    ensures if marked then s'.end <= s.end + 1 else s'.end == s.end && s'.size == s.size
  {
  }

  /** A put gives the key its value, and uses the space that a put may use. */
  lemma Added(top: Tree, top': Tree, m: map<Bytes, Bytes>, ever: set<Bytes>, key: Bytes, value: Bytes, out: Bytes,
                 s: Space, s': Space)
    requires Represents(top, m) && OnlyKeys(top, ever) && TailOk(s, ever)
    requires Operated(PutOp, key, value, out, top, top', s, s')
    ensures Represents(top', m[key := value]) && OnlyKeys(top', ever + {key}) && TailOk(s', ever + {key})
    ensures HeadOf(top') == HeadAfter(PutOp, key, HeadOf(top))
    ensures PutGrew(s, s', Splits(top, key), PutNeed(key, value))
  {
    hide Represents, Updates, OnlyKeys, PutGrew, OldPaths, TailOk, Splits, PutNeed;
    AfterPut(top, top', m, key, value);
    KeysAfterPut(top, top', ever, key);
    TailAfterPut(s, s', top, ever, key, PutNeed(key, value));
  }

  /** A deletion takes the key away, and appends at most the mark of an empty value. */
  lemma Deleted(top: Tree, top': Tree, m: map<Bytes, Bytes>, ever: set<Bytes>, key: Bytes, out: Bytes, s: Space,
                s': Space)
    requires Represents(top, m) && OnlyKeys(top, ever) && TailOk(s, ever)
    requires Operated(DelOp, key, [], out, top, top', s, s')
    ensures Represents(top', m - {key}) && OnlyKeys(top', ever) && TailOk(s', ever) && HeadOf(top') == HeadOf(top)
    ensures s.end <= s'.end <= s.end + if MarksIn(DelOp, top, key) then 1 else 0
    ensures s'.size == s.size || MarksIn(DelOp, top, key)
  {
    hide Represents, Updates, OnlyKeys, Spent, NoNewPaths, TailOk;
    AfterDelete(top, top', m, key);
    KeysAfterDelete(top, top', ever);
    TailKept(s, s', ever, MarksIn(DelOp, top, key));
  }
}
