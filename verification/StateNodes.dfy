/** The root block: the list of block ids as JSON, with an authenticator over their hash chain. */
module StateNodes {
  import opened ByteCodec
  import opened SecureBlockIo
  import opened Base64
  import opened JsonText
  import opened JsonRoundTrip
  import JsonBuffer

  const BLOCK_IDS: Bytes := [66, 108, 111, 99, 107, 73, 100, 115]
  const BLOCK_IDS_AUTH: Bytes := [66, 108, 111, 99, 107, 73, 100, 115, 65, 117, 116, 104]

  /** The running hash: each id is appended to the hash of all before it. */
  function Chain(c: Crypto, ids: seq<Bytes>): Bytes {
    if ids == [] then [] else c.hash(Chain(c, ids[..|ids| - 1]) + ids[|ids| - 1])
  }

  predicate AllIds(ids: seq<Bytes>) {
    forall i :: 0 <= i < |ids| ==> |ids[i]| == 32
  }

  /** The chain binds the whole list: from two different lists of ids, of whatever lengths, with
      one chain value, two different messages with one hash can be computed. */
  function ChainCollision(c: Crypto, xs: seq<Bytes>, ys: seq<Bytes>): (r: (Bytes, Bytes))
    requires CryptoOk(c) && AllIds(xs) && AllIds(ys) && xs != ys && Chain(c, xs) == Chain(c, ys)
    ensures r.0 != r.1 && c.hash(r.0) == c.hash(r.1)
  {
    assert xs != [] && ys != [];
    var m := Chain(c, xs[..|xs| - 1]) + xs[|xs| - 1];
    var n := Chain(c, ys[..|ys| - 1]) + ys[|ys| - 1];
    if m != n then (m, n) else
    SameEnds(Chain(c, xs[..|xs| - 1]), xs[|xs| - 1], Chain(c, ys[..|ys| - 1]), ys[|ys| - 1]);
    assert xs == xs[..|xs| - 1] + [xs[|xs| - 1]] && ys == ys[..|ys| - 1] + [ys[|ys| - 1]];
    ChainCollision(c, xs[..|xs| - 1], ys[..|ys| - 1])
  }

  lemma SameEnds(a: Bytes, x: Bytes, b: Bytes, y: Bytes)
    requires a + x == b + y && |x| == |y|
    ensures a == b && x == y
  {
    assert a == (a + x)[..|a|] && b == (b + y)[..|b|];
    assert x == (a + x)[|a|..] && y == (b + y)[|b|..];
  }

  function IdTexts(ids: seq<Bytes>): (r: seq<Json>)
    ensures |r| == |ids| && forall i :: 0 <= i < |r| ==> r[i] == Str(Encode(ids[i]))
  {
    seq(|ids|, i requires 0 <= i < |ids| => Str(Encode(ids[i])))
  }

  /** A list of ids with any bytes in the place of the authenticator. */
  function ListJson(ids: seq<Bytes>, auth: Bytes): Json {
    Obj([Member(BLOCK_IDS, Arr(IdTexts(ids))), Member(BLOCK_IDS_AUTH, Str(Encode(auth)))])
  }

  function RootJson(c: Crypto, ids: seq<Bytes>): Json {
    ListJson(ids, c.mac(Chain(c, ids)))
  }

  /** The serialized root block, with its terminating zero. */
  function RootBlock(c: Crypto, ids: seq<Bytes>): Bytes {
    Text(RootJson(c, ids), false) + [0]
  }

  /** The ids of an array of strings; None if an item is not a string. */
  function IdsOf(items: seq<Json>): Option<seq<Bytes>> {
    if items == [] then Some([])
    else
      var before := IdsOf(items[..|items| - 1]);
      var last := items[|items| - 1];
      if before.None? || !last.Str? then None else Some(before.value + [Decode(last.s)])
  }

  /** The ids that a root block lists, if it parses and its authenticator is right. */
  function Listed(c: Crypto, block: Bytes): Option<seq<Bytes>> {
    var v := Parse(block);
    if block == [] || v.None? || !v.value.Obj? then None
    else
      var list, auth := Find(v.value.members, BLOCK_IDS), Find(v.value.members, BLOCK_IDS_AUTH);
      if list.None? || !list.value.Arr? || auth.None? || !auth.value.Str? then None
      else
        var ids := IdsOf(list.value.items);
        if ids.None? || Decode(auth.value.s) != c.mac(Chain(c, ids.value)) then None else ids
  }

  lemma {:induction false} IdsOfTexts(ids: seq<Bytes>)
    ensures IdsOf(IdTexts(ids)) == Some(ids)
  {
    if ids != [] {
      var n := |ids| - 1;
      IdsOfTexts(ids[..n]);
      assert IdTexts(ids)[..n] == IdTexts(ids[..n]);
      DecodeEncode(ids[n]);
      assert ids == ids[..n] + [ids[n]];
    } else {
      assert IdTexts(ids) == [];
    }
  }

  lemma {:induction false} FlatItems(items: seq<Json>)
    requires forall i :: 0 <= i < |items| ==> items[i].Str?
    ensures ItemsHeight(items) == 0 && forall i :: 0 <= i < |items| ==> WellFormed(items[i])
  {
    if items != [] { FlatItems(items[1..]); }
  }

  lemma ListJsonOk(ids: seq<Bytes>, auth: Bytes)
    ensures WellFormed(ListJson(ids, auth)) && Height(ListJson(ids, auth)) <= 2
  {
    hide Encode;
    FlatItems(IdTexts(ids));
    var first := Member(BLOCK_IDS, Arr(IdTexts(ids)));
    var second := Member(BLOCK_IDS_AUTH, Str(Encode(auth)));
    assert [first, second][1..] == [second] && [second][1..] == [];
    assert MembersOk([]) && MembersOk([second]) && MembersHeight([]) == 0 && MembersHeight([second]) == 0;
    assert Height(first.value) <= 1 && WellFormed(first.value);
    assert MembersHeight([first, second]) <= 1;
    assert 0 !in first.name && first.name !in Names([second]);
  }

  /** The two members of a list of ids. */
  lemma ListMembers(ids: seq<Bytes>, auth: Bytes)
    ensures Find(ListJson(ids, auth).members, BLOCK_IDS) == Some(Arr(IdTexts(ids)))
    ensures Find(ListJson(ids, auth).members, BLOCK_IDS_AUTH) == Some(Str(Encode(auth)))
  {
    hide Encode, IdTexts;
    var first := Member(BLOCK_IDS, Arr(IdTexts(ids)));
    var second := Member(BLOCK_IDS_AUTH, Str(Encode(auth)));
    assert |BLOCK_IDS| == 8 && |BLOCK_IDS_AUTH| == 12;
    assert [first, second][1..] == [second];
    assert Find([second], BLOCK_IDS_AUTH) == Some(second.value);
    assert Find([first, second], BLOCK_IDS_AUTH) == Find([second], BLOCK_IDS_AUTH);
  }

  /** A block that holds a list of ids, however it is laid out, is accepted if and only if its
      authenticator is that of the hash chain over the ids. */
  lemma AuthenticatorDecides(c: Crypto, block: Bytes, ids: seq<Bytes>, auth: Bytes)
    requires Parse(block) == Some(ListJson(ids, auth))
    ensures Listed(c, block) == if auth == c.mac(Chain(c, ids)) then Some(ids) else None
  {
    hide Parse, Encode, Decode, IdsOf;
    NoBlock();
    ListMembers(ids, auth);
    IdsOfTexts(ids);
    DecodeEncode(auth);
  }

  lemma NoBlock()
    ensures Parse([]).None?
  {
  }

  /** The same for the text that the serializer writes. */
  lemma AnyAuthenticator(c: Crypto, ids: seq<Bytes>, auth: Bytes, after: Bytes)
    ensures Listed(c, Text(ListJson(ids, auth), false) + after) ==
            if auth == c.mac(Chain(c, ids)) then Some(ids) else None
  {
    hide Text, Parse, Encode, Decode, IdsOf, WellFormed, Height, Listed;
    ListJsonOk(ids, auth);
    ParseText(ListJson(ids, auth), false, after);
    AuthenticatorDecides(c, Text(ListJson(ids, auth), false) + after, ids, auth);
  }

  /** The bytes that a block carries as its authenticator. */
  function AuthOf(block: Bytes): Option<Bytes> {
    var v := Parse(block);
    if v.None? || !v.value.Obj? then None
    else
      var auth := Find(v.value.members, BLOCK_IDS_AUTH);
      if auth.None? || !auth.value.Str? then None else Some(Decode(auth.value.s))
  }

  /** Whatever block is accepted carries the authenticator of its own list. */
  lemma AcceptedAuth(c: Crypto, block: Bytes)
    requires Listed(c, block).Some?
    ensures AuthOf(block) == Some(c.mac(Chain(c, Listed(c, block).value)))
  {
    hide Parse, Decode, IdsOf;
  }

  /** Two blocks that are accepted with one authenticator but list different ids show two different
      messages with one hash, or two different chain values with one authenticator. */
  lemma OneListPerAuthenticator(c: Crypto, block: Bytes, block': Bytes) returns (hashes: bool, m: Bytes, n: Bytes)
    requires CryptoOk(c) && Listed(c, block).Some? && Listed(c, block').Some? && AuthOf(block) == AuthOf(block')
    requires Listed(c, block) != Listed(c, block')
    requires AllIds(Listed(c, block).value) && AllIds(Listed(c, block').value)
    ensures m != n && if hashes then c.hash(m) == c.hash(n) else c.mac(m) == c.mac(n)
  {
    hide Listed, AuthOf, Chain;
    AcceptedAuth(c, block);
    AcceptedAuth(c, block');
    var xs, ys := Listed(c, block).value, Listed(c, block').value;
    m, n := Chain(c, xs), Chain(c, ys);
    hashes := m == n;
    if hashes {
      var r := ChainCollision(c, xs, ys);
      m, n := r.0, r.1;
    }
  }

  /** The chain over three ids, written out. */
  lemma ChainOfThree(c: Crypto, x: Bytes, y: Bytes, z: Bytes)
    ensures Chain(c, [x, y, z]) == c.hash(c.hash(c.hash(x) + y) + z)
  {
    assert [x, y, z][..2] == [x, y] && [x, y][..1] == [x] && [x][..0] == [];
    assert [] + x == x;
    assert Chain(c, [x]) == c.hash(x) && Chain(c, [x, y]) == c.hash(c.hash(x) + y);
  }

  /** Bytes that a string shows as they are. */
  predicate Printable(s: Bytes) {
    forall i :: 0 <= i < |s| ==> s[i] >= 32 && s[i] != QUOTE && s[i] != BACKSLASH
  }

  lemma {:induction false} EscapedPlain(s: Bytes)
    requires Printable(s)
    ensures Escaped(s, false) == s
  {
    if s != [] {
      EscapedPlain(s[1..]);
      assert s == [s[0]] + s[1..];
    }
  }

  lemma {:induction false} EncodePlain(buf: Bytes)
    ensures Printable(Encode(buf))
  {
    hide Symbol, Sextets;
    if |buf| >= 3 {
      EncodePlain(buf[3..]);
      forall i | 0 <= i < 4 ensures Printable([Encode(buf)[i]]) {
        SymbolPlain(Sextets(buf[0], buf[1], buf[2])[i]);
      }
    } else if buf != [] {
      TailPlain(buf);
    }
  }

  lemma TailPlain(buf: Bytes)
    requires 0 < |buf| < 3
    ensures Printable(EncodeTail(buf))
  {
    hide Symbol, Sextets;
    var s := if |buf| == 1 then Sextets(buf[0], 0, 0)[..2] else Sextets(buf[0], buf[1], 0)[..3];
    forall i | 0 <= i < |s| ensures Printable([Symbol(s[i])]) { SymbolPlain(s[i]); }
  }

  lemma SymbolPlain(v: int)
    requires 0 <= v < 64
    ensures Printable([Symbol(v)])
  {
  }

  /** The ids in base64 and in quotes, with commas between them. */
  function IdList(ids: seq<Bytes>): Bytes {
    if ids == [] then []
    else [QUOTE] + Encode(ids[0]) + [QUOTE] + if |ids| == 1 then [] else [COMMA] + IdList(ids[1..])
  }

  lemma {:induction false} IdListIs(ids: seq<Bytes>)
    ensures ItemsText(IdTexts(ids), false) == IdList(ids)
  {
    hide Encode, Escaped;
    if ids != [] {
      assert IdTexts(ids)[1..] == IdTexts(ids[1..]);
      EncodePlain(ids[0]);
      EscapedPlain(Encode(ids[0]));
      IdListIs(ids[1..]);
    }
  }

  /** The root block, byte by byte. */
  lemma RootText(c: Crypto, ids: seq<Bytes>)
    ensures RootBlock(c, ids) ==
            Ascii("{\"BlockIds\":[") + IdList(ids) + Ascii("],\"BlockIdsAuth\":\"")
            + Encode(c.mac(Chain(c, ids))) + Ascii("\"}") + [0]
  {
    hide *;
    var auth := c.mac(Chain(c, ids));
    FirstMember(ids);
    SecondMember(auth);
    WordsOfRoot();
    RootParts(c, ids);
    Reassemble([OPEN_BRACE], [QUOTE] + BLOCK_IDS + [QUOTE, COLON, OPEN_BRACKET], IdList(ids), [CLOSE_BRACKET], [COMMA],
               [QUOTE] + BLOCK_IDS_AUTH + [QUOTE, COLON, QUOTE], Encode(auth), [QUOTE], [CLOSE_BRACE]);
  }

  lemma FirstMember(ids: seq<Bytes>)
    ensures MemberText(Member(BLOCK_IDS, Arr(IdTexts(ids))), false) ==
            [QUOTE] + BLOCK_IDS + [QUOTE, COLON, OPEN_BRACKET] + IdList(ids) + [CLOSE_BRACKET]
  {
    hide Escaped, ItemsText, IdList;
    IdListIs(ids);
    EscapedPlain(BLOCK_IDS);
  }

  lemma SecondMember(auth: Bytes)
    ensures MemberText(Member(BLOCK_IDS_AUTH, Str(Encode(auth))), false) ==
            [QUOTE] + BLOCK_IDS_AUTH + [QUOTE, COLON, QUOTE] + Encode(auth) + [QUOTE]
  {
    hide Escaped, Encode;
    EncodePlain(auth);
    EscapedPlain(Encode(auth));
    EscapedPlain(BLOCK_IDS_AUTH);
  }

  lemma WordsOfRoot()
    ensures Ascii("{\"BlockIds\":[") == [OPEN_BRACE] + ([QUOTE] + BLOCK_IDS + [QUOTE, COLON, OPEN_BRACKET])
    ensures Ascii("],\"BlockIdsAuth\":\"") ==
            [CLOSE_BRACKET] + [COMMA] + ([QUOTE] + BLOCK_IDS_AUTH + [QUOTE, COLON, QUOTE])
    ensures Ascii("\"}") == [QUOTE] + [CLOSE_BRACE]
  {
  }

  lemma RootParts(c: Crypto, ids: seq<Bytes>)
    ensures var auth := c.mac(Chain(c, ids));
            RootBlock(c, ids) ==
            [OPEN_BRACE] + (MemberText(Member(BLOCK_IDS, Arr(IdTexts(ids))), false) + [COMMA]
            + MemberText(Member(BLOCK_IDS_AUTH, Str(Encode(auth))), false)) + [CLOSE_BRACE] + [0]
  {
    hide MemberText, Encode, Chain, IdTexts;
    TwoMembers(Member(BLOCK_IDS, Arr(IdTexts(ids))), Member(BLOCK_IDS_AUTH, Str(Encode(c.mac(Chain(c, ids))))));
  }

  lemma Reassemble(a: Bytes, b: Bytes, x: Bytes, d: Bytes, e: Bytes, f: Bytes, y: Bytes, g: Bytes, h: Bytes)
    ensures a + ((b + x + d) + e + (f + y + g)) + h == (a + b) + x + (d + e + f) + y + (g + h)
  {
    assert a + ((b + x + d) + e + (f + y + g)) == ((a + b) + x) + ((d + e + f) + y + g);
  }

  lemma TwoMembers(m: Member, n: Member)
    ensures MembersText([m, n], false) == MemberText(m, false) + [COMMA] + MemberText(n, false)
  {
    hide MemberText;
    assert [m, n][1..] == [n];
  }

  /** Reading a root block gives back the list it was made from. */
  lemma RootBlockRoundTrip(c: Crypto, ids: seq<Bytes>)
    ensures Listed(c, RootBlock(c, ids)) == Some(ids)
  {
    hide Text, Listed, ListJson;
    AnyAuthenticator(c, ids, c.mac(Chain(c, ids)), [0]);
  }

  class StateNode {
    var blockId: Bytes
    var block: Bytes
    var children: seq<Bytes>

    constructor ()
      ensures blockId == [] && block == [] && children == []
    {
      blockId, block, children := [], [], [];
    }

    method AppendChildId(id: Bytes)
      modifies this`children
      ensures children == old(children) + [id]
    {
      children := children + [id];
    }

    method ClearChildren()
      modifies this`children
      ensures children == []
    {
      children := [];
    }

    /** BlockifyChildren: hashes the ids one after the other and writes the JSON text. */
    method BlockifyChildren(c: Crypto)
      modifies this`block, this`children
      ensures block == RootBlock(c, old(children)) && children == []
    {
      hide Text, Encode;
      var hash: Bytes, list: seq<Json> := [], [];
      var i := 0;
      while i < |children|
        invariant i <= |children| && children == old(children)
        invariant hash == Chain(c, children[..i]) && list == IdTexts(children[..i])
      {
        var text := EncodeBuffer(children[i]);
        assert children[..i + 1][..i] == children[..i];
        hash := c.hash(hash + children[i]);
        list := list + [Str(text)];
        i := i + 1;
      }
      assert children[..i] == children;
      children := [];
      var auth := EncodeBuffer(c.mac(hash));
      var value := Obj([Member(BLOCK_IDS, Arr(list)), Member(BLOCK_IDS_AUTH, Str(auth))]);
      var size := JsonBuffer.Serialize(value, false, null, 0);
      var buf := new byte[size + 1];
      var ok := JsonBuffer.SerializeToBuffer(value, false, buf);
      assert buf[..] == buf[..size + 1];
      block := buf[..];
    }

    /** UnBlockifyChildren: fails unless the block parses, holds a list of strings and carries the
        right authenticator. */
    method UnBlockifyChildren(c: Crypto) returns (ok: bool)
      requires children == []
      modifies this`children
      ensures ok <==> Listed(c, block).Some?
      ensures ok ==> Listed(c, block) == Some(children)
    {
      hide Parse, Decode;
      if block == [] {
        return false;
      }
      var v := JsonBuffer.ParseString(block);
      if v.None? || !v.value.Obj? {
        return false;
      }
      var list, auth := Find(v.value.members, BLOCK_IDS), Find(v.value.members, BLOCK_IDS_AUTH);
      if list.None? || !list.value.Arr? {
        return false;
      }
      var items, hash: Bytes := list.value.items, [];
      var i := 0;
      while i < |items|
        invariant i <= |items| && IdsOf(items[..i]) == Some(children) && hash == Chain(c, children)
      {
        assert items[..i + 1][..i] == items[..i];
        if !items[i].Str? {
          NotIds(items, i);
          return false;
        }
        var id := DecodeText(items[i].s);
        assert (children + [id])[..|children|] == children;
        children := children + [id];
        hash := c.hash(hash + id);
        i := i + 1;
      }
      assert items[..i] == items;
      if auth.None? || !auth.value.Str? {
        return false;
      }
      var expected := DecodeText(auth.value.s);
      ok := expected == c.mac(hash);
    }
  }

  lemma {:induction false} NotIds(items: seq<Json>, i: nat)
    requires i < |items| && !items[i].Str?
    ensures IdsOf(items).None?
    decreases |items|
  {
    if i < |items| - 1 { NotIds(items[..|items| - 1], i); }
  }
}
