/** The base64 codec. Texts are ASCII codes. */
module Base64 {
  import opened ByteCodec

  const PAD: byte := 61

  function Upper(): string { "ABCDEFGHIJKLM" + "NOPQRSTUVWXYZ" }

  function Lower(): string { "abcdefghijklm" + "nopqrstuvwxyz" }

  function Digits(): string { "0123456789" }

  /** The alphabet of section 4 of RFC 4648. */
  function Alphabet(): (s: string)
    ensures |s| == 64
  {
    Upper() + Lower() + Digits() + "+/"
  }

  function Symbol(v: int): (c: byte)
    requires 0 <= v < 64
    ensures IsSymbol(c) && Index(c) == v && c != PAD
  {
    if v < 26 then 65 + v else if v < 52 then 71 + v else if v < 62 then v - 4 else if v == 62 then 43 else 47
  }

  /** is_base64: letters, digits, plus and slash. */
  predicate IsSymbol(c: byte) {
    65 <= c <= 90 || 97 <= c <= 122 || 48 <= c <= 57 || c == 43 || c == 47
  }

  /** The position of a symbol in the alphabet. */
  function Index(c: byte): (v: int)
    requires IsSymbol(c)
    ensures 0 <= v < 64
  {
    if 65 <= c <= 90 then c - 65 else if 97 <= c <= 122 then c - 71 else if 48 <= c <= 57 then c + 4
    else if c == 43 then 62 else 63
  }

  /** The symbol of a value is the letter at its place in the alphabet. */
  lemma SymbolIsLetter(v: int)
    requires 0 <= v < 64
    ensures Symbol(v) == Alphabet()[v] as int
  {
    hide Upper, Lower, Digits;
    LetterOrDigit(v % 26);
    if 26 <= v < 52 { LetterOrDigit(v - 26); } else if 52 <= v < 62 { LetterOrDigit(v - 52); }
  }

  lemma LetterOrDigit(v: int)
    requires 0 <= v < 26
    ensures |Upper()| == 26 && Upper()[v] as int == 65 + v
    ensures |Lower()| == 26 && Lower()[v] as int == 97 + v
    ensures |Digits()| == 10 && (v < 10 ==> Digits()[v] as int == 48 + v)
  {
    assert Upper()[0] == 'A' && Lower()[0] == 'a' && Digits()[0] == '0';
  }

  /** The four sextets of three bytes. */
  function Sextets(a: byte, b: byte, c: byte): (s: seq<int>)
    ensures |s| == 4 && forall i :: 0 <= i < 4 ==> 0 <= s[i] < 64
  {
    [a / 4, a % 4 * 16 + b / 16, b % 16 * 4 + c / 64, c % 64]
  }

  /** The three bytes of four sextets. */
  function Octets(s: seq<int>): (r: Bytes)
    requires |s| == 4 && forall i :: 0 <= i < 4 ==> 0 <= s[i] < 64
    ensures |r| == 3
  {
    [s[0] * 4 + s[1] / 16, s[1] % 16 * 16 + s[2] / 4, s[2] % 4 * 64 + s[3]]
  }

  lemma OctetsOfSextets(a: byte, b: byte, c: byte)
    ensures Octets(Sextets(a, b, c)) == [a, b, c]
  {
  }

  function Symbols(s: seq<int>): (r: Bytes)
    requires forall i :: 0 <= i < |s| ==> 0 <= s[i] < 64
    ensures |r| == |s| && forall i :: 0 <= i < |s| ==> r[i] == Symbol(s[i])
  {
    if s == [] then [] else Symbols(s[..|s| - 1]) + [Symbol(s[|s| - 1])]
  }

  /** The text of a byte sequence: four symbols for each three bytes, the last group padded. */
  function Encode(buf: Bytes): (text: Bytes)
    ensures |text| == (|buf| + 2) / 3 * 4
  {
    if |buf| >= 3 then Symbols(Sextets(buf[0], buf[1], buf[2])) + Encode(buf[3..])
    else EncodeTail(buf)
  }

  function EncodeTail(buf: Bytes): (text: Bytes)
    requires |buf| < 3
    ensures |text| == if buf == [] then 0 else 4
  {
    if buf == [] then []
    else if |buf| == 1 then Symbols(Sextets(buf[0], 0, 0)[..2]) + [PAD, PAD]
    else Symbols(Sextets(buf[0], buf[1], 0)[..3]) + [PAD]
  }

  /** The bytes of a group of fewer than four symbols; a single symbol gives none. */
  function DecodeTail(pending: Bytes): (r: Bytes)
    requires |pending| < 4 && forall i :: 0 <= i < |pending| ==> IsSymbol(pending[i])
  {
    if |pending| < 2 then []
    else if |pending| == 2 then Octets([Index(pending[0]), Index(pending[1]), 0, 0])[..1]
    else Octets([Index(pending[0]), Index(pending[1]), Index(pending[2]), 0])[..2]
  }

  /** Decoding a text up to the first padding or foreign byte, with some symbols already read. */
  function DecodeFrom(pending: Bytes, text: Bytes): Bytes
    requires |pending| < 4 && forall i :: 0 <= i < |pending| ==> IsSymbol(pending[i])
    decreases text
  {
    if text == [] || !IsSymbol(text[0]) then DecodeTail(pending)
    else if |pending| < 3 then DecodeFrom(pending + [text[0]], text[1..])
    else
      Octets([Index(pending[0]), Index(pending[1]), Index(pending[2]), Index(text[0])]) + DecodeFrom([], text[1..])
  }

  function Decode(text: Bytes): Bytes {
    DecodeFrom([], text)
  }

  /** Reading symbols up to a full group. */
  lemma {:induction false} ReadPending(pending: Bytes, more: Bytes, text: Bytes)
    requires |pending| + |more| < 4 && forall i :: 0 <= i < |pending| ==> IsSymbol(pending[i])
    requires forall i :: 0 <= i < |more| ==> IsSymbol(more[i])
    ensures forall i :: 0 <= i < |pending + more| ==> IsSymbol((pending + more)[i])
    ensures DecodeFrom(pending, more + text) == DecodeFrom(pending + more, text)
    decreases more
  {
    if more == [] {
      assert more + text == text && pending + more == pending;
    } else {
      assert (more + text)[1..] == more[1..] + text;
      assert pending + more == (pending + [more[0]]) + more[1..];
      ReadPending(pending + [more[0]], more[1..], text);
    }
  }

  lemma DecodeGroup(a: byte, b: byte, c: byte, rest: Bytes)
    ensures Decode(Symbols(Sextets(a, b, c)) + rest) == [a, b, c] + Decode(rest)
  {
    hide DecodeTail, Symbol, IsSymbol, Index;
    var s := Sextets(a, b, c);
    var q := Symbols(s);
    var more := [q[3]] + rest;
    assert q + rest == q[..3] + more;
    ReadPending([], q[..3], more);
    assert [] + q[..3] == q[..3];
    assert more[0] == q[3] && more[1..] == rest;
    assert [Index(q[0]), Index(q[1]), Index(q[2]), Index(q[3])] == s;
    OctetsOfSextets(a, b, c);
  }

  /** Decoding undoes encoding, for every byte sequence. */
  lemma {:induction false} DecodeEncode(buf: Bytes)
    ensures Decode(Encode(buf)) == buf
  {
    if |buf| >= 3 {
      DecodeGroup(buf[0], buf[1], buf[2], Encode(buf[3..]));
      DecodeEncode(buf[3..]);
      assert buf == [buf[0], buf[1], buf[2]] + buf[3..];
    } else if buf != [] {
      DecodeEncodeTail(buf);
    }
  }

  lemma DecodeEncodeTail(buf: Bytes)
    requires 0 < |buf| < 3
    ensures Decode(EncodeTail(buf)) == buf
  {
    if |buf| == 1 {
      var q := Symbols(Sextets(buf[0], 0, 0)[..2]);
      ReadPending([], q, [PAD, PAD]);
      assert [] + q == q;
      OctetsOfSextets(buf[0], 0, 0);
      assert buf == [buf[0]];
    } else {
      var q := Symbols(Sextets(buf[0], buf[1], 0)[..3]);
      ReadPending([], q, [PAD]);
      assert [] + q == q;
      OctetsOfSextets(buf[0], buf[1], 0);
      assert buf == [buf[0], buf[1]];
    }
  }

  function At(s: seq<int>, i: nat): int {
    if i < |s| then s[i] else 0
  }

  /** The 24 bits of the bytes of one group, the first byte highest; missing bytes are zero. */
  function BitsOfBytes(b: seq<int>, group: nat): int {
    65536 * At(b, 3 * group) + 256 * At(b, 3 * group + 1) + At(b, 3 * group + 2)
  }

  /** The 24 bits of the letters of one group, given their places in the alphabet. */
  function BitsOfLetters(places: seq<int>, group: nat): int {
    262144 * At(places, 4 * group) + 4096 * At(places, 4 * group + 1) + 64 * At(places, 4 * group + 2)
      + At(places, 4 * group + 3)
  }

  /** The `j`-th six of 24 bits, the highest first. */
  function SixBits(n: int, j: nat): int {
    (if j == 0 then n / 262144 else if j == 1 then n / 4096 else if j == 2 then n / 64 else n) % 64
  }

  /** The `k`-th eight of 24 bits, the highest first. */
  function EightBits(n: int, k: nat): int {
    (if k == 0 then n / 65536 else if k == 1 then n / 256 else n) % 256
  }

  lemma SixBitsOf(s: seq<int>, j: nat)
    requires |s| == 4 && j < 4 && forall i :: 0 <= i < 4 ==> 0 <= s[i] < 64
    ensures SixBits(BitsOfLetters(s, 0), j) == s[j]
  {
    var n := 262144 * s[0] + 4096 * s[1] + 64 * s[2] + s[3];
    assert n / 4096 == 64 * s[0] + s[1];
    assert n / 64 == 4096 * s[0] + 64 * s[1] + s[2];
  }

  lemma EightBitsOf(b: Bytes, k: nat)
    requires |b| == 3 && k < 3
    ensures EightBits(BitsOfBytes(b, 0), k) == b[k]
  {
    var high: int, middle: int := b[0], b[1];
    assert BitsOfBytes(b, 0) / 256 == 256 * high + middle;
  }

  lemma SameBits(b: Bytes, s: seq<int>)
    requires |b| == 3 && |s| == 4 && forall i :: 0 <= i < 4 ==> 0 <= s[i] < 64
    ensures s == Sextets(b[0], b[1], b[2]) || b == Octets(s) ==> BitsOfBytes(b, 0) == BitsOfLetters(s, 0)
  {
  }

  /** What an encoded text is: letter `j` of a group names six of its bits, the first letter the
      highest ones; `=` stands where there is no byte left to name. */
  lemma {:induction false} EncodeMeans(buf: Bytes, group: nat, j: nat)
    requires 3 * group < |buf| && j < 4
    ensures 4 * group + j < |Encode(buf)|
    ensures Encode(buf)[4 * group + j] ==
            if 3 * group + j <= |buf|
            then Alphabet()[SixBits(BitsOfBytes(buf, group), j)] as int
            else '=' as int
    decreases group
  {
    hide *;
    if group == 0 {
      FirstGroup(buf, j);
    } else {
      LaterGroup(buf, group, j);
      EncodeMeans(buf[3..], group - 1, j);
    }
  }

  lemma LaterGroup(buf: Bytes, group: nat, j: nat)
    requires 0 < group && 3 * group < |buf| && j < 4
    ensures 4 * group + j < |Encode(buf)| && 4 * (group - 1) + j < |Encode(buf[3..])|
    ensures Encode(buf)[4 * group + j] == Encode(buf[3..])[4 * (group - 1) + j]
    ensures BitsOfBytes(buf, group) == BitsOfBytes(buf[3..], group - 1)
  {
    hide Symbols, Sextets, EncodeTail;
    assert Encode(buf) == Symbols(Sextets(buf[0], buf[1], buf[2])) + Encode(buf[3..]);
  }

  lemma FirstGroup(buf: Bytes, j: nat)
    requires buf != [] && j < 4
    ensures Encode(buf)[j] ==
            if j <= |buf| then Alphabet()[SixBits(BitsOfBytes(buf, 0), j)] as int else '=' as int
  {
    hide Symbol, Alphabet, SixBits, Sextets, Encode;
    var b: Bytes := [buf[0], At(buf, 1), At(buf, 2)];
    var s := Sextets(b[0], b[1], b[2]);
    FirstSymbol(buf, j);
    SameBits(b, s);
    SixBitsOf(s, j);
    SymbolIsLetter(s[j]);
  }

  lemma FirstSymbol(buf: Bytes, j: nat)
    requires buf != [] && j < 4
    ensures Encode(buf)[j] == if j <= |buf| then Symbol(Sextets(buf[0], At(buf, 1), At(buf, 2))[j]) else PAD
  {
    hide Symbol, Sextets, Symbols, Encode;
    if |buf| >= 3 { FirstOfThree(buf, j); } else { FirstOfFew(buf, j); }
  }

  lemma FirstOfThree(buf: Bytes, j: nat)
    requires |buf| >= 3 && j < 4
    ensures Encode(buf)[j] == Symbol(Sextets(buf[0], buf[1], buf[2])[j])
  {
    hide Symbol, Sextets, Symbols, Encode;
    EncodeGroup(buf[..3], buf[3..]);
    assert buf == buf[..3] + buf[3..];
  }

  lemma FirstOfFew(buf: Bytes, j: nat)
    requires 0 < |buf| < 3 && j < 4
    ensures |buf| == 1 ==> Encode(buf)[j] == if j <= 1 then Symbol(Sextets(buf[0], 0, 0)[j]) else PAD
    ensures |buf| == 2 ==> Encode(buf)[j] == if j <= 2 then Symbol(Sextets(buf[0], buf[1], 0)[j]) else PAD
  {
    hide Symbol, Sextets, Symbols, Encode;
    EncodeLast(buf);
  }

  /** `places` are the places in the alphabet of the letters with which the text begins; something
      else, or nothing, follows them. */
  ghost predicate Letters(text: Bytes, places: seq<int>) {
    && |places| <= |text|
    && (forall i :: 0 <= i < |places| ==> 0 <= places[i] < 64 && text[i] == Alphabet()[places[i]] as int)
    && (|places| < |text| ==> forall v :: 0 <= v < 64 ==> text[|places|] != Alphabet()[v] as int)
  }

  /** What any text decodes to: the bytes that are whole in the bits of its leading letters. */
  lemma {:induction false} DecodeMeans(text: Bytes, places: seq<int>, k: nat)
    requires Letters(text, places)
    ensures |Decode(text)| == 3 * |places| / 4
    ensures k < |Decode(text)| ==>
              Decode(text)[k] == EightBits(BitsOfLetters(places, k / 3), k % 3)
    decreases |places|
  {
    hide Alphabet, Octets, EightBits, Decode, Letters;
    if |places| < 4 {
      LettersFit(text, places);
      DecodeFew(text, places);
      if k < 3 { OctetsMean([At(places, 0), At(places, 1), At(places, 2), 0], k); }
    } else {
      LettersFit(text, places);
      DecodeFirst(text, places);
      DecodeMeans(text[4..], places[4..], if k < 3 then 0 else k - 3);
      if k < 3 {
        OctetsMean(places[..4], k);
      } else {
        assert BitsOfLetters(places, k / 3) == BitsOfLetters(places[4..], (k - 3) / 3);
      }
    }
  }

  lemma LettersFit(text: Bytes, places: seq<int>)
    requires Letters(text, places)
    ensures |places| <= |text| && forall i :: 0 <= i < |places| ==> 0 <= places[i] < 64
  {
  }

  lemma DecodeFirst(text: Bytes, places: seq<int>)
    requires Letters(text, places) && |places| >= 4
    ensures Letters(text[4..], places[4..]) && forall i :: 0 <= i < 4 ==> 0 <= places[..4][i] < 64
    ensures Decode(text) == Octets(places[..4]) + Decode(text[4..])
  {
    hide Symbol, Alphabet, Index, IsSymbol, Octets, Decode;
    LettersAreSymbols(text, places);
    DecodeFour(text);
    assert [Index(text[0]), Index(text[1]), Index(text[2]), Index(text[3])] == places[..4];
    assert forall i :: 0 <= i < |places| - 4 ==> text[4..][i] == text[i + 4];
  }

  lemma DecodeFew(text: Bytes, places: seq<int>)
    requires Letters(text, places) && |places| < 4
    ensures |Decode(text)| == 3 * |places| / 4
    ensures Decode(text) == Octets([At(places, 0), At(places, 1), At(places, 2), 0])[..3 * |places| / 4]
  {
    hide Symbol, Alphabet, Index, IsSymbol, Octets;
    LettersAreSymbols(text, places);
    var n := |places|;
    ReadPending([], text[..n], text[n..]);
    assert [] + text[..n] == text[..n] && text == text[..n] + text[n..];
    DecodeLast(text[..n], text[n..]);
  }

  lemma LettersAreSymbols(text: Bytes, places: seq<int>)
    requires Letters(text, places)
    ensures forall i :: 0 <= i < |places| ==> IsSymbol(text[i]) && Index(text[i]) == places[i]
    ensures |places| < |text| ==> !IsSymbol(text[|places|])
  {
    hide Alphabet, Symbol, IsSymbol, Index;
    forall i | 0 <= i < |places| ensures IsSymbol(text[i]) && Index(text[i]) == places[i] {
      SymbolIsLetter(places[i]);
    }
    if |places| < |text| && IsSymbol(text[|places|]) {
      SymbolOfIndex(text[|places|]);
      SymbolIsLetter(Index(text[|places|]));
    }
  }

  lemma SymbolOfIndex(c: byte)
    requires IsSymbol(c)
    ensures Symbol(Index(c)) == c
  {
  }

  lemma DecodeLast(pending: Bytes, rest: Bytes)
    requires |pending| < 4 && (forall i :: 0 <= i < |pending| ==> IsSymbol(pending[i]))
    requires rest == [] || !IsSymbol(rest[0])
    ensures DecodeFrom(pending, rest) == DecodeTail(pending)
  {
  }

  lemma DecodeFour(text: Bytes)
    requires |text| >= 4 && forall i :: 0 <= i < 4 ==> IsSymbol(text[i])
    ensures Decode(text) ==
            Octets([Index(text[0]), Index(text[1]), Index(text[2]), Index(text[3])]) + Decode(text[4..])
  {
    hide IsSymbol, Index, Octets;
    var more := text[3..];
    assert text == text[..3] + more;
    ReadPending([], text[..3], more);
    assert [] + text[..3] == text[..3] && more[0] == text[3] && more[1..] == text[4..];
  }

  lemma OctetsMean(s: seq<int>, k: nat)
    requires |s| == 4 && k < 3 && forall i :: 0 <= i < 4 ==> 0 <= s[i] < 64
    ensures Octets(s)[k] == EightBits(BitsOfLetters(s, 0), k)
  {
    hide EightBits;
    SameBits(Octets(s), s);
    EightBitsOf(Octets(s), k);
  }

  /** base64_encode: collects three bytes at a time, then pads what is left. */
  method EncodeBuffer(buf: Bytes) returns (text: Bytes)
    ensures text == Encode(buf)
  {
    hide Symbols, Sextets, Encode, EncodeTail;
    text := [];
    var group: Bytes := [];
    var pos := 0;
    assert group + buf[0..] == buf;
    while pos < |buf|
      invariant pos <= |buf| && |group| < 3
      invariant Encode(buf) == text + Encode(group + buf[pos..])
    {
      assert group + buf[pos..] == (group + [buf[pos]]) + buf[pos + 1..];
      group := group + [buf[pos]];
      pos := pos + 1;
      if |group| == 3 {
        EncodeGroup(group, buf[pos..]);
        text := text + Symbols(Sextets(group[0], group[1], group[2]));
        assert [] + buf[pos..] == buf[pos..];
        group := [];
      }
    }
    assert group + buf[pos..] == group;
    EncodeLast(group);
    if group != [] {
      var three := group + (if |group| == 1 then [0, 0] else [0]);
      text := text + Symbols(Sextets(three[0], three[1], three[2])[..|group| + 1])
                   + (if |group| == 1 then [PAD, PAD] else [PAD]);
    }
  }

  lemma EncodeGroup(group: Bytes, rest: Bytes)
    requires |group| == 3
    ensures Encode(group + rest) == Symbols(Sextets(group[0], group[1], group[2])) + Encode(rest)
  {
    assert (group + rest)[3..] == rest;
  }

  lemma EncodeLast(group: Bytes)
    requires |group| < 3
    ensures group == [] ==> Encode(group) == []
    ensures |group| == 1 ==> Encode(group) == Symbols(Sextets(group[0], 0, 0)[..2]) + [PAD, PAD]
    ensures |group| == 2 ==> Encode(group) == Symbols(Sextets(group[0], group[1], 0)[..3]) + [PAD]
  {
  }

  /** base64_decode: stops at the first padding or foreign byte. */
  method DecodeText(text: Bytes) returns (bytes: Bytes)
    ensures bytes == Decode(text)
  {
    bytes := [];
    var group: Bytes := [];
    var pos := 0;
    while pos < |text| && text[pos] != PAD && IsSymbol(text[pos])
      invariant pos <= |text| && |group| < 4 && forall i :: 0 <= i < |group| ==> IsSymbol(group[i])
      invariant Decode(text) == bytes + DecodeFrom(group, text[pos..])
    {
      assert text[pos..][1..] == text[pos + 1..];
      if |group| == 3 {
        bytes := bytes + Octets([Index(group[0]), Index(group[1]), Index(group[2]), Index(text[pos])]);
        group := [];
      } else {
        group := group + [text[pos]];
      }
      pos := pos + 1;
    }
    bytes := bytes + DecodeTail(group);
  }
}
