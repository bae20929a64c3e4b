/** JSON values without numbers, their text, and what the parser makes of a text. */
module JsonText {
  import opened ByteCodec

  datatype Json =
    | Null
    | Bool(b: bool)
    | Str(s: Bytes)
    | Arr(items: seq<Json>)
    | Obj(members: seq<Member>)

  datatype Member = Member(name: Bytes, value: Json)

  const MAX_NESTING := 2048

  function Larger(a: nat, b: nat): nat { if a < b then b else a }

  /** How many containers enclose the innermost value. */
  function Height(v: Json): nat
    decreases v, 1
  {
    match v
    case Arr(items) => if items == [] then 0 else 1 + ItemsHeight(items)
    case Obj(members) => if members == [] then 0 else 1 + MembersHeight(members)
    case _ => 0
  }

  function ItemsHeight(items: seq<Json>): nat
    decreases items, 0
  {
    if items == [] then 0 else Larger(Height(items[0]), ItemsHeight(items[1..]))
  }

  function MembersHeight(members: seq<Member>): nat
    decreases members, 0
  {
    if members == [] then 0 else
    var first := members[0];
    Larger(Height(first.value), MembersHeight(members[1..]))
  }

  /** Names are C strings, so without zero bytes, and an object has each name once. */
  predicate WellFormed(v: Json)
    decreases v, 1
  {
    match v
    case Arr(items) => forall i :: 0 <= i < |items| ==> WellFormed(items[i])
    case Obj(members) => MembersOk(members)
    case _ => true
  }

  predicate MembersOk(members: seq<Member>)
    decreases members, 0
  {
    members != [] ==>
      var first := members[0];
      && 0 !in first.name && first.name !in Names(members[1..]) && WellFormed(first.value) && MembersOk(members[1..])
  }

  const QUOTE: byte := 34
  const COMMA: byte := 44
  const SLASH: byte := 47
  const COLON: byte := 58
  const OPEN_BRACKET: byte := 91
  const BACKSLASH: byte := 92
  const CLOSE_BRACKET: byte := 93
  const OPEN_BRACE: byte := 123
  const CLOSE_BRACE: byte := 125

  const NULL_TOKEN: Bytes := [110, 117, 108, 108]
  const TRUE_TOKEN: Bytes := [116, 114, 117, 101]
  const FALSE_TOKEN: Bytes := [102, 97, 108, 115, 101]

  function HexDigit(v: int): (c: byte)
    requires 0 <= v < 16
    ensures HexValue(c) == v
  {
    if v < 10 then 48 + v else 87 + v
  }

  /** hex_char_to_int */
  function HexValue(c: byte): (v: int)
    ensures -1 <= v < 16
  {
    if 48 <= c <= 57 then c - 48 else if 97 <= c <= 102 then c - 87 else if 65 <= c <= 70 then c - 55 else -1
  }

  /** The letter of a two-character escape, as in section 7 of RFC 8259; 0 if there is none. */
  function EscapeLetter(c: byte): byte {
    if c == QUOTE then QUOTE else if c == BACKSLASH then BACKSLASH
    else if c == 8 then 98 else if c == 12 then 102 else if c == 10 then 110
    else if c == 13 then 114 else if c == 9 then 116 else 0
  }

  /** How json_serialize_string writes one byte. */
  function Escape(c: byte, slashes: bool): (r: Bytes)
    ensures 1 <= |r| <= 6
  {
    if EscapeLetter(c) != 0 then [BACKSLASH, EscapeLetter(c)]
    else if c < 32 then [BACKSLASH, 117, 48, 48, HexDigit(c / 16), HexDigit(c % 16)]
    else if c == SLASH && slashes then [BACKSLASH, SLASH]
    else [c]
  }

  function Escaped(s: Bytes, slashes: bool): Bytes {
    if s == [] then [] else Escape(s[0], slashes) + Escaped(s[1..], slashes)
  }

  function Quoted(s: Bytes, slashes: bool): (r: Bytes)
    ensures |r| >= 2
  {
    [QUOTE] + Escaped(s, slashes) + [QUOTE]
  }

  /** The text of a value, without the terminating zero. */
  function Text(v: Json, slashes: bool): (r: Bytes)
    ensures |r| > 0
    decreases v, 1
  {
    match v
    case Null => NULL_TOKEN
    case Bool(b) => if b then TRUE_TOKEN else FALSE_TOKEN
    case Str(s) => Quoted(s, slashes)
    case Arr(items) => [OPEN_BRACKET] + ItemsText(items, slashes) + [CLOSE_BRACKET]
    case Obj(members) => [OPEN_BRACE] + MembersText(members, slashes) + [CLOSE_BRACE]
  }

  function ItemsText(items: seq<Json>, slashes: bool): Bytes
    decreases items, 0
  {
    if items == [] then []
    else if |items| == 1 then Text(items[0], slashes)
    else Text(items[0], slashes) + [COMMA] + ItemsText(items[1..], slashes)
  }

  function MemberText(m: Member, slashes: bool): Bytes
    decreases m, 2
  {
    Quoted(m.name, slashes) + [COLON] + Text(m.value, slashes)
  }

  function MembersText(members: seq<Member>, slashes: bool): Bytes
    decreases members, 0
  {
    if members == [] then []
    else if |members| == 1 then MemberText(members[0], slashes)
    else MemberText(members[0], slashes) + [COMMA] + MembersText(members[1..], slashes)
  }

  /** The character at a position of a zero-terminated text. */
  function Peek(t: Bytes, i: nat): byte {
    if i < |t| then t[i] else 0
  }

  predicate IsSpace(c: byte) {
    c == 32 || 9 <= c <= 13
  }

  function SkipSpaces(t: Bytes, i: nat): (j: nat)
    requires i <= |t|
    ensures i <= j <= |t|
    decreases |t| - i
  {
    if IsSpace(Peek(t, i)) then SkipSpaces(t, i + 1) else i
  }

  /** skip_quotes after the opening quote: the position after the closing one. */
  function SkipQuoted(t: Bytes, i: nat): (j: Option<nat>)
    requires i <= |t|
    ensures j.Some? ==> i < j.value <= |t|
    decreases |t| - i
  {
    var c := Peek(t, i);
    if c == QUOTE then Some(i + 1)
    else if c == 0 then None
    else if c == BACKSLASH then
      if Peek(t, i + 1) == 0 then None else SkipQuoted(t, i + 2)
    else SkipQuoted(t, i + 1)
  }

  /** parse_utf16_hex: four hexadecimal digits. */
  function Hex4(t: Bytes, i: nat): (r: Option<int>)
    ensures r.Some? ==> 0 <= r.value < 0x1_0000
  {
    var a, b, c, d := HexValue(Peek(t, i)), HexValue(Peek(t, i + 1)), HexValue(Peek(t, i + 2)),
      HexValue(Peek(t, i + 3));
    if a == -1 || b == -1 || c == -1 || d == -1 then None else Some(a * 4096 + b * 256 + c * 16 + d)
  }

  /** parse_utf16 at the letter u: the UTF-8 bytes and the position after the escape. */
  function Utf16(t: Bytes, i: nat): (r: Option<(Bytes, nat)>)
    ensures r.Some? ==> i < r.value.1
  {
    match Hex4(t, i + 1)
    case None => None
    case Some(cp) =>
      if cp < 0x80 then Some(([cp], i + 5))
      else if cp < 0x800 then Some(([0xC0 + cp / 64, 0x80 + cp % 64], i + 5))
      else if cp < 0xD800 || cp > 0xDFFF then
        Some(([0xE0 + cp / 4096, 0x80 + cp / 64 % 64, 0x80 + cp % 64], i + 5))
      else if cp > 0xDBFF || Peek(t, i + 5) != BACKSLASH || Peek(t, i + 6) != 117 then None
      else
        match Hex4(t, i + 7)
        case None => None
        case Some(trail) =>
          if trail < 0xDC00 || trail > 0xDFFF then None
          else
            var full := (cp - 0xD800) * 1024 + (trail - 0xDC00) + 0x1_0000;
            Some(([0xF0 + full / 0x4_0000, 0x80 + full / 4096 % 64, 0x80 + full / 64 % 64, 0x80 + full % 64], i + 11))
  }

  /** The byte that a two-character escape stands for. */
  function Unescape(letter: byte): Option<byte> {
    if letter == QUOTE || letter == BACKSLASH || letter == SLASH then Some(letter)
    else if letter == 98 then Some(8) else if letter == 102 then Some(12) else if letter == 110 then Some(10)
    else if letter == 114 then Some(13) else if letter == 116 then Some(9) else None
  }

  /** process_string from position `i` up to `end`, with `acc` already produced. */
  function Process(t: Bytes, i: nat, end: nat, acc: Bytes): Option<Bytes>
    decreases end - i
  {
    if Peek(t, i) == 0 || i >= end then Some(acc)
    else if t[i] == BACKSLASH then
      if Peek(t, i + 1) == 117 then
        match Utf16(t, i + 1)
        case None => None
        case Some((bytes, next)) => Process(t, next, end, acc + bytes)
      else
        match Unescape(Peek(t, i + 1))
        case None => None
        case Some(c) => Process(t, i + 2, end, acc + [c])
    else if t[i] < 32 then None
    else Process(t, i + 1, end, acc + [t[i]])
  }

  /** get_quoted_string: the string and the position after its closing quote. */
  function QuotedString(t: Bytes, i: nat): (r: Option<(Bytes, nat)>)
    requires i <= |t|
    ensures r.Some? ==> i < r.value.1 <= |t|
  {
    if Peek(t, i) != QUOTE then None
    else
      match SkipQuoted(t, i + 1)
      case None => None
      case Some(j) =>
        match Process(t, i + 1, j - 1, [])
        case None => None
        case Some(s) => Some((s, j))
  }

  predicate StartsWith(t: Bytes, i: nat, token: Bytes) {
    i + |token| <= |t| && t[i..i + |token|] == token
  }

  function Names(members: seq<Member>): (r: seq<Bytes>)
    ensures |r| == |members| && forall i :: 0 <= i < |r| ==> r[i] == members[i].name
  {
    seq(|members|, i requires 0 <= i < |members| => members[i].name)
  }

  /** json_object_get_value: the value of the member with this name. */
  function Find(members: seq<Member>, name: Bytes): Option<Json> {
    if members == [] then None
    else if members[0].name == name then Some(members[0].value)
    else Find(members[1..], name)
  }

  /** parse_value: the value and the position after it. Numbers are not modelled. */
  function ParseValue(t: Bytes, at: nat, nesting: nat): (r: Option<(Json, nat)>)
    requires at <= |t|
    ensures r.Some? ==> at < r.value.1 <= |t|
    decreases |t| - at, 1
  {
    if nesting > MAX_NESTING then None
    else
      var i := SkipSpaces(t, at);
      var c := Peek(t, i);
      if c == OPEN_BRACE then
        var j := SkipSpaces(t, i + 1);
        if Peek(t, j) == CLOSE_BRACE then Some((Obj([]), j + 1)) else ParseMembers(t, j, nesting + 1, [])
      else if c == OPEN_BRACKET then
        var j := SkipSpaces(t, i + 1);
        if Peek(t, j) == CLOSE_BRACKET then Some((Arr([]), j + 1)) else ParseItems(t, j, nesting + 1, [])
      else if c == QUOTE then
        match QuotedString(t, i)
        case None => None
        case Some((s, j)) => Some((Str(s), j))
      else if (c == 116 || c == 102) && StartsWith(t, i, TRUE_TOKEN) then Some((Bool(true), i + 4))
      else if (c == 116 || c == 102) && StartsWith(t, i, FALSE_TOKEN) then Some((Bool(false), i + 5))
      else if c == 110 && StartsWith(t, i, NULL_TOKEN) then Some((Null, i + 4))
      else None
  }

  /** The loop of parse_array_value, with the items `acc` already read. */
  function ParseItems(t: Bytes, at: nat, nesting: nat, acc: seq<Json>): (r: Option<(Json, nat)>)
    requires at <= |t|
    ensures r.Some? ==> at < r.value.1 <= |t|
    decreases |t| - at, 2
  {
    if Peek(t, at) == 0 then None
    else
      match ParseValue(t, at, nesting)
      case None => None
      case Some((v, next)) =>
        var i := SkipSpaces(t, next);
        var more := Peek(t, i) == COMMA;
        var j := if more then SkipSpaces(t, i + 1) else i;
        if Peek(t, j) == CLOSE_BRACKET then Some((Arr(acc + [v]), j + 1))
        else if more then ParseItems(t, j, nesting, acc + [v])
        else None
  }

  /** A name, a colon and a value, as one round of parse_object_value reads them. */
  function ParseMember(t: Bytes, at: nat, nesting: nat): (r: Option<(Member, nat)>)
    requires at <= |t|
    ensures r.Some? ==> at < r.value.1 <= |t| && 0 !in r.value.0.name
    decreases |t| - at, 1
  {
    match QuotedString(t, at)
    case None => None
    case Some((name, afterName)) =>
      var i := SkipSpaces(t, afterName);
      if 0 in name || Peek(t, i) != COLON then None
      else
        match ParseValue(t, i + 1, nesting)
        case None => None
        case Some((v, next)) => Some((Member(name, v), next))
  }

  /** The loop of parse_object_value, with the members `acc` already read. */
  function ParseMembers(t: Bytes, at: nat, nesting: nat, acc: seq<Member>): (r: Option<(Json, nat)>)
    requires at <= |t|
    ensures r.Some? ==> at < r.value.1 <= |t|
    decreases |t| - at, 2
  {
    if Peek(t, at) == 0 then None
    else
      match ParseMember(t, at, nesting)
      case None => None
      case Some((m, next)) =>
        if m.name in Names(acc) then None
        else
          var k := SkipSpaces(t, next);
          var more := Peek(t, k) == COMMA;
          var j := if more then SkipSpaces(t, k + 1) else k;
          if Peek(t, j) == CLOSE_BRACE then Some((Obj(acc + [m]), j + 1))
          else if more then ParseMembers(t, j, nesting, acc + [m])
          else None
  }

  /** json_parse_string */
  function Parse(t: Bytes): Option<Json> {
    var start := if Peek(t, 0) == 0xEF && Peek(t, 1) == 0xBB && Peek(t, 2) == 0xBF then 3 else 0;
    match ParseValue(t, start, 0)
    case None => None
    case Some((v, _)) => Some(v)
  }
}
