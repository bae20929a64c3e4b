/** What a JSON text is, as in RFC 8259 and without reference to the parser: every way to lay out and
    to spell a value without numbers, and the value that it stands for. */
module JsonSyntax {
  import opened ByteCodec
  import opened JsonText

  /** How one or more bytes of a string are spelled: as themselves, by a letter after a backslash, by
      four hexadecimal digits, or by a surrogate pair. */
  datatype Piece = Plain(c: byte) | Short(letter: char) | Unit(digits: Bytes) | Pair(lead: Bytes, trail: Bytes)

  /** A text for a value. `blank` follows an opening bracket; a trailing comma is accepted too. */
  datatype Form =
    | NullForm
    | TrueForm
    | FalseForm
    | StringForm(pieces: seq<Piece>)
    | ArrayForm(blank: Bytes, items: seq<Slot>, trailing: bool)
    | ObjectForm(blank: Bytes, fields: seq<Field>, trailing: bool)

  /** An item, the blanks behind it, and the blanks behind the comma if there is one. */
  datatype Slot = Slot(value: Form, after: Bytes, gap: Bytes)

  /** A member: its name, the blanks before and behind the colon, and then as for an item. */
  datatype Field = Field(name: seq<Piece>, colon: Bytes, before: Bytes, value: Form, after: Bytes, gap: Bytes)

  /** Blanks are the space and the characters from tab to carriage return. */
  predicate Blank(b: Bytes) {
    forall i :: 0 <= i < |b| ==> b[i] == ' ' as int || '\t' as int <= b[i] <= '\r' as int
  }

  /** The meaning of a letter after a backslash, as in section 7 of RFC 8259. */
  function LetterMeaning(letter: char): Option<byte> {
    match letter
    case '"' => Some(0x22)
    case '\\' => Some(0x5C)
    case '/' => Some(0x2F)
    case 'b' => Some(0x08)
    case 'f' => Some(0x0C)
    case 'n' => Some(0x0A)
    case 'r' => Some(0x0D)
    case 't' => Some(0x09)
    case _ => None
  }

  /** The value of a hexadecimal digit in either case, -1 for any other byte. */
  function DigitMeaning(c: byte): (v: int)
    ensures -1 <= v < 16
  {
    if '0' as int <= c <= '9' as int then c - '0' as int
    else if 'a' as int <= c <= 'f' as int then c - 'a' as int + 10
    else if 'A' as int <= c <= 'F' as int then c - 'A' as int + 10
    else -1
  }

  predicate Digits(d: Bytes) {
    |d| == 4 && forall i :: 0 <= i < 4 ==> DigitMeaning(d[i]) >= 0
  }

  function Number(d: Bytes): (n: int)
    requires Digits(d)
    ensures 0 <= n < 0x1_0000
  {
    4096 * DigitMeaning(d[0]) + 256 * DigitMeaning(d[1]) + 16 * DigitMeaning(d[2]) + DigitMeaning(d[3])
  }

  predicate PieceOk(p: Piece) {
    match p
    case Plain(c) => c >= 0x20 && c != '"' as int && c != '\\' as int
    case Short(letter) => LetterMeaning(letter).Some?
    case Unit(d) => Digits(d) && !(0xD800 <= Number(d) <= 0xDFFF)
    case Pair(a, b) => Digits(a) && Digits(b) && 0xD800 <= Number(a) <= 0xDBFF && 0xDC00 <= Number(b) <= 0xDFFF
  }

  /** The code point of a sequence of UTF-8 bytes, as in section 3 of RFC 3629. */
  function CodePoint(b: seq<int>): int {
    if |b| == 1 then b[0]
    else if |b| == 2 then 64 * (b[0] - 0xC0) + (b[1] - 0x80)
    else if |b| == 3 then 4096 * (b[0] - 0xE0) + 64 * (b[1] - 0x80) + (b[2] - 0x80)
    else if |b| == 4 then 262144 * (b[0] - 0xF0) + 4096 * (b[1] - 0x80) + 64 * (b[2] - 0x80) + (b[3] - 0x80)
    else -1
  }

  /** The shortest sequence of UTF-8 bytes for a code point. */
  function Utf8(n: int): (b: Bytes)
    requires 0 <= n < 0x11_0000
    ensures |b| == (if n < 0x80 then 1 else if n < 0x800 then 2 else if n < 0x1_0000 then 3 else 4)
  {
    if n < 0x80 then [n]
    else if n < 0x800 then [0xC0 + n / 64, 0x80 + n % 64]
    else if n < 0x1_0000 then [0xE0 + n / 4096, 0x80 + n / 64 % 64, 0x80 + n % 64]
    else [0xF0 + n / 262144, 0x80 + n / 4096 % 64, 0x80 + n / 64 % 64, 0x80 + n % 64]
  }

  lemma Utf8Means(n: int)
    requires 0 <= n < 0x11_0000
    ensures CodePoint(Utf8(n)) == n && forall i :: 0 < i < |Utf8(n)| ==> 0x80 <= Utf8(n)[i] < 0xC0
  {
    var a, b, c := n / 262144, n / 4096, n / 64;
    assert b / 64 == a && c / 64 == b;
  }

  function PieceMeaning(p: Piece): Bytes
    requires PieceOk(p)
  {
    match p
    case Plain(c) => [c]
    case Short(letter) => [LetterMeaning(letter).value]
    case Unit(d) => Utf8(Number(d))
    case Pair(a, b) => Utf8(0x1_0000 + 0x400 * (Number(a) - 0xD800) + (Number(b) - 0xDC00))
  }

  function PieceText(p: Piece): (t: Bytes)
    requires PieceOk(p)
    ensures 1 <= |t| <= 12
  {
    match p
    case Plain(c) => [c]
    case Short(letter) => ['\\' as int, letter as int]
    case Unit(d) => ['\\' as int, 'u' as int] + d
    case Pair(a, b) => (['\\' as int, 'u' as int] + a) + (['\\' as int, 'u' as int] + b)
  }

  predicate PiecesOk(ps: seq<Piece>) {
    forall i :: 0 <= i < |ps| ==> PieceOk(ps[i])
  }

  function PiecesText(ps: seq<Piece>): Bytes
    requires PiecesOk(ps)
  {
    if ps == [] then [] else PieceText(ps[0]) + PiecesText(ps[1..])
  }

  function PiecesMeaning(ps: seq<Piece>): Bytes
    requires PiecesOk(ps)
  {
    if ps == [] then [] else PieceMeaning(ps[0]) + PiecesMeaning(ps[1..])
  }

  function StringText(ps: seq<Piece>): (t: Bytes)
    requires PiecesOk(ps)
    ensures |t| >= 2
  {
    ['"' as int] + (PiecesText(ps) + ['"' as int])
  }

  /** Gaps are blank, spellings are right, and no two members of an object have one name. */
  predicate FormOk(f: Form)
    decreases f, 2
  {
    match f
    case StringForm(ps) => PiecesOk(ps)
    case ArrayForm(blank, items, _) => Blank(blank) && SlotsOk(items)
    case ObjectForm(blank, fields, _) => Blank(blank) && FieldsOk(fields)
    case _ => true
  }

  predicate SlotsOk(items: seq<Slot>)
    decreases items, 1
  {
    items != [] ==>
      var s := items[0];
      FormOk(s.value) && Blank(s.after) && Blank(s.gap) && SlotsOk(items[1..])
  }

  predicate FieldsOk(fields: seq<Field>)
    decreases fields, 1
  {
    fields != [] ==>
      var s := fields[0];
      && PiecesOk(s.name) && Blank(s.colon) && Blank(s.before) && FormOk(s.value) && Blank(s.after) && Blank(s.gap)
      && FieldsOk(fields[1..])
      && 0 !in PiecesMeaning(s.name) && !Named(fields[1..], PiecesMeaning(s.name))
  }

  predicate Named(fields: seq<Field>, name: Bytes) {
    exists i :: 0 <= i < |fields| && PiecesOk(fields[i].name) && PiecesMeaning(fields[i].name) == name
  }

  /** The value that a text stands for. */
  function Meaning(f: Form): Json
    requires FormOk(f)
    decreases f, 1
  {
    match f
    case NullForm => Null
    case TrueForm => Bool(true)
    case FalseForm => Bool(false)
    case StringForm(ps) => Str(PiecesMeaning(ps))
    case ArrayForm(_, items, _) => Arr(SlotsMeaning(items))
    case ObjectForm(_, fields, _) => Obj(FieldsMeaning(fields))
  }

  function SlotsMeaning(items: seq<Slot>): (r: seq<Json>)
    requires SlotsOk(items)
    ensures |r| == |items|
    decreases items, 0
  {
    if items == [] then [] else
    var s := items[0];
    [Meaning(s.value)] + SlotsMeaning(items[1..])
  }

  function FieldsMeaning(fields: seq<Field>): (r: seq<Member>)
    requires FieldsOk(fields)
    ensures |r| == |fields|
    decreases fields, 0
  {
    if fields == [] then [] else
    var s := fields[0];
    [Member(PiecesMeaning(s.name), Meaning(s.value))] + FieldsMeaning(fields[1..])
  }

  /** The text itself. */
  function FormText(f: Form): (t: Bytes)
    requires FormOk(f)
    ensures |t| > 0
    decreases f, 1
  {
    match f
    case NullForm => ['n' as int, 'u' as int, 'l' as int, 'l' as int]
    case TrueForm => ['t' as int, 'r' as int, 'u' as int, 'e' as int]
    case FalseForm => ['f' as int, 'a' as int, 'l' as int, 's' as int, 'e' as int]
    case StringForm(ps) => StringText(ps)
    case ArrayForm(blank, items, trailing) =>
      ['[' as int] + (blank + (if items == [] then [']' as int] else SlotsText(items, trailing)))
    case ObjectForm(blank, fields, trailing) =>
      ['{' as int] + (blank + (if fields == [] then ['}' as int] else FieldsText(fields, trailing)))
  }

  function SlotsText(items: seq<Slot>, trailing: bool): (t: Bytes)
    requires SlotsOk(items) && items != []
    ensures |t| > 0
    decreases items, 0
  {
    var s := items[0];
    FormText(s.value) + (s.after +
      if |items| == 1 && !trailing then [']' as int]
      else [',' as int] + (s.gap + if |items| == 1 then [']' as int] else SlotsText(items[1..], trailing)))
  }

  function FieldsText(fields: seq<Field>, trailing: bool): (t: Bytes)
    requires FieldsOk(fields) && fields != []
    ensures |t| > 0
    decreases fields, 0
  {
    var s := fields[0];
    StringText(s.name) + (s.colon + ([':' as int] + (s.before + (FormText(s.value) + (s.after +
      if |fields| == 1 && !trailing then ['}' as int]
      else [',' as int] + (s.gap + if |fields| == 1 then ['}' as int] else FieldsText(fields[1..], trailing)))))))
  }
}
