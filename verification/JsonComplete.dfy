/** The parser accepts every text of a value, however it is laid out and spelled. */
module JsonComplete {
  import opened ByteCodec
  import opened JsonText
  import opened JsonSyntax

  lemma StartsSplit(t: Bytes, i: nat, a: Bytes, b: Bytes)
    ensures StartsWith(t, i, a + b) <==> StartsWith(t, i, a) && StartsWith(t, i + |a|, b)
  {
    if i + |a| + |b| <= |t| {
      assert t[i..i + |a + b|] == t[i..i + |a|] + t[i + |a|..i + |a| + |b|];
      assert (a + b)[..|a|] == a && (a + b)[|a|..] == b;
    }
  }

  lemma StartsElem(t: Bytes, i: nat, s: Bytes, k: nat)
    requires StartsWith(t, i, s) && k < |s|
    ensures i + k < |t| && t[i + k] == s[k]
  {
    assert t[i..i + |s|][k] == t[i + k];
  }

  lemma StartsFirst(t: Bytes, i: nat, c: byte, rest: Bytes)
    requires StartsWith(t, i, [c] + rest)
    ensures i < |t| && t[i] == c && Peek(t, i) == c && StartsWith(t, i + 1, rest)
  {
    StartsSplit(t, i, [c], rest);
    assert t[i..i + 1] == [c];
  }

  lemma StartsAt(t: Bytes, i: nat, s: Bytes)
    requires StartsWith(t, i, s) && s != []
    ensures i < |t| && Peek(t, i) == s[0]
  {
    assert t[i..i + |s|][0] == t[i];
  }

  /** The parser skips a run of blanks. */
  lemma {:induction false} SkipBlank(t: Bytes, i: nat, gap: Bytes)
    requires StartsWith(t, i, gap) && Blank(gap) && !IsSpace(Peek(t, i + |gap|))
    ensures SkipSpaces(t, i) == i + |gap|
    decreases gap
  {
    if gap != [] {
      StartsElem(t, i, gap, 0);
      StartsSplit(t, i, gap[..1], gap[1..]);
      assert gap == gap[..1] + gap[1..];
      SkipBlank(t, i + 1, gap[1..]);
    }
  }

  lemma SkipPlain(t: Bytes, i: nat)
    requires i < |t| && t[i] != QUOTE && t[i] != 0 && t[i] != BACKSLASH
    ensures SkipQuoted(t, i) == SkipQuoted(t, i + 1)
  {
  }

  lemma SkipLetter(t: Bytes, i: nat)
    requires i + 1 < |t| && t[i] == BACKSLASH && t[i + 1] != 0
    ensures SkipQuoted(t, i) == SkipQuoted(t, i + 2)
  {
  }

  lemma DigitsAgree(c: byte)
    ensures HexValue(c) == DigitMeaning(c)
    ensures DigitMeaning(c) >= 0 ==> c != QUOTE && c != 0 && c != BACKSLASH
  {
  }

  /** Four hexadecimal digits are skipped, and read as a number. */
  lemma SkipDigits(t: Bytes, i: nat, d: Bytes)
    requires StartsWith(t, i, d) && JsonSyntax.Digits(d)
    ensures SkipQuoted(t, i) == SkipQuoted(t, i + 4) && Hex4(t, i) == Some(Number(d))
  {
    hide DigitMeaning, HexValue, SkipQuoted;
    OneDigit(t, i, d, 0);
    OneDigit(t, i, d, 1);
    OneDigit(t, i, d, 2);
    OneDigit(t, i, d, 3);
  }

  lemma OneDigit(t: Bytes, i: nat, d: Bytes, k: nat)
    requires StartsWith(t, i, d) && JsonSyntax.Digits(d) && k < 4
    ensures i + k < |t| && SkipQuoted(t, i + k) == SkipQuoted(t, i + k + 1)
    ensures HexValue(Peek(t, i + k)) == DigitMeaning(d[k]) >= 0
  {
    StartsElem(t, i, d, k);
    DigitsAgree(d[k]);
    SkipPlain(t, i + k);
  }

  /** The escape \u with its digits. */
  lemma SkipUnit(t: Bytes, i: nat, d: Bytes)
    requires StartsWith(t, i, ['\\' as int, 'u' as int] + d) && JsonSyntax.Digits(d)
    ensures i + 6 <= |t| && t[i] == BACKSLASH && t[i + 1] == 117
    ensures SkipQuoted(t, i) == SkipQuoted(t, i + 6) && Hex4(t, i + 2) == Some(Number(d))
  {
    StartsSplit(t, i, ['\\' as int, 'u' as int], d);
    StartsElem(t, i, ['\\' as int, 'u' as int], 0);
    StartsElem(t, i, ['\\' as int, 'u' as int], 1);
    SkipDigits(t, i + 2, d);
  }

  lemma SkipPiece(t: Bytes, i: nat, p: Piece)
    requires PieceOk(p) && StartsWith(t, i, PieceText(p))
    ensures i + |PieceText(p)| <= |t| && SkipQuoted(t, i) == SkipQuoted(t, i + |PieceText(p)|)
  {
    hide Hex4, Number, StartsWith, SkipQuoted, DigitMeaning;
    match p
    case Plain(c) =>
      StartsElem(t, i, [c], 0);
      SkipPlain(t, i);
    case Short(letter) =>
      StartsElem(t, i, PieceText(p), 0);
      StartsElem(t, i, PieceText(p), 1);
      SkipLetter(t, i);
    case Unit(d) => SkipUnit(t, i, d);
    case Pair(a, b) =>
      StartsSplit(t, i, ['\\' as int, 'u' as int] + a, ['\\' as int, 'u' as int] + b);
      SkipUnit(t, i, a);
      SkipUnit(t, i + 6, b);
  }

  /** Reading one piece yields its bytes. */
  lemma ProcessPiece(t: Bytes, i: nat, p: Piece, end: nat, acc: Bytes)
    requires PieceOk(p) && StartsWith(t, i, PieceText(p)) && i + |PieceText(p)| <= end
    ensures Process(t, i, end, acc) == Process(t, i + |PieceText(p)|, end, acc + PieceMeaning(p))
  {
    hide Hex4, Number, SkipQuoted, Utf8, Utf16, Process, StartsWith, DigitMeaning;
    match p
    case Plain(c) =>
      StartsElem(t, i, [c], 0);
      ProcessByte(t, i, end, acc);
    case Short(letter) =>
      StartsElem(t, i, PieceText(p), 0);
      StartsElem(t, i, PieceText(p), 1);
      ProcessLetter(t, i, end, acc, letter);
    case Unit(d) =>
      SkipUnit(t, i, d);
      UnitRead(t, i, Number(d));
      ProcessEscape(t, i, end, acc);
    case Pair(a, b) =>
      StartsSplit(t, i, ['\\' as int, 'u' as int] + a, ['\\' as int, 'u' as int] + b);
      SkipUnit(t, i, a);
      SkipUnit(t, i + 6, b);
      PairRead(t, i, Number(a), Number(b));
      ProcessEscape(t, i, end, acc);
  }

  lemma ProcessByte(t: Bytes, i: nat, end: nat, acc: Bytes)
    requires i < |t| && i < end && t[i] >= 32 && t[i] != BACKSLASH
    ensures Process(t, i, end, acc) == Process(t, i + 1, end, acc + [t[i]])
  {
  }

  lemma ProcessLetter(t: Bytes, i: nat, end: nat, acc: Bytes, letter: char)
    requires i + 1 < |t| && i < end && t[i] == BACKSLASH && t[i + 1] == letter as int && LetterMeaning(letter).Some?
    ensures Process(t, i, end, acc) == Process(t, i + 2, end, acc + [LetterMeaning(letter).value])
  {
    hide Utf16;
  }

  lemma ProcessEscape(t: Bytes, i: nat, end: nat, acc: Bytes)
    requires i + 1 < |t| && i < end && t[i] == BACKSLASH && t[i + 1] == 117 && Utf16(t, i + 1).Some?
    ensures var (bytes, next) := Utf16(t, i + 1).value; Process(t, i, end, acc) == Process(t, next, end, acc + bytes)
  {
    hide Utf16;
  }

  lemma UnitRead(t: Bytes, i: nat, n: int)
    requires Hex4(t, i + 2) == Some(n) && 0 <= n < 0x1_0000 && !(0xD800 <= n <= 0xDFFF)
    ensures Utf16(t, i + 1) == Some((Utf8(n), i + 6))
  {
    hide Hex4;
  }

  lemma PairRead(t: Bytes, i: nat, n: int, m: int)
    requires Hex4(t, i + 2) == Some(n) && 0xD800 <= n <= 0xDBFF
    requires Hex4(t, i + 8) == Some(m) && 0xDC00 <= m <= 0xDFFF
    requires Peek(t, i + 6) == BACKSLASH && Peek(t, i + 7) == 117
    ensures Utf16(t, i + 1) == Some((Utf8(0x1_0000 + 0x400 * (n - 0xD800) + (m - 0xDC00)), i + 12))
  {
    hide Hex4;
  }

  lemma {:induction false} SkipPieces(t: Bytes, i: nat, ps: seq<Piece>)
    requires PiecesOk(ps) && StartsWith(t, i, PiecesText(ps) + ['"' as int])
    ensures SkipQuoted(t, i) == Some(i + |PiecesText(ps)| + 1)
    decreases ps
  {
    hide PieceText, PieceOk;
    if ps == [] {
      assert PiecesText(ps) + ['"' as int] == ['"' as int] + [];
      StartsFirst(t, i, '"' as int, []);
    } else {
      hide SkipQuoted;
      var p, rest := PieceText(ps[0]), PiecesText(ps[1..]) + ['"' as int];
      assert PiecesText(ps) + ['"' as int] == p + rest;
      StartsSplit(t, i, p, rest);
      SkipPiece(t, i, ps[0]);
      SkipPieces(t, i + |p|, ps[1..]);
    }
  }

  lemma ProcessEnd(t: Bytes, i: nat, acc: Bytes)
    ensures Process(t, i, i, acc) == Some(acc)
  {
  }

  lemma {:induction false} ProcessPieces(t: Bytes, i: nat, ps: seq<Piece>, end: nat, acc: Bytes)
    requires PiecesOk(ps) && StartsWith(t, i, PiecesText(ps)) && end == i + |PiecesText(ps)|
    ensures Process(t, i, end, acc) == Some(acc + PiecesMeaning(ps))
    decreases ps
  {
    hide PieceText, PieceMeaning, PieceOk, Process, StartsWith;
    if ps == [] {
      ProcessEnd(t, i, acc);
      assert acc + PiecesMeaning(ps) == acc;
    } else {
      var p := PieceText(ps[0]);
      StartsSplit(t, i, p, PiecesText(ps[1..]));
      ProcessPiece(t, i, ps[0], end, acc);
      ProcessPieces(t, i + |p|, ps[1..], end, acc + PieceMeaning(ps[0]));
      assert acc + PiecesMeaning(ps) == acc + PieceMeaning(ps[0]) + PiecesMeaning(ps[1..]);
    }
  }

  /** However a string is spelled, the parser gets its bytes. */
  lemma StringRead(t: Bytes, i: nat, ps: seq<Piece>)
    requires PiecesOk(ps) && StartsWith(t, i, StringText(ps))
    ensures QuotedString(t, i) == Some((PiecesMeaning(ps), i + |StringText(ps)|))
    ensures i < |t| && t[i] == QUOTE
  {
    hide PiecesText, PiecesMeaning, PiecesOk, Process, SkipQuoted;
    var text := PiecesText(ps);
    StartsFirst(t, i, '"' as int, text + ['"' as int]);
    SkipPieces(t, i + 1, ps);
    StartsSplit(t, i + 1, text, ['"' as int]);
    ProcessPieces(t, i + 1, ps, i + 1 + |text|, []);
    assert [] + PiecesMeaning(ps) == PiecesMeaning(ps);
  }

  /** What the parser makes of a value at a given nesting: the value, if it is not too deep. */
  function Expected(v: Json, height: nat, nesting: nat, end: nat): Option<(Json, nat)> {
    if nesting + height <= 2048 then Some((v, end)) else None
  }

  /** The first byte of a text is none that could be skipped or could close a bracket. */
  lemma FormFirst(f: Form)
    requires FormOk(f)
    ensures var c := FormText(f)[0]; !IsSpace(c) && c != 0 && c != CLOSE_BRACKET && c != CLOSE_BRACE && c != 0xEF
  {
  }

  /** Blanks in front of a value do not matter. */
  lemma GapRead(t: Bytes, i: nat, gap: Bytes, nesting: nat)
    requires StartsWith(t, i, gap) && Blank(gap) && !IsSpace(Peek(t, i + |gap|))
    ensures ParseValue(t, i, nesting) == ParseValue(t, i + |gap|, nesting)
  {
    hide ParseItems, ParseMembers, QuotedString;
    SkipBlank(t, i, gap);
    SkipBlank(t, i + |gap|, []);
  }

  lemma NoSpace(t: Bytes, i: nat)
    requires i <= |t| && !IsSpace(Peek(t, i))
    ensures SkipSpaces(t, i) == i
  {
  }

  /** One step of the parser at an array. */
  lemma ArrayStep(t: Bytes, i: nat, nesting: nat, j: nat)
    requires i < |t| && t[i] == OPEN_BRACKET && nesting <= 2048 && j == SkipSpaces(t, i + 1)
    ensures ParseValue(t, i, nesting) ==
            if Peek(t, j) == CLOSE_BRACKET then Some((Arr([]), j + 1)) else ParseItems(t, j, nesting + 1, [])
  {
    hide ParseItems;
    NoSpace(t, i);
  }

  /** One step of the parser at an object. */
  lemma ObjectStep(t: Bytes, i: nat, nesting: nat, j: nat)
    requires i < |t| && t[i] == OPEN_BRACE && nesting <= 2048 && j == SkipSpaces(t, i + 1)
    ensures ParseValue(t, i, nesting) ==
            if Peek(t, j) == CLOSE_BRACE then Some((Obj([]), j + 1)) else ParseMembers(t, j, nesting + 1, [])
  {
    hide ParseMembers;
    NoSpace(t, i);
  }

  /** One round of the array loop, where the item has been parsed. */
  lemma ItemsStep(t: Bytes, i: nat, nesting: nat, acc: seq<Json>, v: Json, next: nat, k: nat)
    requires i < next <= |t| && t[i] != 0 && ParseValue(t, i, nesting) == Some((v, next)) && k == SkipSpaces(t, next)
    ensures Peek(t, k) == CLOSE_BRACKET ==> ParseItems(t, i, nesting, acc) == Some((Arr(acc + [v]), k + 1))
    ensures Peek(t, k) == COMMA ==>
              var j := SkipSpaces(t, k + 1);
              ParseItems(t, i, nesting, acc) ==
              if Peek(t, j) == CLOSE_BRACKET then Some((Arr(acc + [v]), j + 1))
              else ParseItems(t, j, nesting, acc + [v])
  {
    hide ParseValue;
  }

  /** One round of the object loop, where the member has been parsed. */
  lemma MembersStep(t: Bytes, i: nat, nesting: nat, acc: seq<Member>, m: Member, next: nat, k: nat)
    requires i < next <= |t| && t[i] != 0 && ParseMember(t, i, nesting) == Some((m, next))
    requires m.name !in Names(acc) && k == SkipSpaces(t, next)
    ensures Peek(t, k) == CLOSE_BRACE ==> ParseMembers(t, i, nesting, acc) == Some((Obj(acc + [m]), k + 1))
    ensures Peek(t, k) == COMMA ==>
              var j := SkipSpaces(t, k + 1);
              ParseMembers(t, i, nesting, acc) ==
              if Peek(t, j) == CLOSE_BRACE then Some((Obj(acc + [m]), j + 1))
              else ParseMembers(t, j, nesting, acc + [m])
  {
    hide ParseMember, Names;
  }

  /** The blanks behind an item or member, and what comes after them. */
  lemma AfterGap(t: Bytes, i: nat, gap: Bytes, rest: Bytes)
    requires StartsWith(t, i, gap + rest) && Blank(gap) && rest != [] && !IsSpace(rest[0])
    ensures SkipSpaces(t, i) == i + |gap| && StartsWith(t, i + |gap|, rest) && i + |gap| < |t|
    ensures Peek(t, i + |gap|) == rest[0]
  {
    StartsSplit(t, i, gap, rest);
    StartsAt(t, i + |gap|, rest);
    SkipBlank(t, i, gap);
  }

  /** A text of a value, wherever it stands: the parser gets the value and the position behind the
      text, exactly if it is nested no deeper than 2048. */
  lemma {:induction false} FormRead(t: Bytes, i: nat, f: Form, nesting: nat)
    requires FormOk(f) && StartsWith(t, i, FormText(f))
    ensures ParseValue(t, i, nesting) == Expected(Meaning(f), Height(Meaning(f)), nesting, i + |FormText(f)|)
    decreases f, 3
  {
    hide QuotedString, StringText, SlotsText, FieldsText, ParseItems, ParseMembers, ItemsHeight, MembersHeight,
      SlotsMeaning, FieldsMeaning, SlotsOk, FieldsOk, PiecesMeaning;
    StartsAt(t, i, FormText(f));
    FormFirst(f);
    NoSpace(t, i);
    if nesting <= 2048 {
      match f
      case NullForm =>
      case TrueForm =>
      case FalseForm =>
      case StringForm(ps) => StringRead(t, i, ps);
      case ArrayForm(_, _, _) => ArrayRead(t, i, f, nesting);
      case ObjectForm(_, _, _) => ObjectRead(t, i, f, nesting);
    }
  }

  lemma {:induction false} ArrayRead(t: Bytes, i: nat, f: Form, nesting: nat)
    requires f.ArrayForm? && FormOk(f) && StartsWith(t, i, FormText(f)) && nesting <= 2048
    ensures ParseValue(t, i, nesting) == Expected(Meaning(f), Height(Meaning(f)), nesting, i + |FormText(f)|)
    decreases f, 2
  {
    hide ParseValue, ParseItems, SlotsText, ItemsHeight, SlotsMeaning, SlotsOk, StartsWith, SkipSpaces, Blank, IsSpace;
    var body := if f.items == [] then [']' as int] else SlotsText(f.items, f.trailing);
    StartsFirst(t, i, '[' as int, f.blank + body);
    BracketsNoSpace();
    if f.items != [] { SlotsFirst(f.items, f.trailing); }
    AfterGap(t, i + 1, f.blank, body);
    var j := i + 1 + |f.blank|;
    ArrayStep(t, i, nesting, j);
    if f.items == [] {
      assert SlotsMeaning(f.items) == [];
    } else {
      SlotsRead(t, j, f.items, f.trailing, nesting + 1, []);
      assert [] + SlotsMeaning(f.items) == SlotsMeaning(f.items);
    }
  }

  lemma BracketsNoSpace()
    ensures !IsSpace(CLOSE_BRACKET) && !IsSpace(CLOSE_BRACE) && !IsSpace(QUOTE)
  {
  }

  lemma SlotsFirst(items: seq<Slot>, trailing: bool)
    requires SlotsOk(items) && items != []
    ensures SlotsText(items, trailing)[0] == FormText(items[0].value)[0]
    ensures var c := SlotsText(items, trailing)[0]; !IsSpace(c) && c != 0 && c != CLOSE_BRACKET
  {
    FormFirst(items[0].value);
  }

  /** What follows the first item. */
  function SlotsRest(items: seq<Slot>, trailing: bool): (t: Bytes)
    requires SlotsOk(items) && items != []
    ensures t != []
  {
    if |items| == 1 && !trailing then [']' as int]
    else [',' as int] + (items[0].gap + if |items| == 1 then [']' as int] else SlotsText(items[1..], trailing))
  }

  lemma {:induction false} SlotsCut(items: seq<Slot>, trailing: bool)
    requires SlotsOk(items) && items != []
    ensures var s := items[0];
            && FormOk(s.value) && Blank(s.after) && Blank(s.gap) && SlotsOk(items[1..])
            && SlotsText(items, trailing) == FormText(s.value) + (s.after + SlotsRest(items, trailing))
  {
    hide FormText;
  }

  lemma {:induction false} SlotsHead(items: seq<Slot>, acc: seq<Json>)
    requires SlotsOk(items) && items != []
    ensures var s := items[0];
            && FormOk(s.value) && SlotsOk(items[1..])
            && acc + SlotsMeaning(items) == acc + [Meaning(s.value)] + SlotsMeaning(items[1..])
            && ItemsHeight(SlotsMeaning(items)) ==
               Larger(Height(Meaning(s.value)), ItemsHeight(SlotsMeaning(items[1..])))
    ensures |items| == 1 ==> acc + SlotsMeaning(items) == acc + [Meaning(items[0].value)]
    ensures |items| == 1 ==> ItemsHeight(SlotsMeaning(items[1..])) == 0
  {
    hide Meaning, Height, FormOk;
    assert SlotsMeaning(items)[1..] == SlotsMeaning(items[1..]);
  }

  lemma {:induction false} SlotsRead(t: Bytes, i: nat, items: seq<Slot>, trailing: bool, nesting: nat, acc: seq<Json>)
    requires SlotsOk(items) && items != [] && StartsWith(t, i, SlotsText(items, trailing))
    ensures ParseItems(t, i, nesting, acc) ==
            Expected(Arr(acc + SlotsMeaning(items)), ItemsHeight(SlotsMeaning(items)), nesting,
                     i + |SlotsText(items, trailing)|)
    decreases items, 1
  {
    hide FormText, ParseValue, ParseItems, Height, FormOk, SlotsOk, SlotsText, SlotsMeaning, ItemsHeight, Meaning,
      StartsWith, SkipSpaces;
    hide SlotsRest, Larger, Blank, IsSpace;
    var s := items[0];
    SlotsCut(items, trailing);
    SlotsHead(items, acc);
    SlotsRestFirst(items, trailing);
    var text, rest := FormText(s.value), SlotsRest(items, trailing);
    var next := i + |text|;
    StartsSplit(t, i, text, s.after + rest);
    StartsAt(t, i, text);
    FormFirst(s.value);
    AfterGap(t, next, s.after, rest);
    FormRead(t, i, s.value, nesting);
    if nesting + Height(Meaning(s.value)) <= 2048 {
      ItemsStep(t, i, nesting, acc, Meaning(s.value), next, next + |s.after|);
      LargerIs(nesting, Height(Meaning(s.value)), ItemsHeight(SlotsMeaning(items[1..])));
      if |items| > 1 || trailing { SlotsGoOn(t, items, trailing, nesting, acc, next + |s.after|); }
    } else {
      LargerIs(nesting, Height(Meaning(s.value)), ItemsHeight(SlotsMeaning(items[1..])));
      ItemsFail(t, i, nesting, acc);
    }
  }

  lemma SlotsRestFirst(items: seq<Slot>, trailing: bool)
    requires SlotsOk(items) && items != []
    ensures var rest := SlotsRest(items, trailing);
            if |items| == 1 && !trailing then rest == [CLOSE_BRACKET] && !IsSpace(rest[0])
            else rest[0] == COMMA && !IsSpace(rest[0])
  {
  }

  lemma LargerIs(nesting: nat, a: nat, b: nat)
    ensures nesting + a > 2048 ==> nesting + Larger(a, b) > 2048
    ensures nesting + a <= 2048 ==> (nesting + Larger(a, b) <= 2048 <==> nesting + b <= 2048)
  {
  }

  lemma ItemsFail(t: Bytes, i: nat, nesting: nat, acc: seq<Json>)
    requires i <= |t| && ParseValue(t, i, nesting) == None
    ensures ParseItems(t, i, nesting, acc) == None
  {
    hide ParseValue;
  }

  /** Behind the comma. */
  lemma {:induction false} SlotsGoOn(t: Bytes, items: seq<Slot>, trailing: bool, nesting: nat, acc: seq<Json>, k: nat)
    requires SlotsOk(items) && items != [] && StartsWith(t, k, SlotsRest(items, trailing)) && (|items| > 1 || trailing)
    ensures k + 1 <= |t|
    ensures var j := SkipSpaces(t, k + 1);
            var v := acc + [Meaning(items[0].value)];
            var end := k + |SlotsRest(items, trailing)|;
            if |items| == 1 then Peek(t, j) == CLOSE_BRACKET && j + 1 == end
            else Peek(t, j) != CLOSE_BRACKET && ParseItems(t, j, nesting, v) ==
                 Expected(Arr(v + SlotsMeaning(items[1..])), ItemsHeight(SlotsMeaning(items[1..])), nesting, end)
    decreases items, 0
  {
    hide FormText, ParseValue, ParseItems, Height, SlotsText, SlotsMeaning, ItemsHeight, Meaning, StartsWith,
      SkipSpaces, FormOk, Blank, SlotsOk, SlotsRest, SlotsMore, IsSpace;
    SlotsRestIs(items, trailing);
    CommaGap(t, k, items[0].gap, SlotsMore(items, trailing));
    if |items| > 1 {
      SlotsRead(t, k + 1 + |items[0].gap|, items[1..], trailing, nesting, acc + [Meaning(items[0].value)]);
    }
  }

  /** What follows the comma behind the first item, and its blanks. */
  function SlotsMore(items: seq<Slot>, trailing: bool): (t: Bytes)
    requires SlotsOk(items) && items != []
  {
    if |items| == 1 then [']' as int] else SlotsText(items[1..], trailing)
  }

  lemma SlotsRestIs(items: seq<Slot>, trailing: bool)
    requires SlotsOk(items) && items != [] && (|items| > 1 || trailing)
    ensures var gap, more := items[0].gap, SlotsMore(items, trailing);
            && Blank(gap) && more != [] && !IsSpace(more[0]) && FormOk(items[0].value) && SlotsOk(items[1..])
            && SlotsRest(items, trailing) == [',' as int] + (gap + more)
            && |SlotsRest(items, trailing)| == 1 + |gap| + |more|
            && if |items| == 1 then more == [CLOSE_BRACKET] else more[0] != CLOSE_BRACKET
    ensures |items| > 1 ==> SlotsMore(items, trailing) == SlotsText(items[1..], trailing)
  {
    hide FormText, SlotsText;
    if |items| > 1 { SlotsFirst(items[1..], trailing); }
  }

  /** A comma and the blanks behind it. */
  lemma CommaGap(t: Bytes, k: nat, gap: Bytes, more: Bytes)
    requires StartsWith(t, k, [',' as int] + (gap + more)) && Blank(gap) && more != [] && !IsSpace(more[0])
    ensures k + 1 + |gap| < |t| && SkipSpaces(t, k + 1) == k + 1 + |gap|
    ensures StartsWith(t, k + 1 + |gap|, more) && Peek(t, k + 1 + |gap|) == more[0]
  {
    hide StartsWith, Blank, IsSpace, SkipSpaces;
    StartsFirst(t, k, ',' as int, gap + more);
    AfterGap(t, k + 1, gap, more);
  }

  lemma {:induction false} ObjectRead(t: Bytes, i: nat, f: Form, nesting: nat)
    requires f.ObjectForm? && FormOk(f) && StartsWith(t, i, FormText(f)) && nesting <= 2048
    ensures ParseValue(t, i, nesting) == Expected(Meaning(f), Height(Meaning(f)), nesting, i + |FormText(f)|)
    decreases f, 2
  {
    hide ParseValue, ParseMembers, FieldsText, MembersHeight, FieldsMeaning, FieldsOk, StartsWith, SkipSpaces, Blank,
      IsSpace;
    var body := if f.fields == [] then ['}' as int] else FieldsText(f.fields, f.trailing);
    StartsFirst(t, i, '{' as int, f.blank + body);
    BracketsNoSpace();
    if f.fields != [] { FieldsFirst(f.fields, f.trailing); }
    AfterGap(t, i + 1, f.blank, body);
    var j := i + 1 + |f.blank|;
    ObjectStep(t, i, nesting, j);
    if f.fields == [] {
      assert FieldsMeaning(f.fields) == [];
    } else {
      FieldsRead(t, j, f.fields, f.trailing, nesting + 1, []);
      assert [] + FieldsMeaning(f.fields) == FieldsMeaning(f.fields);
    }
  }

  lemma FieldsFirst(fields: seq<Field>, trailing: bool)
    requires FieldsOk(fields) && fields != []
    ensures FieldsText(fields, trailing)[0] == '"' as int
  {
  }

  /** What follows the first member. */
  function FieldsRest(fields: seq<Field>, trailing: bool): (t: Bytes)
    requires FieldsOk(fields) && fields != []
    ensures t != []
  {
    if |fields| == 1 && !trailing then ['}' as int]
    else [',' as int] + (fields[0].gap + if |fields| == 1 then ['}' as int] else FieldsText(fields[1..], trailing))
  }

  /** The text of the first member up to its value. */
  function FieldText(s: Field): Bytes
    requires PiecesOk(s.name) && FormOk(s.value)
  {
    StringText(s.name) + (s.colon + ([':' as int] + (s.before + FormText(s.value))))
  }

  lemma {:induction false} FieldsCut(fields: seq<Field>, trailing: bool)
    requires FieldsOk(fields) && fields != []
    ensures var s := fields[0];
            && PiecesOk(s.name) && Blank(s.colon) && Blank(s.before) && FormOk(s.value) && Blank(s.after)
            && Blank(s.gap) && FieldsOk(fields[1..]) && 0 !in PiecesMeaning(s.name)
            && FieldsText(fields, trailing) == FieldText(s) + (s.after + FieldsRest(fields, trailing))
  {
    hide FormText, StringText, PiecesMeaning, FormOk, PiecesOk, Blank, Named;
    var s := fields[0];
    var name, text := StringText(s.name), FormText(s.value);
    var tail := s.after + FieldsRest(fields, trailing);
    assert FieldsText(fields, trailing) == name + (s.colon + ([':' as int] + (s.before + (text + tail))));
    Regroup(name, s.colon, [':' as int], s.before, text, tail);
  }

  lemma Regroup(a: Bytes, b: Bytes, c: Bytes, d: Bytes, e: Bytes, f: Bytes)
    ensures a + (b + (c + (d + (e + f)))) == (a + (b + (c + (d + e)))) + f
  {
    assert d + (e + f) == (d + e) + f;
    assert c + ((d + e) + f) == (c + (d + e)) + f;
    assert b + ((c + (d + e)) + f) == (b + (c + (d + e))) + f;
  }

  lemma {:induction false} FieldsHead(fields: seq<Field>, acc: seq<Member>)
    requires FieldsOk(fields) && fields != []
    ensures var s := fields[0];
            && PiecesOk(s.name) && FormOk(s.value) && FieldsOk(fields[1..])
            && FieldsMeaning(fields)[0] == Member(PiecesMeaning(s.name), Meaning(s.value))
            && acc + FieldsMeaning(fields) == acc + [FieldsMeaning(fields)[0]] + FieldsMeaning(fields[1..])
            && MembersHeight(FieldsMeaning(fields)) ==
               Larger(Height(Meaning(s.value)), MembersHeight(FieldsMeaning(fields[1..])))
    ensures |fields| == 1 ==> acc + FieldsMeaning(fields) == acc + [FieldsMeaning(fields)[0]]
    ensures |fields| == 1 ==> MembersHeight(FieldsMeaning(fields[1..])) == 0
  {
    hide Meaning, Height, FormOk, PiecesOk, PiecesMeaning, Blank, Named;
    assert FieldsMeaning(fields)[1..] == FieldsMeaning(fields[1..]);
  }

  /** A name, a colon and a value. */
  lemma {:induction false} MemberRead(t: Bytes, i: nat, s: Field, nesting: nat)
    requires PiecesOk(s.name) && Blank(s.colon) && Blank(s.before) && FormOk(s.value) && 0 !in PiecesMeaning(s.name)
    requires StartsWith(t, i, FieldText(s))
    ensures i < |t| && t[i] == QUOTE
    ensures ParseMember(t, i, nesting) ==
            if nesting + Height(Meaning(s.value)) > 2048 then None
            else Some((Member(PiecesMeaning(s.name), Meaning(s.value)), i + |FieldText(s)|))
    decreases s, 0
  {
    hide FormText, ParseValue, Height, FormOk, Meaning, StartsWith, SkipSpaces, StringText, PiecesMeaning, QuotedString,
      PiecesOk;
    var name, text := StringText(s.name), FormText(s.value);
    StartsSplit(t, i, name, s.colon + ([':' as int] + (s.before + text)));
    StringRead(t, i, s.name);
    var afterName := i + |name|;
    AfterGap(t, afterName, s.colon, [':' as int] + (s.before + text));
    var colon := afterName + |s.colon|;
    StartsFirst(t, colon, ':' as int, s.before + text);
    FormFirst(s.value);
    AfterGap(t, colon + 1, s.before, text);
    GapRead(t, colon + 1, s.before, nesting) by { StartsSplit(t, colon + 1, s.before, text); }
    FormRead(t, colon + 1 + |s.before|, s.value, nesting);
  }

  /** Names that are read already and names that are still to come are different. */
  ghost predicate NewNames(fields: seq<Field>, acc: seq<Member>)
    requires FieldsOk(fields)
  {
    forall i :: 0 <= i < |fields| ==> FieldsMeaning(fields)[i].name !in Names(acc)
  }

  lemma {:induction false} FieldNames(fields: seq<Field>, i: nat)
    requires FieldsOk(fields) && i < |fields|
    ensures PiecesOk(fields[i].name) && FieldsMeaning(fields)[i].name == PiecesMeaning(fields[i].name)
  {
    hide Meaning, FormOk, PiecesMeaning;
    if i > 0 { FieldNames(fields[1..], i - 1); }
  }

  lemma NewNamesNext(fields: seq<Field>, acc: seq<Member>)
    requires FieldsOk(fields) && fields != [] && NewNames(fields, acc)
    ensures FieldsMeaning(fields)[0].name !in Names(acc)
    ensures NewNames(fields[1..], acc + [FieldsMeaning(fields)[0]])
  {
    hide Meaning, FormOk, PiecesMeaning;
    var m := FieldsMeaning(fields)[0];
    forall i | 0 <= i < |fields[1..]| ensures FieldsMeaning(fields[1..])[i].name !in Names(acc + [m]) {
      FieldNames(fields[1..], i);
      assert FieldsMeaning(fields[1..])[i] == FieldsMeaning(fields)[i + 1];
      assert Names(acc + [m]) == Names(acc) + [m.name];
    }
  }

  lemma {:induction false} FieldsRead(t: Bytes, i: nat, fields: seq<Field>, trailing: bool, nesting: nat,
                                      acc: seq<Member>)
    requires FieldsOk(fields) && fields != [] && StartsWith(t, i, FieldsText(fields, trailing))
    requires NewNames(fields, acc)
    ensures ParseMembers(t, i, nesting, acc) ==
            Expected(Obj(acc + FieldsMeaning(fields)), MembersHeight(FieldsMeaning(fields)), nesting,
                     i + |FieldsText(fields, trailing)|)
    decreases fields, 1
  {
    hide FormText, ParseMember, ParseMembers, Height, FormOk, FieldsOk, FieldsText, FieldsMeaning, MembersHeight,
      Meaning, StartsWith, SkipSpaces, PiecesMeaning, FieldText, NewNames;
    hide FieldsRest, Larger, Blank, IsSpace, PiecesOk, Names;
    var s := fields[0];
    FieldsCut(fields, trailing);
    FieldsHead(fields, acc);
    FieldsRestFirst(fields, trailing);
    var m := FieldsMeaning(fields)[0];
    var text, rest := FieldText(s), FieldsRest(fields, trailing);
    var next := i + |text|;
    StartsSplit(t, i, text, s.after + rest);
    AfterGap(t, next, s.after, rest);
    MemberRead(t, i, s, nesting);
    NewNamesNext(fields, acc);
    if nesting + Height(Meaning(s.value)) <= 2048 {
      MembersStep(t, i, nesting, acc, m, next, next + |s.after|);
      LargerIs(nesting, Height(Meaning(s.value)), MembersHeight(FieldsMeaning(fields[1..])));
      if |fields| > 1 || trailing { FieldsGoOn(t, fields, trailing, nesting, acc + [m], next + |s.after|); }
    } else {
      LargerIs(nesting, Height(Meaning(s.value)), MembersHeight(FieldsMeaning(fields[1..])));
      MembersFail(t, i, nesting, acc);
    }
  }

  lemma FieldsRestFirst(fields: seq<Field>, trailing: bool)
    requires FieldsOk(fields) && fields != []
    ensures var rest := FieldsRest(fields, trailing);
            if |fields| == 1 && !trailing then rest == [CLOSE_BRACE] && !IsSpace(rest[0])
            else rest[0] == COMMA && !IsSpace(rest[0])
  {
  }

  lemma MembersFail(t: Bytes, i: nat, nesting: nat, acc: seq<Member>)
    requires i <= |t| && ParseMember(t, i, nesting) == None
    ensures ParseMembers(t, i, nesting, acc) == None
  {
    hide ParseMember;
  }

  /** Behind the comma. */
  lemma {:induction false} FieldsGoOn(t: Bytes, fields: seq<Field>, trailing: bool, nesting: nat, acc: seq<Member>,
                                      k: nat)
    requires FieldsOk(fields) && fields != [] && StartsWith(t, k, FieldsRest(fields, trailing))
    requires (|fields| > 1 || trailing) && NewNames(fields[1..], acc)
    ensures k + 1 <= |t|
    ensures var j := SkipSpaces(t, k + 1);
            var end := k + |FieldsRest(fields, trailing)|;
            if |fields| == 1 then Peek(t, j) == CLOSE_BRACE && j + 1 == end
            else Peek(t, j) != CLOSE_BRACE && ParseMembers(t, j, nesting, acc) ==
                 Expected(Obj(acc + FieldsMeaning(fields[1..])), MembersHeight(FieldsMeaning(fields[1..])), nesting,
                          end)
    decreases fields, 0
  {
    hide FormText, ParseMember, ParseMembers, Height, FieldsText, FieldsMeaning, MembersHeight, Meaning, StartsWith,
      SkipSpaces, PiecesMeaning, NewNames, FormOk, Blank, FieldsOk, FieldsRest, FieldsMore, IsSpace;
    FieldsRestIs(fields, trailing);
    CommaGap(t, k, fields[0].gap, FieldsMore(fields, trailing));
    if |fields| > 1 { FieldsRead(t, k + 1 + |fields[0].gap|, fields[1..], trailing, nesting, acc); }
  }

  /** What follows the comma behind the first member, and its blanks. */
  function FieldsMore(fields: seq<Field>, trailing: bool): (t: Bytes)
    requires FieldsOk(fields) && fields != []
  {
    if |fields| == 1 then ['}' as int] else FieldsText(fields[1..], trailing)
  }

  lemma FieldsRestIs(fields: seq<Field>, trailing: bool)
    requires FieldsOk(fields) && fields != [] && (|fields| > 1 || trailing)
    ensures var gap, more := fields[0].gap, FieldsMore(fields, trailing);
            && Blank(gap) && more != [] && !IsSpace(more[0]) && FieldsOk(fields[1..])
            && FieldsRest(fields, trailing) == [',' as int] + (gap + more)
            && |FieldsRest(fields, trailing)| == 1 + |gap| + |more|
            && if |fields| == 1 then more == [CLOSE_BRACE] else more[0] != CLOSE_BRACE
    ensures |fields| > 1 ==> FieldsMore(fields, trailing) == FieldsText(fields[1..], trailing)
  {
    hide FormText, FieldsText, PiecesMeaning;
    if |fields| > 1 { FieldsFirst(fields[1..], trailing); }
  }
}
