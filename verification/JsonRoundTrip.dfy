/** What the serializer writes is a text of the value, so the parser gives the value back. */
module JsonRoundTrip {
  import opened ByteCodec
  import opened JsonText
  import Syntax = JsonSyntax
  import JsonComplete
  import JsonSound

  /** How the serializer spells one byte. */
  function PieceOf(c: byte, slashes: bool): Syntax.Piece {
    if EscapeLetter(c) != 0 then Syntax.Short(EscapeLetter(c) as char)
    else if c < 32 then Syntax.Unit([48, 48, HexDigit(c / 16), HexDigit(c % 16)])
    else if c == SLASH && slashes then Syntax.Short('/')
    else Syntax.Plain(c)
  }

  lemma PieceIs(c: byte, slashes: bool)
    ensures var p := PieceOf(c, slashes);
            Syntax.PieceOk(p) && Syntax.PieceText(p) == Escape(c, slashes) && Syntax.PieceMeaning(p) == [c]
  {
  }

  /** The spelling itself: a letter where section 7 of RFC 8259 has one, for the slash only if asked
      for; four lower-case hexadecimal digits for the other control characters; else the byte. */
  lemma EscapeIs(c: byte, slashes: bool, letter: char)
    ensures Syntax.LetterMeaning(letter) == Some(c) && (letter == '/' ==> slashes) ==>
              Escape(c, slashes) == ['\\' as int, letter as int]
    ensures c < 32 && c !in {8, 9, 10, 12, 13} ==>
              Escape(c, slashes) == Ascii("\\u00") + [Ascii("0123456789abcdef")[c / 16],
                                                      Ascii("0123456789abcdef")[c % 16]]
    ensures c >= 32 && c != '"' as int && c != '\\' as int && (c == '/' as int ==> !slashes) ==>
              Escape(c, slashes) == [c]
  {
    assert Ascii("\\u00") == [92, 117, 48, 48];
    HexIs(c / 16);
    HexIs(c % 16);
  }

  lemma HexIs(v: int)
    requires 0 <= v < 16
    ensures Ascii("0123456789abcdef")[v] == HexDigit(v)
  {
    assert "0123456789abcdef"[0] == '0';
  }

  function PiecesOf(s: Bytes, slashes: bool): seq<Syntax.Piece> {
    if s == [] then [] else [PieceOf(s[0], slashes)] + PiecesOf(s[1..], slashes)
  }

  /** Every byte string is spelled right, escapes and control bytes included. */
  lemma {:induction false} PiecesAre(s: Bytes, slashes: bool)
    ensures var ps := PiecesOf(s, slashes);
            Syntax.PiecesOk(ps) && Syntax.PiecesText(ps) == Escaped(s, slashes) && Syntax.PiecesMeaning(ps) == s
  {
    hide Syntax.PieceOk, Syntax.PieceText, Syntax.PieceMeaning, PieceOf, Escape;
    if s != [] {
      PieceIs(s[0], slashes);
      PiecesAre(s[1..], slashes);
      var p := PieceOf(s[0], slashes);
      assert PiecesOf(s, slashes)[1..] == PiecesOf(s[1..], slashes);
      assert s == [s[0]] + s[1..];
    }
  }

  /** The layout of the serializer: no blanks. */
  function FormOf(v: Json, slashes: bool): Syntax.Form
    decreases v, 1
  {
    match v
    case Null => Syntax.NullForm
    case Bool(b) => if b then Syntax.TrueForm else Syntax.FalseForm
    case Str(s) => Syntax.StringForm(PiecesOf(s, slashes))
    case Arr(items) => Syntax.ArrayForm([], SlotsOf(items, slashes), false)
    case Obj(members) => Syntax.ObjectForm([], FieldsOf(members, slashes), false)
  }

  function SlotsOf(items: seq<Json>, slashes: bool): (r: seq<Syntax.Slot>)
    ensures |r| == |items|
    decreases items, 0
  {
    if items == [] then [] else [Syntax.Slot(FormOf(items[0], slashes), [], [])] + SlotsOf(items[1..], slashes)
  }

  function FieldsOf(members: seq<Member>, slashes: bool): (r: seq<Syntax.Field>)
    ensures |r| == |members|
    decreases members, 0
  {
    if members == [] then [] else
    var m := members[0];
    [Syntax.Field(PiecesOf(m.name, slashes), [], [], FormOf(m.value, slashes), [], [])] + FieldsOf(members[1..],
        slashes)
  }

  /** The serializer writes a text of the value. */
  lemma {:induction false} FormIs(v: Json, slashes: bool)
    requires WellFormed(v)
    ensures var f := FormOf(v, slashes);
            Syntax.FormOk(f) && Syntax.FormText(f) == Text(v, slashes) && Syntax.Meaning(f) == v
    decreases v, 1
  {
    hide Syntax.PiecesOk, Syntax.PiecesText, Syntax.PiecesMeaning, PiecesOf, Escaped, ItemsText, MembersText;
    hide Syntax.SlotsOk, Syntax.SlotsText, Syntax.SlotsMeaning, Syntax.FieldsOk, Syntax.FieldsText;
    hide Syntax.FieldsMeaning, SlotsOf, FieldsOf, MembersOk;
    match v
    case Null =>
    case Bool(b) =>
    case Str(s) => PiecesAre(s, slashes);
    case Arr(items) =>
      SlotsAre(items, slashes);
      assert items == [] ==> ItemsText(items, slashes) == [] by { NoItems(slashes); }
    case Obj(members) =>
      FieldsAre(members, slashes);
      assert members == [] ==> MembersText(members, slashes) == [] by { NoItems(slashes); }
  }

  lemma NoItems(slashes: bool)
    ensures ItemsText([], slashes) == [] && MembersText([], slashes) == []
  {
  }

  lemma {:induction false} SlotsAre(items: seq<Json>, slashes: bool)
    requires forall i :: 0 <= i < |items| ==> WellFormed(items[i])
    ensures var r := SlotsOf(items, slashes);
            && Syntax.SlotsOk(r) && Syntax.SlotsMeaning(r) == items
            && (items != [] ==> Syntax.SlotsText(r, false) == ItemsText(items, slashes) + [CLOSE_BRACKET])
    decreases items, 0
  {
    hide Syntax.FormOk, Syntax.FormText, Syntax.Meaning, Text, FormOf, WellFormed;
    if items != [] {
      var r := SlotsOf(items, slashes);
      FormIs(items[0], slashes);
      SlotsAre(items[1..], slashes);
      assert r[1..] == SlotsOf(items[1..], slashes);
      assert items == [items[0]] + items[1..];
      assert [] + [CLOSE_BRACKET] == [CLOSE_BRACKET];
    }
  }

  lemma {:induction false} FieldsAre(members: seq<Member>, slashes: bool)
    requires MembersOk(members)
    ensures var r := FieldsOf(members, slashes);
            && Syntax.FieldsOk(r) && Syntax.FieldsMeaning(r) == members
            && (members != [] ==> Syntax.FieldsText(r, false) == MembersText(members, slashes) + [CLOSE_BRACE])
    decreases members, 0
  {
    hide Syntax.FormOk, Syntax.FormText, Syntax.Meaning, Text, FormOf, WellFormed, Syntax.PiecesOk, Syntax.PiecesText,
      Syntax.PiecesMeaning, PiecesOf, Escaped;
    if members != [] {
      var m := members[0];
      var r := FieldsOf(members, slashes);
      FormIs(m.value, slashes);
      PiecesAre(m.name, slashes);
      FieldsAre(members[1..], slashes);
      assert r[1..] == FieldsOf(members[1..], slashes);
      assert members == [m] + members[1..] && m == Member(m.name, m.value);
      NotNamed(members[1..], r[1..], m.name);
      FieldTextIs(m, members, r, slashes);
    }
  }

  lemma NotNamed(members: seq<Member>, fields: seq<Syntax.Field>, name: Bytes)
    requires Syntax.FieldsOk(fields) && Syntax.FieldsMeaning(fields) == members && name !in Names(members)
    ensures !Syntax.Named(fields, name)
  {
    forall i | 0 <= i < |fields|
      && Syntax.PiecesOk(fields[i].name) ensures Syntax.PiecesMeaning(fields[i].name) != name {
      JsonComplete.FieldNames(fields, i);
      assert Names(members)[i] == members[i].name;
    }
  }

  lemma {:induction false} FieldTextIs(m: Member, members: seq<Member>, r: seq<Syntax.Field>, slashes: bool)
    requires members != [] && m == members[0] && |r| == |members|
    requires Syntax.FieldsOk(r) && r[0].colon == r[0].before == r[0].after == r[0].gap == []
    requires Syntax.PiecesText(r[0].name) == Escaped(m.name, slashes)
    requires Syntax.FormText(r[0].value) == Text(m.value, slashes)
    requires |members| > 1 ==> Syntax.FieldsText(r[1..], false) == MembersText(members[1..], slashes) + [CLOSE_BRACE]
    ensures Syntax.FieldsText(r, false) == MembersText(members, slashes) + [CLOSE_BRACE]
  {
    hide Syntax.FormOk, Syntax.FormText, Text, Syntax.PiecesOk, Syntax.PiecesText, Escaped, MembersText;
    hide Syntax.FieldsOk, Syntax.FieldsText, MemberText, JsonComplete.FieldText;
    MembersTextIs(members, slashes);
    JsonComplete.FieldsCut(r, false);
    var first := MemberText(m, slashes);
    FieldPlain(r[0], m, slashes);
    var rest := JsonComplete.FieldsRest(r, false);
    assert [] + rest == rest;
    if |members| > 1 {
      var more := MembersText(members[1..], slashes);
      assert rest == [COMMA] + (more + [CLOSE_BRACE]) by { assert [] + Syntax.FieldsText(r[1..], false) ==
                                                          more + [CLOSE_BRACE]; }
      assert first + ([COMMA] + (more + [CLOSE_BRACE])) == first + [COMMA] + more + [CLOSE_BRACE];
    }
  }

  lemma FieldPlain(f: Syntax.Field, m: Member, slashes: bool)
    requires Syntax.PiecesOk(f.name) && Syntax.FormOk(f.value) && f.colon == f.before == []
    requires Syntax.PiecesText(f.name) == Escaped(m.name, slashes)
    requires Syntax.FormText(f.value) == Text(m.value, slashes)
    ensures JsonComplete.FieldText(f) == MemberText(m, slashes)
  {
    hide Syntax.FormOk, Syntax.FormText, Text, Syntax.PiecesOk, Syntax.PiecesText, Escaped;
    assert Syntax.StringText(f.name) == Quoted(m.name, slashes);
    assert [] + Syntax.FormText(f.value) == Text(m.value, slashes);
    assert [] + ([COLON] + Text(m.value, slashes)) == [COLON] + Text(m.value, slashes);
  }

  lemma MembersTextIs(members: seq<Member>, slashes: bool)
    requires members != []
    ensures var first := MemberText(members[0], slashes);
            MembersText(members, slashes) ==
            if |members| == 1 then first else first + [COMMA] + MembersText(members[1..], slashes)
  {
    hide MemberText;
  }

  /** Serializing and parsing: every value without numbers comes back, members and items in their
      order, if and only if it is nested at most 2048 deep. What follows the text is ignored. */
  lemma ParseText(v: Json, slashes: bool, after: Bytes)
    requires WellFormed(v)
    ensures Parse(Text(v, slashes) + after) == if Height(v) <= 2048 then Some(v) else None
  {
    hide Text, Syntax.FormOk, Syntax.FormText, Syntax.Meaning, FormOf, WellFormed, Height, Parse;
    var f, t := FormOf(v, slashes), Text(v, slashes) + after;
    FormIs(v, slashes);
    JsonComplete.FormFirst(f);
    assert t[0] == Syntax.FormText(f)[0];
    assert t[0..|Text(v, slashes)|] == Text(v, slashes);
    assert Syntax.Blank([]) && [] + Syntax.FormText(f) == Syntax.FormText(f);
    assert !StartsWith(t, 0, [0xEF, 0xBB, 0xBF]) by {
      if StartsWith(t, 0, [0xEF, 0xBB, 0xBF]) { JsonComplete.StartsElem(t, 0, [0xEF, 0xBB, 0xBF], 0); }
    }
    JsonSound.ParseForm(t, f);
  }
}
