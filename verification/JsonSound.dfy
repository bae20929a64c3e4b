/** The parser accepts nothing else: what it reads is a text of the value that it returns. */
module JsonSound {
  import opened ByteCodec
  import opened JsonText
  import opened JsonSyntax
  import opened JsonComplete

  lemma {:induction false} SpaceRun(t: Bytes, i: nat)
    requires i <= |t|
    ensures Blank(t[i..SkipSpaces(t, i)]) && !IsSpace(Peek(t, SkipSpaces(t, i)))
    decreases |t| - i
  {
    if IsSpace(Peek(t, i)) {
      SpaceRun(t, i + 1);
      assert t[i..SkipSpaces(t, i)] == [t[i]] + t[i + 1..SkipSpaces(t, i)];
    }
  }

  lemma SliceStarts(t: Bytes, i: nat, j: nat)
    requires i <= j <= |t|
    ensures StartsWith(t, i, t[i..j])
  {
  }

  lemma ElemsStart(t: Bytes, i: nat, s: Bytes)
    requires i + |s| <= |t| && forall k :: 0 <= k < |s| ==> t[i + k] == s[k]
    ensures StartsWith(t, i, s)
  {
  }

  lemma Hex4Digits(t: Bytes, i: nat)
    requires Hex4(t, i).Some?
    ensures i + 4 <= |t| && JsonSyntax.Digits(t[i..i + 4]) && Number(t[i..i + 4]) == Hex4(t, i).value
  {
    DigitsAgree(Peek(t, i));
    DigitsAgree(Peek(t, i + 1));
    DigitsAgree(Peek(t, i + 2));
    DigitsAgree(Peek(t, i + 3));
  }

  /** An escape \u that the parser reads. */
  lemma UnitStarts(t: Bytes, i: nat)
    requires i + 1 < |t| && t[i] == BACKSLASH && t[i + 1] == 117 && Hex4(t, i + 2).Some?
    ensures i + 6 <= |t| && JsonSyntax.Digits(t[i + 2..i + 6]) && Number(t[i + 2..i + 6]) == Hex4(t, i + 2).value
    ensures StartsWith(t, i, ['\\' as int, 'u' as int] + t[i + 2..i + 6])
  {
    hide Hex4, Number, DigitMeaning;
    Hex4Digits(t, i + 2);
    ElemsStart(t, i, ['\\' as int, 'u' as int] + t[i + 2..i + 6]);
  }

  lemma PieceFromEscape(t: Bytes, i: nat) returns (p: Piece)
    requires i + 1 < |t| && t[i] == BACKSLASH && t[i + 1] == 117 && Utf16(t, i + 1).Some?
    ensures PieceOk(p) && StartsWith(t, i, PieceText(p))
  {
    hide Hex4, Number, JsonSyntax.Digits, StartsWith;
    UnitStarts(t, i);
    var a := t[i + 2..i + 6];
    if 0xD800 <= Number(a) <= 0xDFFF {
      UnitStarts(t, i + 6);
      var b := t[i + 8..i + 12];
      StartsSplit(t, i, ['\\' as int, 'u' as int] + a, ['\\' as int, 'u' as int] + b);
      p := Pair(a, b);
    } else {
      p := Unit(a);
    }
  }

  lemma PieceFromLetter(t: Bytes, i: nat) returns (p: Piece)
    requires i + 1 < |t| && t[i] == BACKSLASH && Unescape(t[i + 1]).Some?
    ensures PieceOk(p) && StartsWith(t, i, PieceText(p))
  {
    p := Short(t[i + 1] as char);
    ElemsStart(t, i, PieceText(p));
  }

  /** What the parser reads next in a string is a piece. */
  lemma NextPiece(t: Bytes, i: nat, j: nat, acc: Bytes) returns (p: Piece)
    requires i <= |t| && i + 1 < j && SkipQuoted(t, i) == Some(j) && Process(t, i, j - 1, acc).Some?
    ensures PieceOk(p) && StartsWith(t, i, PieceText(p))
  {
    hide Utf16, Unescape, PieceText, PieceOk;
    if t[i] == BACKSLASH {
      if t[i + 1] == 117 {
        p := PieceFromEscape(t, i);
      } else {
        p := PieceFromLetter(t, i);
      }
    } else {
      p := PieceFromByte(t, i);
    }
  }

  lemma PieceFromByte(t: Bytes, i: nat) returns (p: Piece)
    requires i < |t| && t[i] >= 32 && t[i] != QUOTE && t[i] != BACKSLASH
    ensures PieceOk(p) && StartsWith(t, i, PieceText(p))
  {
    p := Plain(t[i]);
    ElemsStart(t, i, [t[i]]);
  }

  lemma {:induction false} PiecesFrom(t: Bytes, i: nat, j: nat, acc: Bytes) returns (ps: seq<Piece>)
    requires i <= |t| && i < j && SkipQuoted(t, i) == Some(j) && Process(t, i, j - 1, acc).Some?
    ensures PiecesOk(ps) && StartsWith(t, i, PiecesText(ps) + ['"' as int])
    decreases j - i
  {
    hide PieceText, PieceOk, PieceMeaning;
    if i + 1 == j {
      ps := [];
      EndQuote(t, i, j);
      ElemsStart(t, i, PiecesText(ps) + ['"' as int]);
    } else {
      hide SkipQuoted, Process, StartsWith;
      var p := NextPiece(t, i, j, acc);
      SkipPiece(t, i, p);
      var next := i + |PieceText(p)|;
      SkipAhead(t, next, j);
      ProcessPiece(t, i, p, j - 1, acc);
      var rest := PiecesFrom(t, next, j, acc + PieceMeaning(p));
      ps := [p] + rest;
      StartsSplit(t, i, PieceText(p), PiecesText(rest) + ['"' as int]);
      assert ps[1..] == rest;
      assert PiecesText(ps) + ['"' as int] == PieceText(p) + (PiecesText(rest) + ['"' as int]);
    }
  }

  lemma SkipAhead(t: Bytes, i: nat, j: nat)
    requires i <= |t| && SkipQuoted(t, i) == Some(j)
    ensures i < j <= |t|
  {
  }

  lemma {:induction false} EndQuote(t: Bytes, i: nat, j: nat)
    requires i <= |t| && SkipQuoted(t, i) == Some(j)
    ensures i < j <= |t| && t[j - 1] == QUOTE
    decreases |t| - i
  {
    if Peek(t, i) == QUOTE {
    } else if Peek(t, i) == BACKSLASH {
      EndQuote(t, i + 2, j);
    } else {
      EndQuote(t, i + 1, j);
    }
  }

  /** A string that the parser reads is a spelling of the bytes that it returns. */
  lemma StringFrom(t: Bytes, i: nat) returns (ps: seq<Piece>)
    requires i <= |t| && QuotedString(t, i).Some?
    ensures PiecesOk(ps) && StartsWith(t, i, StringText(ps))
    ensures QuotedString(t, i) == Some((PiecesMeaning(ps), i + |StringText(ps)|))
  {
    hide SkipQuoted, Process, PiecesText, StartsWith, PiecesMeaning, PiecesOk;
    ps := PiecesFrom(t, i + 1, SkipQuoted(t, i + 1).value, []);
    OneQuote(t, i);
    StartsSplit(t, i, ['"' as int], PiecesText(ps) + ['"' as int]);
    StringRead(t, i, ps);
  }

  lemma OneQuote(t: Bytes, i: nat)
    requires i < |t| && t[i] == QUOTE
    ensures StartsWith(t, i, ['"' as int])
  {
  }

  lemma OneByte(t: Bytes, i: nat, c: byte, rest: Bytes)
    requires i < |t| && t[i] == c && StartsWith(t, i + 1, rest)
    ensures StartsWith(t, i, [c] + rest)
  {
    StartsSplit(t, i, [c], rest);
  }

  /** Blanks and what follows them. */
  lemma Gap(t: Bytes, i: nat, rest: Bytes)
    requires i <= |t| && StartsWith(t, SkipSpaces(t, i), rest)
    ensures var j := SkipSpaces(t, i); Blank(t[i..j]) && StartsWith(t, i, t[i..j] + rest)
  {
    hide SkipSpaces, StartsWith, Blank;
    var j := SkipSpaces(t, i);
    SpaceRun(t, i);
    SliceStarts(t, i, j);
    StartsSplit(t, i, t[i..j], rest);
  }

  /** What the parser accepts as a value is a text of a value. */
  lemma {:induction false} FormFrom(t: Bytes, at: nat, nesting: nat) returns (f: Form)
    requires at <= |t| && ParseValue(t, at, nesting).Some?
    ensures FormOk(f) && StartsWith(t, SkipSpaces(t, at), FormText(f))
    decreases |t| - at, 1
  {
    hide ParseItems, ParseMembers, QuotedString, FormText, FormOk;
    var i := SkipSpaces(t, at);
    var c := Peek(t, i);
    if c == OPEN_BRACE {
      f := ObjectFrom(t, at, nesting);
    } else if c == OPEN_BRACKET {
      f := ArrayFrom(t, at, nesting);
    } else if c == QUOTE {
      var ps := StringFrom(t, i);
      f := StringForm(ps);
      StringFormIs(ps);
    } else {
      f := if StartsWith(t, i, TRUE_TOKEN) then TrueForm else if StartsWith(t, i,
                                                                            FALSE_TOKEN) then FalseForm else NullForm;
      WordsAre();
    }
  }

  lemma StringFormIs(ps: seq<Piece>)
    requires PiecesOk(ps)
    ensures FormOk(StringForm(ps)) && FormText(StringForm(ps)) == StringText(ps)
  {
  }

  lemma WordsAre()
    ensures FormOk(TrueForm) && FormText(TrueForm) == TRUE_TOKEN
    ensures FormOk(FalseForm) && FormText(FalseForm) == FALSE_TOKEN
    ensures FormOk(NullForm) && FormText(NullForm) == NULL_TOKEN
  {
  }

  lemma {:induction false} ArrayFrom(t: Bytes, at: nat, nesting: nat) returns (f: Form)
    requires at <= |t| && ParseValue(t, at, nesting).Some? && Peek(t, SkipSpaces(t, at)) == OPEN_BRACKET
    ensures FormOk(f) && StartsWith(t, SkipSpaces(t, at), FormText(f))
    decreases |t| - at, 0
  {
    hide ParseItems, SlotsText, SlotsOk, StartsWith, SkipSpaces, Blank;
    var i := SkipSpaces(t, at);
    var j := SkipSpaces(t, i + 1);
    var blank := t[i + 1..j];
    SpaceRun(t, i + 1);
    if Peek(t, j) == CLOSE_BRACKET {
      f := ArrayForm(blank, [], false);
      JustByte(t, j);
      Gap(t, i + 1, [']' as int]);
      OneByte(t, i, '[' as int, blank + [']' as int]);
      assert SlotsOk([]) by { NoSlots(); }
    } else {
      var items, trailing := SlotsFrom(t, j, nesting + 1, []);
      f := ArrayForm(blank, items, trailing);
      Gap(t, i + 1, SlotsText(items, trailing));
      OneByte(t, i, '[' as int, blank + SlotsText(items, trailing));
    }
  }

  lemma NoSlots()
    ensures SlotsOk([]) && FieldsOk([])
  {
  }

  lemma JustByte(t: Bytes, i: nat)
    requires i < |t|
    ensures StartsWith(t, i, [t[i]])
  {
  }

  /** Without blanks in front, a value that was parsed stands right here. */
  lemma FormHere(t: Bytes, i: nat, f: Form, nesting: nat)
    requires FormOk(f) && i <= |t| && ParseValue(t, i, nesting).Some? && StartsWith(t, SkipSpaces(t, i), FormText(f))
    ensures ParseValue(t, i, nesting) ==
            Some((Meaning(f), SkipSpaces(t, i) + |FormText(f)|)) && SkipSpaces(t, i) + |FormText(f)| <= |t|
  {
    hide ParseValue, FormText, Meaning, FormOk, Height, Blank;
    var j := SkipSpaces(t, i);
    SpaceRun(t, i);
    SliceStarts(t, i, j);
    GapRead(t, i, t[i..j], nesting);
    FormRead(t, j, f, nesting);
  }

  lemma {:induction false} SlotsFrom(t: Bytes, i: nat, nesting: nat, acc: seq<Json>)
    returns (items: seq<Slot>, trailing: bool)
    requires i <= |t| && !IsSpace(Peek(t, i)) && ParseItems(t, i, nesting, acc).Some?
    ensures SlotsOk(items) && items != [] && StartsWith(t, i, SlotsText(items, trailing))
    decreases |t| - i, 2
  {
    hide ParseValue, FormText, FormOk, Meaning, SkipSpaces, Blank, SlotsText, SlotsOk, StartsWith;
    NoSpace(t, i);
    var f := FormFrom(t, i, nesting);
    FormHere(t, i, f, nesting);
    var next := i + |FormText(f)|;
    var k := SkipSpaces(t, next);
    SpaceRun(t, next);
    var rest;
    if Peek(t, k) == COMMA {
      items, trailing, rest := SlotsBehind(t, k, f, t[next..k], nesting, acc + [Meaning(f)]);
    } else {
      items, trailing, rest := [Slot(f, t[next..k], [])], false, [']' as int];
      EmptyBlank();
      JustByte(t, k);
      LastSlot(items[0], false);
    }
    Gap(t, next, rest);
    StartsSplit(t, i, FormText(f), t[next..k] + rest);
  }

  /** The comma behind an item, and all that follows. */
  lemma {:induction false} SlotsBehind(t: Bytes, k: nat, f: Form, after: Bytes, nesting: nat, acc: seq<Json>)
    returns (items: seq<Slot>, trailing: bool, rest: Bytes)
    requires k < |t| && t[k] == COMMA && FormOk(f) && Blank(after)
    requires var j := SkipSpaces(t, k + 1); Peek(t, j) == CLOSE_BRACKET || ParseItems(t, j, nesting, acc).Some?
    ensures SlotsOk(items) && items != [] && StartsWith(t, k, rest)
    ensures SlotsText(items, trailing) == FormText(f) + (after + rest)
    decreases |t| - k, 2
  {
    hide ParseItems, FormText, FormOk, SkipSpaces, Blank, SlotsText, SlotsOk, StartsWith;
    var j := SkipSpaces(t, k + 1);
    var gap := t[k + 1..j];
    SpaceRun(t, k + 1);
    var more;
    if Peek(t, j) == CLOSE_BRACKET {
      more, items, trailing := [']' as int], [Slot(f, after, gap)], true;
      JustByte(t, j);
      LastSlot(items[0], true);
    } else {
      var others;
      others, trailing := SlotsFrom(t, j, nesting, acc);
      more, items := SlotsText(others, trailing), [Slot(f, after, gap)] + others;
      ConsSlot(items[0], others, trailing);
    }
    Gap(t, k + 1, more);
    rest := [',' as int] + (gap + more);
    OneByte(t, k, ',' as int, gap + more);
  }

  lemma EmptyBlank()
    ensures Blank([])
  {
  }

  lemma LastSlot(s: Slot, trailing: bool)
    requires FormOk(s.value) && Blank(s.after) && Blank(s.gap)
    ensures SlotsOk([s])
    ensures SlotsText([s], trailing) ==
            FormText(s.value) + (s.after + if trailing then [',' as int] + (s.gap + [']' as int]) else [']' as int])
  {
    hide FormText, FormOk, Blank;
    assert [s][1..] == [];
  }

  lemma ConsSlot(s: Slot, others: seq<Slot>, trailing: bool)
    requires FormOk(s.value) && Blank(s.after) && Blank(s.gap) && SlotsOk(others) && others != []
    ensures SlotsOk([s] + others)
    ensures SlotsText([s] + others, trailing) ==
            FormText(s.value) + (s.after + ([',' as int] + (s.gap + SlotsText(others, trailing))))
  {
    hide FormText, FormOk, Blank;
    assert ([s] + others)[1..] == others;
  }

  lemma {:induction false} ObjectFrom(t: Bytes, at: nat, nesting: nat) returns (f: Form)
    requires at <= |t| && ParseValue(t, at, nesting).Some? && Peek(t, SkipSpaces(t, at)) == OPEN_BRACE
    ensures FormOk(f) && StartsWith(t, SkipSpaces(t, at), FormText(f))
    decreases |t| - at, 0
  {
    hide ParseMembers, FieldsText, FieldsOk, StartsWith, SkipSpaces, Blank;
    var i := SkipSpaces(t, at);
    var j := SkipSpaces(t, i + 1);
    var blank := t[i + 1..j];
    SpaceRun(t, i + 1);
    if Peek(t, j) == CLOSE_BRACE {
      f := ObjectForm(blank, [], false);
      JustByte(t, j);
      Gap(t, i + 1, ['}' as int]);
      OneByte(t, i, '{' as int, blank + ['}' as int]);
      assert FieldsOk([]) by { NoSlots(); }
    } else {
      var fields, trailing := FieldsFrom(t, j, nesting + 1, []);
      f := ObjectForm(blank, fields, trailing);
      Gap(t, i + 1, FieldsText(fields, trailing));
      OneByte(t, i, '{' as int, blank + FieldsText(fields, trailing));
    }
  }

  /** A name, a colon and a value that were parsed. Nothing is said yet about what follows. */
  lemma {:induction false} FieldFrom(t: Bytes, i: nat, nesting: nat) returns (s: Field)
    requires i <= |t| && ParseMember(t, i, nesting).Some?
    ensures PiecesOk(s.name) && Blank(s.colon) && Blank(s.before) && FormOk(s.value) && 0 !in PiecesMeaning(s.name)
    ensures StartsWith(t, i, FieldText(s)) && i + |FieldText(s)| <= |t|
    ensures ParseMember(t, i, nesting) ==
            Some((Member(PiecesMeaning(s.name), Meaning(s.value)), i + |FieldText(s)|))
    decreases |t| - i, 1
  {
    hide ParseValue, FormText, FormOk, Meaning, SkipSpaces, Blank, StartsWith, QuotedString, StringText, PiecesMeaning,
      PiecesOk;
    var ps := StringFrom(t, i);
    var afterName := i + |StringText(ps)|;
    var colon := SkipSpaces(t, afterName);
    SpaceRun(t, afterName);
    var f := FormFrom(t, colon + 1, nesting);
    FormHere(t, colon + 1, f, nesting);
    var j := SkipSpaces(t, colon + 1);
    SpaceRun(t, colon + 1);
    s := Field(ps, t[afterName..colon], t[colon + 1..j], f, [], []);
    Gap(t, colon + 1, FormText(f));
    OneByte(t, colon, ':' as int, s.before + FormText(f));
    Gap(t, afterName, [':' as int] + (s.before + FormText(f)));
    StartsSplit(t, i, StringText(ps), s.colon + ([':' as int] + (s.before + FormText(f))));
  }

  lemma {:induction false} FieldsFrom(t: Bytes, i: nat, nesting: nat, acc: seq<Member>)
    returns (fields: seq<Field>, trailing: bool)
    requires i <= |t| && ParseMembers(t, i, nesting, acc).Some?
    ensures FieldsOk(fields) && fields != [] && StartsWith(t, i, FieldsText(fields, trailing))
    ensures forall k :: 0 <= k < |fields| ==> Fresh(fields[k], acc)
    decreases |t| - i, 2
  {
    hide ParseMember, FormText, FormOk, Meaning, SkipSpaces, Blank, FieldsText, FieldsOk, StartsWith, FieldText,
      PiecesMeaning, PiecesOk, Fresh, Names;
    var s0 := FieldFrom(t, i, nesting);
    var m, next := Member(PiecesMeaning(s0.name), Meaning(s0.value)), i + |FieldText(s0)|;
    var k := SkipSpaces(t, next);
    SpaceRun(t, next);
    var rest;
    if Peek(t, k) == COMMA {
      var j := SkipSpaces(t, k + 1);
      SpaceRun(t, k + 1);
      var s := s0.(after := t[next..k], gap := t[k + 1..j]);
      SameField(s0, s);
      IsFresh(s, acc);
      var more;
      if Peek(t, j) == CLOSE_BRACE {
        more, fields, trailing := ['}' as int], [s], true;
        JustByte(t, j);
        LastField(s, true);
      } else {
        var others;
        others, trailing := FieldsFrom(t, j, nesting, acc + [m]);
        more, fields := FieldsText(others, trailing), [s] + others;
        OtherNames(s, others, acc, m);
        ConsField(s, others, trailing);
      }
      Gap(t, k + 1, more);
      rest := [',' as int] + (s.gap + more);
      OneByte(t, k, ',' as int, s.gap + more);
    } else {
      var s := s0.(after := t[next..k], gap := []);
      SameField(s0, s);
      IsFresh(s, acc);
      EmptyBlank();
      rest, fields, trailing := ['}' as int], [s], false;
      JustByte(t, k);
      LastField(s, false);
    }
    Gap(t, next, rest);
    StartsSplit(t, i, FieldText(s0), t[next..k] + rest);
  }

  /** No member that was read already has this name. */
  predicate Fresh(s: Field, acc: seq<Member>) {
    PiecesOk(s.name) && PiecesMeaning(s.name) !in Names(acc)
  }

  lemma IsFresh(s: Field, acc: seq<Member>)
    requires PiecesOk(s.name) && PiecesMeaning(s.name) !in Names(acc)
    ensures Fresh(s, acc)
  {
  }

  lemma OtherNames(s: Field, others: seq<Field>, acc: seq<Member>, m: Member)
    requires PiecesOk(s.name) && m.name == PiecesMeaning(s.name)
    requires forall k :: 0 <= k < |others| ==> Fresh(others[k], acc + [m])
    ensures !Named(others, PiecesMeaning(s.name)) && forall k :: 0 <= k < |others| ==> Fresh(others[k], acc)
  {
    hide PiecesMeaning, PiecesOk;
    assert Names(acc + [m]) == Names(acc) + [m.name];
  }

  lemma SameField(s: Field, s': Field)
    requires PiecesOk(s.name) && FormOk(s.value) && s' == s.(after := s'.after, gap := s'.gap)
    ensures FieldText(s') == FieldText(s)
  {
  }

  lemma LastField(s: Field, trailing: bool)
    requires PiecesOk(s.name) && Blank(s.colon) && Blank(s.before) && FormOk(s.value) && 0 !in PiecesMeaning(s.name)
    requires Blank(s.after) && Blank(s.gap)
    ensures FieldsOk([s])
    ensures FieldsText([s], trailing) ==
            FieldText(s) + (s.after + if trailing then [',' as int] + (s.gap + ['}' as int]) else ['}' as int])
  {
    hide FormText, FormOk, Blank, PiecesOk, PiecesMeaning, FieldText;
    assert [s][1..] == [] && FieldsOk([]);
    FieldsCut([s], trailing);
  }

  lemma ConsField(s: Field, others: seq<Field>, trailing: bool)
    requires PiecesOk(s.name) && Blank(s.colon) && Blank(s.before) && FormOk(s.value) && 0 !in PiecesMeaning(s.name)
    requires Blank(s.after) && Blank(s.gap) && FieldsOk(others) && others != [] && !Named(others, PiecesMeaning(s.name))
    ensures FieldsOk([s] + others)
    ensures FieldsText([s] + others, trailing) ==
            FieldText(s) + (s.after + ([',' as int] + (s.gap + FieldsText(others, trailing))))
  {
    hide FormText, FormOk, Blank, PiecesOk, PiecesMeaning, FieldText, FieldsText, Named;
    assert ([s] + others)[1..] == others;
    FieldsCut([s] + others, trailing);
  }

  /** Where the text of a value begins: a byte order mark is skipped. */
  function TextStart(t: Bytes): (i: nat)
    ensures i <= |t|
  {
    if StartsWith(t, 0, [0xEF, 0xBB, 0xBF]) then 3 else 0
  }

  /** After blanks, and whatever follows, `t` is a text of this form. */
  ghost predicate IsTextOf(t: Bytes, f: Form) {
    FormOk(f) && exists gap :: Blank(gap) && StartsWith(t, TextStart(t), gap + FormText(f))
  }

  /** The parser in full: it returns a value if and only if the input begins with a text of that value,
      and the value is nested at most 2048 deep. */
  lemma ParseIff(t: Bytes, v: Json)
    ensures Parse(t) == Some(v) <==> Height(v) <= 2048 && exists f :: IsTextOf(t, f) && Meaning(f) == v
  {
    hide FormText, FormOk, Meaning, ParseValue, Height, Blank;
    StartIs(t);
    var i := TextStart(t);
    if Parse(t) == Some(v) {
      var f := FormFrom(t, i, 0);
      TextFrom(t, f);
      ParseForm(t, f);
    }
    if f :| IsTextOf(t, f) && Meaning(f) == v { ParseForm(t, f); }
  }

  lemma StartIs(t: Bytes)
    ensures TextStart(t) == if Peek(t, 0) == 0xEF && Peek(t, 1) == 0xBB && Peek(t, 2) == 0xBF then 3 else 0
  {
    if |t| >= 3 { assert t[0..3] == [t[0], t[1], t[2]]; }
  }

  lemma TextFrom(t: Bytes, f: Form)
    requires FormOk(f) && StartsWith(t, SkipSpaces(t, TextStart(t)), FormText(f))
    ensures IsTextOf(t, f)
  {
    hide FormText, FormOk, SkipSpaces;
    Gap(t, TextStart(t), FormText(f));
  }

  /** Every text of a value parses to that value, exactly if it is nested at most 2048 deep. */
  lemma ParseForm(t: Bytes, f: Form)
    requires IsTextOf(t, f)
    ensures Parse(t) == if Height(Meaning(f)) <= 2048 then Some(Meaning(f)) else None
  {
    hide FormText, FormOk, Meaning, ParseValue, Height, Blank, SkipSpaces, StartsWith;
    StartIs(t);
    var i := TextStart(t);
    var gap :| Blank(gap) && StartsWith(t, i, gap + FormText(f));
    FormFirst(f);
    AfterGap(t, i, gap, FormText(f));
    GapRead(t, i, gap, 0) by { StartsSplit(t, i, gap, FormText(f)); }
    FormRead(t, i + |gap|, f, 0);
  }
}
