/** The serializer as it writes into a buffer, or only measures, and the parser as it moves its
    cursor. */
module JsonBuffer {
  import opened ByteCodec
  import opened JsonText
  import opened JsonRoundTrip
  import opened ObjectTables

  /** The first `at` bytes of the buffer; without a buffer, none. */
  ghost function Before(buf: array?<byte>, at: nat): Bytes
    requires buf != null ==> at <= buf.Length
    reads buf
  {
    if buf == null then [] else buf[..at]
  }

  /** Nothing has been written behind index `last`. */
  twostate predicate Untouched(buf: array<byte>, last: nat)
    reads buf
  {
    forall j :: last < j < buf.Length ==> buf[j] == old(buf[j])
  }

  /** APPEND_STRING: copies a token and a terminating zero, or only counts. */
  method Append(buf: array?<byte>, at: nat, token: Bytes) returns (n: nat)
    requires buf != null ==> at + |token| < buf.Length
    modifies buf
    ensures n == |token|
    ensures buf != null ==> Before(buf, at + n) == old(Before(buf, at)) + token && buf[at + n] == 0
    ensures buf != null ==> Untouched(buf, at + n)
  {
    if buf != null {
      var i := 0;
      while i < |token|
        invariant i <= |token| && buf[..at + i] == old(buf[..at]) + token[..i] && Untouched(buf, at + |token|)
      {
        buf[at + i] := token[i];
        i := i + 1;
      }
      assert token[..i] == token;
      buf[at + |token|] := 0;
    }
    n := |token|;
  }

  /** A byte copied as it is, without a terminating zero. */
  method AppendByte(buf: array?<byte>, at: nat, c: byte)
    requires buf != null ==> at < buf.Length
    modifies buf
    ensures buf != null ==> Before(buf, at + 1) == old(Before(buf, at)) + [c] && Untouched(buf, at)
  {
    if buf != null {
      buf[at] := c;
    }
  }

  /** The switch of json_serialize_string on one byte. */
  method AppendEscaped(c: byte, slashes: bool, buf: array?<byte>, at: nat) returns (n: nat)
    requires buf != null ==> at + |Escape(c, slashes)| < buf.Length
    modifies buf
    ensures n == |Escape(c, slashes)|
    ensures buf != null ==> Before(buf, at + n) == old(Before(buf, at)) + Escape(c, slashes)
    ensures buf != null ==> Untouched(buf, at + n)
  {
    hide Before;
    var piece := Escape(c, slashes);
    if |piece| > 1 {
      n := Append(buf, at, piece);
    } else {
      AppendByte(buf, at, piece[0]);
      assert [piece[0]] == piece;
      n := 1;
    }
  }

  /** `w` bytes of `whole` are done and `rest` is to come. */
  ghost predicate Progress(whole: Bytes, w: nat, rest: Bytes) {
    w <= |whole| && whole[w..] == rest
  }

  lemma Advances(whole: Bytes, w: nat, piece: Bytes, rest: Bytes)
    requires Progress(whole, w, piece + rest)
    ensures Progress(whole, w + |piece|, rest) && whole[..w + |piece|] == whole[..w] + piece
  {
    assert whole[w..][..|piece|] == piece && whole[w..][|piece|..] == rest;
    assert whole[..w + |piece|] == whole[..w] + whole[w..][..|piece|];
  }

  /** json_serialize_string */
  method SerializeString(s: Bytes, slashes: bool, buf: array?<byte>, at: nat) returns (written: nat)
    requires buf != null ==> at + |Quoted(s, slashes)| < buf.Length
    modifies buf
    ensures written == |Quoted(s, slashes)|
    ensures buf != null ==> Before(buf, at + written) == old(Before(buf, at)) + Quoted(s, slashes)
    ensures buf != null ==> buf[at + written] == 0
    ensures buf != null ==> Untouched(buf, at + written)
  {
    hide Escape, Progress, Before, Quoted, Escaped;
    ghost var whole, pre := Quoted(s, slashes), Before(buf, at);
    QuotedStart(s, slashes);
    written := Append(buf, at, [QUOTE]);
    var i := 0;
    while i < |s|
      invariant i <= |s| && Progress(whole, written, Escaped(s[i..], slashes) + [QUOTE]) && written + 1 <= |whole|
      invariant buf != null ==> Before(buf, at + written) == pre + whole[..written] && Untouched(buf, at + |whole|)
    {
      EscapedNext(s, i, slashes);
      StepDone(whole, written, Escape(s[i], slashes), Escaped(s[i + 1..], slashes) + [QUOTE], pre);
      Room(whole, written + |Escape(s[i], slashes)|, Escaped(s[i + 1..], slashes));
      var n := AppendEscaped(s[i], slashes, buf, at + written);
      written := written + n;
      i := i + 1;
    }
    EscapedEnd(s, i, slashes);
    StepDone(whole, written, [QUOTE], [], pre);
    AllDone(whole, written + 1);
    var n := Append(buf, at + written, [QUOTE]);
    written := written + n;
  }

  lemma StepDone(whole: Bytes, w: nat, piece: Bytes, rest: Bytes, pre: Bytes)
    requires Progress(whole, w, piece + rest)
    ensures w + |piece| <= |whole| && Progress(whole, w + |piece|, rest)
    ensures (pre + whole[..w]) + piece == pre + whole[..w + |piece|]
  {
    Advances(whole, w, piece, rest);
  }

  lemma QuotedStart(s: Bytes, slashes: bool)
    ensures Progress(Quoted(s, slashes), 1, Escaped(s[0..], slashes) + [QUOTE]) && Quoted(s, slashes)[..1] == [QUOTE]
  {
    assert s[0..] == s;
  }

  lemma EscapedNext(s: Bytes, i: nat, slashes: bool)
    requires i < |s|
    ensures Escaped(s[i..], slashes) + [QUOTE] == Escape(s[i], slashes) + (Escaped(s[i + 1..], slashes) + [QUOTE])
  {
    assert s[i..][1..] == s[i + 1..];
  }

  lemma EscapedEnd(s: Bytes, i: nat, slashes: bool)
    requires i == |s|
    ensures Escaped(s[i..], slashes) + [QUOTE] == [QUOTE] + []
  {
  }

  lemma Room(whole: Bytes, w: nat, rest: Bytes)
    requires Progress(whole, w, rest + [QUOTE])
    ensures w + 1 <= |whole|
  {
  }

  lemma AllDone(whole: Bytes, w: nat)
    requires Progress(whole, w, [])
    ensures w == |whole| && whole[..w] == whole
  {
  }

  /** json_serialize_to_buffer_r without indentation: with a buffer it writes the text and a zero,
      without one it only counts; the count is the same. */
  method Serialize(v: Json, slashes: bool, buf: array?<byte>, at: nat) returns (written: nat)
    requires buf != null ==> at + |Text(v, slashes)| < buf.Length
    modifies buf
    ensures written == |Text(v, slashes)|
    ensures buf != null ==> Before(buf, at + written) == old(Before(buf, at)) + Text(v, slashes)
    ensures buf != null ==> buf[at + written] == 0
    ensures buf != null ==> Untouched(buf, at + written)
    decreases v, 1
  {
    hide Quoted, Before, ItemsText, MembersText;
    match v
    case Null => written := Append(buf, at, NULL_TOKEN);
    case Bool(b) => written := Append(buf, at, if b then TRUE_TOKEN else FALSE_TOKEN);
    case Str(s) => written := SerializeString(s, slashes, buf, at);
    case Arr(items) => written := SerializeArray(items, slashes, buf, at);
    case Obj(members) => written := SerializeObject(members, slashes, buf, at);
  }

  /** What separates an item or member from the next one. */
  function Separator(last: bool): Bytes {
    if last then [] else [COMMA]
  }

  /** One item and the comma after it. */
  method SerializeItem(v: Json, last: bool, slashes: bool, buf: array?<byte>, at: nat) returns (n: nat)
    requires buf != null ==> at + |Text(v, slashes)| + |Separator(last)| < buf.Length
    modifies buf
    ensures n == |Text(v, slashes)| + |Separator(last)|
    ensures buf != null ==> Before(buf, at + n) == old(Before(buf, at)) + (Text(v, slashes) + Separator(last))
    ensures buf != null ==> Untouched(buf, at + n)
    decreases v, 2
  {
    hide Before, Text;
    n := Serialize(v, slashes, buf, at);
    if !last {
      var m := Append(buf, at + n, [COMMA]);
      n := n + m;
    } else {
      assert Text(v, slashes) + Separator(last) == Text(v, slashes);
    }
  }

  method SerializeArray(items: seq<Json>, slashes: bool, buf: array?<byte>, at: nat) returns (written: nat)
    requires buf != null ==> at + |Text(Arr(items), slashes)| < buf.Length
    modifies buf
    ensures written == |Text(Arr(items), slashes)|
    ensures buf != null ==>
              && Before(buf, at + written) == old(Before(buf, at)) + Text(Arr(items), slashes) && buf[at + written] == 0
    ensures buf != null ==> Untouched(buf, at + written)
    decreases items, 3
  {
    hide Text, Before, ItemsText, Progress, Separator;
    ghost var whole, pre := Text(Arr(items), slashes), Before(buf, at);
    ArrayStart(items, slashes, pre);
    written := Append(buf, at, [OPEN_BRACKET]);
    var i := 0;
    while i < |items|
      invariant i <= |items| && written <= |whole|
      invariant Progress(whole, written, ItemsText(items[i..], slashes) + [CLOSE_BRACKET])
      invariant buf != null ==> Before(buf, at + written) == pre + whole[..written] && Untouched(buf, at + |whole|)
    {
      ItemsNext(items, i, slashes);
      StepDone(whole, written, Text(items[i], slashes) + Separator(i == |items| - 1),
               ItemsText(items[i + 1..], slashes) + [CLOSE_BRACKET], pre);
      var n := SerializeItem(items[i], i == |items| - 1, slashes, buf, at + written);
      written := written + n;
      i := i + 1;
    }
    NoItems(slashes);
    assert items[i..] == [] && [] + [CLOSE_BRACKET] == [CLOSE_BRACKET] + [];
    StepDone(whole, written, [CLOSE_BRACKET], [], pre);
    AllDone(whole, written + 1);
    var n := Append(buf, at + written, [CLOSE_BRACKET]);
    written := written + n;
  }

  lemma ArrayStart(items: seq<Json>, slashes: bool, pre: Bytes)
    ensures Progress(Text(Arr(items), slashes), 1, ItemsText(items[0..], slashes) + [CLOSE_BRACKET])
    ensures pre + Text(Arr(items), slashes)[..1] == pre + [OPEN_BRACKET]
  {
    assert items[0..] == items;
    assert Text(Arr(items), slashes) == [OPEN_BRACKET] + (ItemsText(items, slashes) + [CLOSE_BRACKET]);
  }

  lemma ItemsNext(items: seq<Json>, i: nat, slashes: bool)
    requires i < |items|
    ensures ItemsText(items[i..], slashes) + [CLOSE_BRACKET] ==
            (Text(items[i], slashes) + Separator(i == |items| - 1)) +
            (ItemsText(items[i + 1..], slashes) + [CLOSE_BRACKET])
  {
    hide Text;
    assert items[i..][0] == items[i] && items[i..][1..] == items[i + 1..];
    if i == |items| - 1 { assert items[i + 1..] == []; }
  }

  /** One member and the comma after it. */
  method SerializeMember(m: Member, last: bool, slashes: bool, buf: array?<byte>, at: nat) returns (n: nat)
    requires buf != null ==> at + |MemberText(m, slashes)| + |Separator(last)| < buf.Length
    modifies buf
    ensures n == |MemberText(m, slashes)| + |Separator(last)|
    ensures buf != null ==> Before(buf, at + n) == old(Before(buf, at)) + (MemberText(m, slashes) + Separator(last))
    ensures buf != null ==> Untouched(buf, at + n)
    decreases m, 3
  {
    hide Before, Text, Quoted, Separator;
    ghost var pre := Before(buf, at);
    n := SerializeString(m.name, slashes, buf, at);
    var k := Append(buf, at + n, [COLON]);
    n := n + k;
    k := SerializeItem(m.value, last, slashes, buf, at + n);
    n := n + k;
    assert pre + Quoted(m.name, slashes) + [COLON] + (Text(m.value, slashes) + Separator(last)) ==
           pre + (MemberText(m, slashes) + Separator(last));
  }

  method SerializeObject(members: seq<Member>, slashes: bool, buf: array?<byte>, at: nat) returns (written: nat)
    requires buf != null ==> at + |Text(Obj(members), slashes)| < buf.Length
    modifies buf
    ensures written == |Text(Obj(members), slashes)|
    ensures buf != null ==>
              && Before(buf, at + written) == old(Before(buf, at)) + Text(Obj(members), slashes)
              && buf[at + written] == 0
    ensures buf != null ==> Untouched(buf, at + written)
    decreases members, 3
  {
    hide Text, Before, MembersText, Progress, Separator, MemberText;
    ghost var whole, pre := Text(Obj(members), slashes), Before(buf, at);
    ObjectStart(members, slashes, pre);
    written := Append(buf, at, [OPEN_BRACE]);
    var i := 0;
    while i < |members|
      invariant i <= |members| && written <= |whole|
      invariant Progress(whole, written, MembersText(members[i..], slashes) + [CLOSE_BRACE])
      invariant buf != null ==> Before(buf, at + written) == pre + whole[..written] && Untouched(buf, at + |whole|)
    {
      MembersNext(members, i, slashes);
      StepDone(whole, written, MemberText(members[i], slashes) + Separator(i == |members| - 1),
               MembersText(members[i + 1..], slashes) + [CLOSE_BRACE], pre);
      var n := SerializeMember(members[i], i == |members| - 1, slashes, buf, at + written);
      written := written + n;
      i := i + 1;
    }
    NoItems(slashes);
    assert members[i..] == [] && [] + [CLOSE_BRACE] == [CLOSE_BRACE] + [];
    StepDone(whole, written, [CLOSE_BRACE], [], pre);
    AllDone(whole, written + 1);
    var n := Append(buf, at + written, [CLOSE_BRACE]);
    written := written + n;
  }

  lemma ObjectStart(members: seq<Member>, slashes: bool, pre: Bytes)
    ensures Progress(Text(Obj(members), slashes), 1, MembersText(members[0..], slashes) + [CLOSE_BRACE])
    ensures pre + Text(Obj(members), slashes)[..1] == pre + [OPEN_BRACE]
  {
    assert members[0..] == members;
    assert Text(Obj(members), slashes) == [OPEN_BRACE] + (MembersText(members, slashes) + [CLOSE_BRACE]);
  }

  lemma MembersNext(members: seq<Member>, i: nat, slashes: bool)
    requires i < |members|
    ensures MembersText(members[i..], slashes) + [CLOSE_BRACE] ==
            (MemberText(members[i], slashes) + Separator(i == |members| - 1)) +
            (MembersText(members[i + 1..], slashes) + [CLOSE_BRACE])
  {
    hide MemberText;
    assert members[i..][0] == members[i] && members[i..][1..] == members[i + 1..];
    if i == |members| - 1 { assert members[i + 1..] == []; }
  }

  /** json_serialization_size and json_serialize_to_buffer: it succeeds exactly if the measured size
      fits, and then the buffer begins with the text and a zero. */
  method SerializeToBuffer(v: Json, slashes: bool, buf: array<byte>) returns (ok: bool)
    modifies buf
    ensures ok <==> |Text(v, slashes)| + 1 <= buf.Length
    ensures ok ==> buf[..|Text(v, slashes)| + 1] == Text(v, slashes) + [0]
    ensures ok ==> buf[|Text(v, slashes)| + 1..] == old(buf[|Text(v, slashes)| + 1..])
    ensures !ok ==> buf[..] == old(buf[..])
  {
    hide Text;
    var size := Serialize(v, slashes, null, 0);
    if buf.Length < size + 1 {
      return false;
    }
    var written := Serialize(v, slashes, buf, 0);
    assert buf[..written + 1] == buf[..written] + [buf[written]];
    ok := true;
  }

  /** SKIP_WHITESPACES */
  method SkipSpacesFrom(t: Bytes, i: nat) returns (j: nat)
    requires i <= |t|
    ensures j == SkipSpaces(t, i)
  {
    j := i;
    while IsSpace(Peek(t, j))
      invariant i <= j <= |t| && SkipSpaces(t, i) == SkipSpaces(t, j)
      decreases |t| - j
    {
      j := j + 1;
    }
  }

  /** skip_quotes */
  method SkipQuotes(t: Bytes, i: nat) returns (r: Option<nat>)
    requires i <= |t|
    ensures r == if Peek(t, i) != QUOTE then None else SkipQuoted(t, i + 1)
  {
    if Peek(t, i) != QUOTE {
      return None;
    }
    var j := i + 1;
    while Peek(t, j) != QUOTE
      invariant i < j <= |t| && SkipQuoted(t, i + 1) == SkipQuoted(t, j)
      decreases |t| - j
    {
      if Peek(t, j) == 0 {
        return None;
      } else if Peek(t, j) == BACKSLASH {
        if Peek(t, j + 1) == 0 {
          return None;
        }
        j := j + 1;
      }
      j := j + 1;
    }
    r := Some(j + 1);
  }

  /** process_string */
  method ProcessString(t: Bytes, from: nat, end: nat) returns (r: Option<Bytes>)
    ensures r == Process(t, from, end, [])
  {
    hide Utf16, Unescape;
    var i, out := from, [];
    while Peek(t, i) != 0 && i < end
      invariant Process(t, from, end, []) == Process(t, i, end, out)
      decreases end - i
    {
      if t[i] == BACKSLASH {
        if Peek(t, i + 1) == 117 {
          var u := Utf16(t, i + 1);
          if u.None? {
            return None;
          }
          i, out := u.value.1, out + u.value.0;
        } else {
          var c := Unescape(Peek(t, i + 1));
          if c.None? {
            return None;
          }
          i, out := i + 2, out + [c.value];
        }
      } else if t[i] < 32 {
        return None;
      } else {
        i, out := i + 1, out + [t[i]];
      }
    }
    r := Some(out);
  }

  /** get_quoted_string */
  method GetQuotedString(t: Bytes, i: nat) returns (r: Option<(Bytes, nat)>)
    requires i <= |t|
    ensures r == QuotedString(t, i)
  {
    hide Process, SkipQuoted;
    var j := SkipQuotes(t, i);
    if j.None? {
      return None;
    }
    var s := ProcessString(t, i + 1, j.value - 1);
    r := if s.None? then None else Some((s.value, j.value));
  }

  /** parse_value with parse_string_value, parse_boolean_value and parse_null_value. */
  method ParseValueAt(t: Bytes, at: nat, nesting: nat) returns (r: Option<(Json, nat)>)
    requires at <= |t|
    ensures r == ParseValue(t, at, nesting)
    decreases |t| - at, 1
  {
    hide SkipSpaces, QuotedString, ParseItems, ParseMembers;
    if nesting > MAX_NESTING {
      return None;
    }
    var i := SkipSpacesFrom(t, at);
    var c := Peek(t, i);
    if c == OPEN_BRACE || c == OPEN_BRACKET {
      var j := SkipSpacesFrom(t, i + 1);
      if c == OPEN_BRACE {
        if Peek(t, j) == CLOSE_BRACE {
          return Some((Obj([]), j + 1));
        }
        r := ParseObjectAt(t, j, nesting + 1);
      } else {
        if Peek(t, j) == CLOSE_BRACKET {
          return Some((Arr([]), j + 1));
        }
        r := ParseArrayAt(t, j, nesting + 1);
      }
    } else if c == QUOTE {
      var s := GetQuotedString(t, i);
      r := if s.None? then None else Some((Str(s.value.0), s.value.1));
    } else if c == 116 || c == 102 {
      if StartsWith(t, i, TRUE_TOKEN) {
        return Some((Bool(true), i + 4));
      } else if StartsWith(t, i, FALSE_TOKEN) {
        return Some((Bool(false), i + 5));
      }
      r := None;
    } else if c == 110 && StartsWith(t, i, NULL_TOKEN) {
      r := Some((Null, i + 4));
    } else {
      r := None;
    }
  }

  /** Behind an item or a member: a comma and spaces, if there are any. */
  method SkipComma(t: Bytes, at: nat) returns (i: nat, more: bool)
    requires at <= |t|
    ensures more == (Peek(t, SkipSpaces(t, at)) == COMMA)
    ensures i == if more then SkipSpaces(t, SkipSpaces(t, at) + 1) else SkipSpaces(t, at)
  {
    i := SkipSpacesFrom(t, at);
    more := Peek(t, i) == COMMA;
    if more {
      i := SkipSpacesFrom(t, i + 1);
    }
  }

  /** The loop of parse_array_value; a comma may come before the closing bracket. */
  method ParseArrayAt(t: Bytes, at: nat, nesting: nat) returns (r: Option<(Json, nat)>)
    requires at <= |t|
    ensures r == ParseItems(t, at, nesting, [])
    decreases |t| - at, 2
  {
    hide SkipSpaces, ParseValue;
    var i, items: seq<Json> := at, [];
    while Peek(t, i) != 0
      invariant at <= i <= |t| && ParseItems(t, at, nesting, []) == ParseItems(t, i, nesting, items)
      decreases |t| - i
    {
      var v := ParseValueAt(t, i, nesting);
      if v.None? {
        return None;
      }
      items := items + [v.value.0];
      var more;
      i, more := SkipComma(t, v.value.1);
      if Peek(t, i) == CLOSE_BRACKET {
        return Some((Arr(items), i + 1));
      }
      if !more {
        return None;
      }
    }
    r := None;
  }

  /** The part of parse_object_value that reads a name, a colon and a value. */
  method ParseMemberAt(t: Bytes, at: nat, nesting: nat) returns (r: Option<(Member, nat)>)
    requires at <= |t|
    ensures r == ParseMember(t, at, nesting)
    decreases |t| - at, 1
  {
    hide SkipSpaces, ParseValue, QuotedString;
    var name := GetQuotedString(t, at);
    if name.None? {
      return None;
    }
    var colon := SkipSpacesFrom(t, name.value.1);
    if 0 in name.value.0 || Peek(t, colon) != COLON {
      return None;
    }
    var v := ParseValueAt(t, colon + 1, nesting);
    r := if v.None? then None else Some((Member(name.value.0, v.value.0), v.value.1));
  }

  /** One round of the loop that reads members. */
  lemma MembersRound(t: Bytes, i: nat, nesting: nat, acc: seq<Member>)
    requires i <= |t|
    ensures ParseMembers(t, i, nesting, acc) ==
            if Peek(t, i) == 0 || ParseMember(t, i, nesting).None? then None
            else
              var (m, next) := ParseMember(t, i, nesting).value;
              var k := SkipSpaces(t, next);
              var more := Peek(t, k) == COMMA;
              var j := if more then SkipSpaces(t, k + 1) else k;
              if m.name in Names(acc) then None
              else if Peek(t, j) == CLOSE_BRACE then Some((Obj(acc + [m]), j + 1))
              else if more then ParseMembers(t, j, nesting, acc + [m])
              else None
  {
    hide ParseMember, SkipSpaces, Names;
  }

  datatype Round = Failed | Closed | More

  /** One round of the loop of parse_object_value; the table of the object refuses a name that
      repeats. */
  method ParseRound(t: Bytes, at: nat, nesting: nat, table: ObjectTable) returns (round: Round, i: nat)
    requires at <= |t| && Peek(t, at) != 0 && table.Valid()
    modifies table, table.Arrays()
    ensures table.Valid() && fresh(table.Arrays() - old(table.Arrays()))
    ensures at < i <= |t| + 1 && (round.More? ==> i <= |t|)
    ensures ParseMembers(t, at, nesting, old(table.Members())) ==
            match round
            case Failed => None
            case Closed => Some((Obj(table.Members()), i))
            case More => ParseMembers(t, i, nesting, table.Members())
    decreases |t| - at, 2
  {
    hide SkipSpaces, ParseMember, ParseMembers, Names, ObjectTable.Valid, ObjectTable.Members, Updated;
    MembersRound(t, at, nesting, table.Members());
    var m := ParseMemberAt(t, at, nesting);
    if m.None? {
      return Failed, at + 1;
    }
    var ok := table.Add(m.value.0.name, m.value.0.value);
    if !ok {
      return Failed, at + 1;
    }
    var more;
    i, more := SkipComma(t, m.value.1);
    if Peek(t, i) == CLOSE_BRACE {
      return Closed, i + 1;
    }
    round := if more then More else Failed;
  }

  /** The loop of parse_object_value. */
  method ParseObjectAt(t: Bytes, at: nat, nesting: nat) returns (r: Option<(Json, nat)>)
    requires at <= |t|
    ensures r == ParseMembers(t, at, nesting, [])
    decreases |t| - at, 3
  {
    hide ParseMembers, ObjectTable.Valid, ObjectTable.Members, ObjectTable.Now;
    var table := new ObjectTable(0);
    var i := at;
    while Peek(t, i) != 0
      invariant table.Valid() && fresh(table) && fresh(table.Arrays())
      invariant at <= i <= |t| && ParseMembers(t, at, nesting, []) == ParseMembers(t, i, nesting, table.Members())
      decreases |t| - i
    {
      var round;
      round, i := ParseRound(t, i, nesting, table);
      if round.Closed? {
        var members := table.Listing();
        return Some((Obj(members), i));
      }
      if round.Failed? {
        return None;
      }
    }
    MembersRound(t, i, nesting, table.Members());
    r := None;
  }

  /** json_parse_string: an initial byte order mark is skipped. */
  method ParseString(t: Bytes) returns (r: Option<Json>)
    ensures r == Parse(t)
  {
    hide ParseValue;
    var start := if Peek(t, 0) == 0xEF && Peek(t, 1) == 0xBB && Peek(t, 2) == 0xBF then 3 else 0;
    var v := ParseValueAt(t, start, 0);
    r := if v.None? then None else Some(v.value.0);
  }
}
