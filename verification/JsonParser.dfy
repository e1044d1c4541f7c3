/** A parser for canonical documents: the bytes alone give the document back. */
module JsonParser {
  import opened CodeUnits
  import opened Outcomes
  import opened Canonical
  import Utf8

  datatype Parsed<T> = Parsed(value: T, rest: Str)

  // ---- strings ------------------------------------------------------------------

  /** The value of a hexadecimal digit 0-9 or a-f. */
  function HexValue(u: Unit): Option<int> {
    if 0x30 <= u <= 0x39 then Some(u as int - 0x30)
    else if 0x61 <= u <= 0x66 then Some(u as int - 0x57)
    else None
  }

  /** The unit a two-character escape stands for, section 7 of RFC 8259. */
  function Unescape(u: Unit): Option<Unit> {
    if u == 0x22 || u == 0x5C || u == 0x2F then Some(u)
    else if u == 0x62 then Some(0x08)
    else if u == 0x66 then Some(0x0C)
    else if u == 0x6E then Some(0x0A)
    else if u == 0x72 then Some(0x0D)
    else if u == 0x74 then Some(0x09)
    else None
  }

  /** The unit four hexadecimal digits stand for. */
  function HexUnits(a: Unit, b: Unit, c: Unit, d: Unit): Option<Unit> {
    if HexValue(a).None? || HexValue(b).None? || HexValue(c).None? || HexValue(d).None? then None
    else
      var n := ((HexValue(a).value * 16 + HexValue(b).value) * 16 + HexValue(c).value) * 16 + HexValue(d).value;
      Some(n as Unit)
  }

  /** One unit of a string body: no control character stands for itself. */
  function ParseUnit(s: Str): (r: Option<Parsed<Unit>>)
    ensures r.Some? ==> |r.value.rest| < |s|
  {
    if s == [] then None
    else if s[0] != 0x5C then if s[0] < 0x20 then None else Some(Parsed(s[0], s[1..]))
    else if |s| < 2 then None
    else if s[1] != 0x75 then
      match Unescape(s[1])
      case None => None
      case Some(u) => Some(Parsed(u, s[2..]))
    else if |s| < 6 then None
    else
      match HexUnits(s[2], s[3], s[4], s[5])
      case None => None
      case Some(u) => Some(Parsed(u, s[6..]))
  }

  /** A string body up to and including its closing quote. */
  function ParseChars(s: Str): (r: Option<Parsed<Str>>)
    ensures r.Some? ==> |r.value.rest| < |s|
    decreases |s|
  {
    if s == [] then None
    else if s[0] == 0x22 then Some(Parsed([], s[1..]))
    else match ParseUnit(s)
      case None => None
      case Some(unit) =>
        match ParseChars(unit.rest)
        case None => None
        case Some(chars) => Some(Parsed([unit.value] + chars.value, chars.rest))
  }

  // ---- values -------------------------------------------------------------------

  predicate NumberUnit(u: Unit) {
    0x30 <= u <= 0x39 || u == 0x2B || u == 0x2D || u == 0x2E || u == 0x65
  }

  function ParseNumber(s: Str): (r: Parsed<Str>)
    ensures |r.rest| <= |s|
  {
    if s == [] || !NumberUnit(s[0]) then Parsed([], s)
    else var more := ParseNumber(s[1..]); Parsed([s[0]] + more.value, more.rest)
  }

  /** The next unit of `s` is `u`. */
  predicate At(s: Str, u: Unit) {
    s != [] && s[0] == u
  }

  function ParseWord(s: Str): (r: Option<Parsed<Json>>)
    ensures r.Some? ==> |r.value.rest| < |s|
  {
    if [0x6E, 0x75, 0x6C, 0x6C] <= s then Some(Parsed(JNull, s[4..]))
    else if [0x74, 0x72, 0x75, 0x65] <= s then Some(Parsed(JBool(true), s[4..]))
    else if [0x66, 0x61, 0x6C, 0x73, 0x65] <= s then Some(Parsed(JBool(false), s[5..]))
    else None
  }

  function ParseValue(s: Str): (r: Option<Parsed<Json>>)
    ensures r.Some? ==> |r.value.rest| < |s|
    decreases |s|, 0
  {
    if s == [] then None
    else if s[0] == 0x22 then
      match ParseChars(s[1..])
      case None => None
      case Some(chars) => Some(Parsed(JText(chars.value), chars.rest))
    else if s[0] == 0x5B then
      if At(s[1..], 0x5D) then Some(Parsed(JArray([]), s[2..]))
      else match ParseItems(s[1..])
        case None => None
        case Some(items) => Some(Parsed(JArray(items.value), items.rest))
    else if s[0] == 0x7B then
      if At(s[1..], 0x7D) then Some(Parsed(JObject([]), s[2..]))
      else match ParseMembers(s[1..])
        case None => None
        case Some(members) => Some(Parsed(JObject(members.value), members.rest))
    else if NumberUnit(s[0]) then Some(Parsed(JNumber(ParseNumber(s).value), ParseNumber(s).rest))
    else ParseWord(s)
  }

  /** One or more items and the closing bracket. */
  function ParseItems(s: Str): (r: Option<Parsed<seq<Json>>>)
    ensures r.Some? ==> |r.value.rest| < |s|
    decreases |s|, 1
  {
    match ParseValue(s)
    case None => None
    case Some(first) =>
      if At(first.rest, 0x5D) then Some(Parsed([first.value], first.rest[1..]))
      else if !At(first.rest, 0x2C) then None
      else match ParseItems(first.rest[1..])
        case None => None
        case Some(more) => Some(Parsed([first.value] + more.value, more.rest))
  }

  function ParseMember(s: Str): (r: Option<Parsed<Member>>)
    ensures r.Some? ==> |r.value.rest| < |s|
    decreases |s|, 1
  {
    if !At(s, 0x22) then None
    else match ParseChars(s[1..])
      case None => None
      case Some(key) =>
        if !At(key.rest, 0x3A) then None
        else match ParseValue(key.rest[1..])
          case None => None
          case Some(value) => Some(Parsed(Member(key.value, value.value), value.rest))
  }

  /** One or more members and the closing brace. */
  function ParseMembers(s: Str): (r: Option<Parsed<seq<Member>>>)
    ensures r.Some? ==> |r.value.rest| < |s|
    decreases |s|, 2
  {
    match ParseMember(s)
    case None => None
    case Some(first) =>
      if At(first.rest, 0x7D) then Some(Parsed([first.value], first.rest[1..]))
      else if !At(first.rest, 0x2C) then None
      else match ParseMembers(first.rest[1..])
        case None => None
        case Some(more) => Some(Parsed([first.value] + more.value, more.rest))
  }

  // ---- reading back what was printed ----------------------------------------------

  lemma {:induction false} EscapeReads(u: Unit, rest: Str)
    ensures EscapeUnit(u) != [] && EscapeUnit(u)[0] != QUOTE
    ensures ParseUnit(EscapeUnit(u) + rest) == Some(Parsed(u, rest))
  {
    var s := EscapeUnit(u) + rest;
    if u == 0x08 || u == 0x09 || u == 0x0A || u == 0x0C || u == 0x0D || u == QUOTE || u == BACKSLASH {
      assert s[2..] == rest;
    } else if u < 0x20 || 0xD800 <= u <= 0xDFFF {
      HexReads(u);
      UnicodeReads(UnicodeEscape(u), rest, u);
    } else {
      assert s[1..] == rest;
    }
  }

  lemma HexDigitReads(d: int)
    requires 0 <= d < 16
    ensures HexValue(HexUnit(d)) == Some(d)
  {
  }

  lemma FourDigits(n: int)
    requires 0 <= n < 0x1_0000
    ensures n == ((n / 0x1000 * 16 + n / 0x100 % 16) * 16 + n / 16 % 16) * 16 + n % 16
  {
  }

  lemma HexReads(u: Unit)
    ensures |UnicodeEscape(u)| == 6 && UnicodeEscape(u)[..2] == [BACKSLASH, 0x75]
    ensures var e := UnicodeEscape(u); HexUnits(e[2], e[3], e[4], e[5]) == Some(u)
  {
    var n := u as int;
    FourDigits(n);
    HexDigitReads(n / 0x1000);
    HexDigitReads(n / 0x100 % 16);
    HexDigitReads(n / 16 % 16);
    HexDigitReads(n % 16);
  }

  lemma UnicodeReads(e: Str, rest: Str, u: Unit)
    requires |e| == 6 && e[..2] == [BACKSLASH, 0x75] && HexUnits(e[2], e[3], e[4], e[5]) == Some(u)
    ensures e[0] != QUOTE && ParseUnit(e + rest) == Some(Parsed(u, rest))
  {
    assert e[0] == e[..2][0] && e[1] == e[..2][1];
    assert (e + rest)[6..] == rest;
  }

  lemma {:induction false} CharsStep(unit: Str, u: Unit, more: Str, chars: Str, rest: Str)
    requires unit != [] && unit[0] != QUOTE && ParseUnit(unit + more) == Some(Parsed(u, more))
    requires ParseChars(more) == Some(Parsed(chars, rest))
    ensures ParseChars(unit + more) == Some(Parsed([u] + chars, rest))
  {
  }

  lemma {:induction false} PairReads(high: Unit, low: Unit, more: Str, chars: Str, rest: Str)
    requires 0xD800 <= high <= 0xDFFF && 0xD800 <= low <= 0xDFFF
    requires ParseChars(more) == Some(Parsed(chars, rest))
    ensures ParseChars([high, low] + more) == Some(Parsed([high, low] + chars, rest))
  {
    PlainReads(low, more);
    CharsStep([low], low, more, chars, rest);
    PlainReads(high, [low] + more);
    CharsStep([high], high, [low] + more, [low] + chars, rest);
    assert [high, low] + more == [high] + ([low] + more);
    assert [high, low] + chars == [high] + ([low] + chars);
  }

  /** The text of a string body from unit `i` on. */
  function Body(text: Str, i: nat, rest: Str): Str
    requires i <= |text|
  {
    EscapeFrom(text, i) + [QUOTE] + rest
  }

  lemma {:induction false} BodyStep(text: Str, i: nat, rest: Str)
    requires i < |text|
    ensures Utf8.Paired(text, i) ==> Body(text, i, rest) == [text[i], text[i + 1]] + Body(text, i + 2, rest)
    ensures !Utf8.Paired(text, i) ==> Body(text, i, rest) == EscapeUnit(text[i]) + Body(text, i + 1, rest)
  {
    if Utf8.Paired(text, i) {
      CloseLater([text[i], text[i + 1]], EscapeFrom(text, i + 2), rest);
    } else {
      CloseLater(EscapeUnit(text[i]), EscapeFrom(text, i + 1), rest);
    }
  }

  lemma CloseLater(first: Str, more: Str, rest: Str)
    ensures (first + more) + [QUOTE] + rest == first + (more + [QUOTE] + rest)
  {
  }

  lemma {:induction false} BodyEnds(text: Str, rest: Str)
    ensures ParseChars(Body(text, |text|, rest)) == Some(Parsed([], rest))
  {
    assert Body(text, |text|, rest) == [QUOTE] + rest;
    assert ([QUOTE] + rest)[1..] == rest;
  }

  lemma {:induction false} UnitReadsBack(text: Str, i: nat, whole: Str, more: Str, rest: Str)
    requires i < |text| && whole == EscapeUnit(text[i]) + more
    requires ParseChars(more) == Some(Parsed(text[i + 1..], rest))
    ensures ParseChars(whole) == Some(Parsed(text[i..], rest))
  {
    EscapedStep(text[i], more, text[i + 1..], rest);
    assert text[i..] == [text[i]] + text[i + 1..];
  }

  lemma {:induction false} EscapedStep(u: Unit, more: Str, chars: Str, rest: Str)
    requires ParseChars(more) == Some(Parsed(chars, rest))
    ensures ParseChars(EscapeUnit(u) + more) == Some(Parsed([u] + chars, rest))
  {
    EscapeReads(u, more);
    CharsStep(EscapeUnit(u), u, more, chars, rest);
  }

  /** Escaping loses nothing, lone surrogates included. */
  lemma {:induction false} CharsReadBack(text: Str, i: nat, rest: Str)
    requires i <= |text|
    ensures ParseChars(Body(text, i, rest)) == Some(Parsed(text[i..], rest))
    decreases |text| - i
  {
    if i == |text| {
      BodyEnds(text, rest);
    } else {
      BodyStep(text, i, rest);
      if Utf8.Paired(text, i) {
        CharsReadBack(text, i + 2, rest);
        PairReads(text[i], text[i + 1], Body(text, i + 2, rest), text[i + 2..], rest);
        assert text[i..] == [text[i], text[i + 1]] + text[i + 2..];
      } else {
        CharsReadBack(text, i + 1, rest);
        UnitReadsBack(text, i, Body(text, i, rest), Body(text, i + 1, rest), rest);
      }
    }
  }

  lemma PlainReads(u: Unit, more: Str)
    requires 0xD800 <= u <= 0xDFFF
    ensures ParseUnit([u] + more) == Some(Parsed(u, more))
  {
    assert ([u] + more)[1..] == more;
  }

  /** What follows a document cannot be taken for more of its last number. */
  predicate Delimited(rest: Str) {
    rest == [] || !NumberUnit(rest[0])
  }

  predicate NumberText(text: Str) {
    text != [] && forall i :: 0 <= i < |text| ==> NumberUnit(text[i])
  }

  /** Every number of the document is written like a number. */
  predicate Numeric(j: Json) {
    match j
    case JNumber(text) => NumberText(text)
    case JArray(items) => forall i :: 0 <= i < |items| ==> Numeric(items[i])
    case JObject(members) => forall i :: 0 <= i < |members| ==> Numeric(members[i].value)
    case _ => true
  }

  lemma {:induction false} NumberStep(u: Unit, more: Str, text: Str, rest: Str)
    requires NumberUnit(u) && ParseNumber(more) == Parsed(text, rest)
    ensures ParseNumber([u] + more) == Parsed([u] + text, rest)
  {
    Peel(u, more);
  }

  lemma {:induction false} NumberReads(text: Str, rest: Str)
    requires Delimited(rest) && forall i :: 0 <= i < |text| ==> NumberUnit(text[i])
    ensures ParseNumber(text + rest) == Parsed(text, rest)
  {
    if text == [] {
      assert text + rest == rest;
    } else {
      NumberReads(text[1..], rest);
      NumberStep(text[0], text[1..] + rest, text[1..], rest);
      assert text == [text[0]] + text[1..] && text + rest == [text[0]] + (text[1..] + rest);
    }
  }

  lemma WordReads(rest: Str)
    ensures ParseValue(NULL_TEXT + rest) == Some(Parsed(JNull, rest))
    ensures ParseValue(TRUE_TEXT + rest) == Some(Parsed(JBool(true), rest))
    ensures ParseValue(FALSE_TEXT + rest) == Some(Parsed(JBool(false), rest))
  {
    assert (NULL_TEXT + rest)[4..] == rest && (TRUE_TEXT + rest)[4..] == rest && (FALSE_TEXT + rest)[5..] == rest;
  }

  lemma Peel(u: Unit, rest: Str)
    ensures At([u] + rest, u) && ([u] + rest)[1..] == rest
  {
  }

  lemma {:induction false} QuoteReads(text: Str, rest: Str)
    ensures At(Quote(text) + rest, QUOTE)
    ensures ParseChars((Quote(text) + rest)[1..]) == Some(Parsed(text, rest))
  {
    CharsReadBack(text, 0, rest);
    assert (Quote(text) + rest)[1..] == Body(text, 0, rest);
    assert text[0..] == text;
  }

  lemma PrintStarts(j: Json)
    requires Numeric(j)
    ensures Print(j) != [] && Print(j)[0] != 0x5D
  {
  }

  /** `text` closed by `close` and followed by `rest`. */
  function Closed(text: Str, close: Unit, rest: Str): Str {
    text + ([close] + rest)
  }

  lemma Regroup(a: Str, b: Str, c: Str, d: Str)
    ensures a + b + c + d == a + (b + (c + d))
  {
  }

  lemma JoinStep(parts: seq<Str>, close: Unit, rest: Str)
    requires |parts| > 1
    ensures Closed(Join(parts), close, rest) == parts[0] + ([COMMA] + Closed(Join(parts[1..]), close, rest))
  {
    Regroup(parts[0], [COMMA], Join(parts[1..]), [close] + rest);
  }

  lemma JoinStarts(parts: seq<Str>, close: Unit, rest: Str)
    requires parts != [] && parts[0] != []
    ensures At(Closed(Join(parts), close, rest), parts[0][0])
  {
    var text := Join(parts);
    assert text != [] && text[0] == parts[0][0];
    assert Closed(text, close, rest)[0] == text[0];
  }

  lemma {:induction false} ItemsStep(s: Str, j: Json, text: Str, items: seq<Json>, rest: Str)
    requires ParseValue(s) == Some(Parsed(j, [COMMA] + text))
    requires ParseItems(text) == Some(Parsed(items, rest))
    ensures ParseItems(s) == Some(Parsed([j] + items, rest))
  {
    Peel(COMMA, text);
  }

  lemma ItemsEnd(s: Str, j: Json, rest: Str)
    requires ParseValue(s) == Some(Parsed(j, [0x5D] + rest))
    ensures ParseItems(s) == Some(Parsed([j], rest))
  {
    Peel(0x5D, rest);
  }

  lemma PartsSplit(items: seq<Json>)
    requires items != []
    ensures Parts(items) == [Print(items[0])] + Parts(items[1..])
    ensures Numeric(JArray(items)) ==> Numeric(items[0]) && Numeric(JArray(items[1..]))
  {
  }

  lemma {:induction false} ItemsReadBack(items: seq<Json>, rest: Str)
    requires items != [] && Numeric(JArray(items))
    ensures ParseItems(Closed(Join(Parts(items)), 0x5D, rest)) == Some(Parsed(items, rest))
    decreases items
  {
    var s := Closed(Join(Parts(items)), 0x5D, rest);
    PartsSplit(items);
    if |items| == 1 {
      ReadsBack(items[0], [0x5D] + rest);
      ItemsEnd(s, items[0], rest);
      assert items == [items[0]];
    } else {
      ItemsReadBack(items[1..], rest);
      var text := Closed(Join(Parts(items[1..])), 0x5D, rest);
      JoinStep(Parts(items), 0x5D, rest);
      ReadsBack(items[0], [COMMA] + text);
      ItemsStep(s, items[0], text, items[1..], rest);
      assert items == [items[0]] + items[1..];
    }
  }

  lemma {:induction false} KeyedReads(s: Str, key: Str, value: Json, text: Str, rest: Str)
    requires At(s, QUOTE) && ParseChars(s[1..]) == Some(Parsed(key, [COLON] + text))
    requires ParseValue(text) == Some(Parsed(value, rest))
    ensures ParseMember(s) == Some(Parsed(Member(key, value), rest))
  {
    Peel(COLON, text);
  }

  lemma {:induction false} MemberReads(member: Member, rest: Str)
    requires ParseValue(Print(member.value) + rest) == Some(Parsed(member.value, rest))
    ensures ParseMember(PrintMember(member) + rest) == Some(Parsed(member, rest))
  {
    var text := Print(member.value) + rest;
    QuoteReads(member.key, [COLON] + text);
    Regroup(Quote(member.key), [COLON], Print(member.value), rest);
    KeyedReads(Quote(member.key) + ([COLON] + text), member.key, member.value, text, rest);
  }

  lemma {:induction false} MembersStep(s: Str, m: Member, text: Str, members: seq<Member>, rest: Str)
    requires ParseMember(s) == Some(Parsed(m, [COMMA] + text))
    requires ParseMembers(text) == Some(Parsed(members, rest))
    ensures ParseMembers(s) == Some(Parsed([m] + members, rest))
  {
    Peel(COMMA, text);
  }

  lemma MembersEnd(s: Str, m: Member, rest: Str)
    requires ParseMember(s) == Some(Parsed(m, [0x7D] + rest))
    ensures ParseMembers(s) == Some(Parsed([m], rest))
  {
    Peel(0x7D, rest);
  }

  lemma MemberPartsSplit(members: seq<Member>)
    requires members != []
    ensures MemberParts(members) == [PrintMember(members[0])] + MemberParts(members[1..])
    ensures Numeric(JObject(members)) ==> Numeric(members[0].value) && Numeric(JObject(members[1..]))
  {
  }

  lemma {:induction false} MembersOpen(members: seq<Member>, rest: Str)
    requires |members| > 1
    ensures Closed(Join(MemberParts(members)), 0x7D, rest)
         == PrintMember(members[0]) + ([COMMA] + Closed(Join(MemberParts(members[1..])), 0x7D, rest))
  {
    MemberPartsSplit(members);
    assert MemberParts(members)[1..] == MemberParts(members[1..]);
    JoinStep(MemberParts(members), 0x7D, rest);
  }

  lemma {:induction false} MembersMore(members: seq<Member>, first: Str, text: Str, rest: Str)
    requires |members| > 1 && first == PrintMember(members[0])
    requires text == Closed(Join(MemberParts(members[1..])), 0x7D, rest)
    requires ParseMember(first + ([COMMA] + text)) == Some(Parsed(members[0], [COMMA] + text))
    requires ParseMembers(text) == Some(Parsed(members[1..], rest))
    ensures ParseMembers(Closed(Join(MemberParts(members)), 0x7D, rest)) == Some(Parsed(members, rest))
  {
    MembersOpen(members, rest);
    MembersStep(first + ([COMMA] + text), members[0], text, members[1..], rest);
    assert members == [members[0]] + members[1..];
  }

  lemma {:induction false} MembersReadBack(members: seq<Member>, rest: Str)
    requires members != [] && Numeric(JObject(members))
    ensures ParseMembers(Closed(Join(MemberParts(members)), 0x7D, rest)) == Some(Parsed(members, rest))
    decreases members
  {
    MemberPartsSplit(members);
    if |members| == 1 {
      ReadsBack(members[0].value, [0x7D] + rest);
      MemberReads(members[0], [0x7D] + rest);
      MembersEnd(PrintMember(members[0]) + ([0x7D] + rest), members[0], rest);
      assert members == [members[0]];
    } else {
      MembersReadBack(members[1..], rest);
      var text := Closed(Join(MemberParts(members[1..])), 0x7D, rest);
      ReadsBack(members[0].value, [COMMA] + text);
      MemberReads(members[0], [COMMA] + text);
      MembersMore(members, PrintMember(members[0]), text, rest);
    }
  }

  lemma Wrapped(open: Unit, text: Str, close: Unit, rest: Str)
    ensures [open] + text + [close] + rest == [open] + Closed(text, close, rest)
    ensures ([open] + Closed(text, close, rest))[1..] == Closed(text, close, rest)
    ensures text == [] ==> At(Closed(text, close, rest), close) && ([open] + Closed(text, close, rest))[2..] == rest
  {
  }

  lemma {:induction false} ArrayReads(items: seq<Json>, rest: Str)
    requires items != [] ==> ParseItems(Closed(Join(Parts(items)), 0x5D, rest)) == Some(Parsed(items, rest))
    requires Numeric(JArray(items))
    ensures ParseValue(Print(JArray(items)) + rest) == Some(Parsed(JArray(items), rest))
  {
    Wrapped(0x5B, Join(Parts(items)), 0x5D, rest);
    if items != [] {
      PrintStarts(items[0]);
      JoinStarts(Parts(items), 0x5D, rest);
    }
  }

  lemma MemberStarts(member: Member)
    ensures At(PrintMember(member), QUOTE)
  {
  }

  lemma {:induction false} ObjectReads(members: seq<Member>, rest: Str)
    requires members != [] ==> ParseMembers(Closed(Join(MemberParts(members)), 0x7D, rest)) == Some(Parsed(members, rest))
    ensures ParseValue(Print(JObject(members)) + rest) == Some(Parsed(JObject(members), rest))
  {
    Wrapped(0x7B, Join(MemberParts(members)), 0x7D, rest);
    if members != [] {
      MemberStarts(members[0]);
      JoinStarts(MemberParts(members), 0x7D, rest);
    }
  }

  lemma NumberValueReads(text: Str, rest: Str)
    requires NumberText(text) && Delimited(rest)
    ensures ParseValue(text + rest) == Some(Parsed(JNumber(text), rest))
  {
    assert (text + rest)[0] == text[0];
    NumberReads(text, rest);
  }

  lemma TextReads(text: Str, rest: Str)
    ensures ParseValue(Quote(text) + rest) == Some(Parsed(JText(text), rest))
  {
    QuoteReads(text, rest);
  }

  /** The parser recovers every document from its bytes, whatever delimited text follows. */
  lemma {:induction false} ReadsBack(j: Json, rest: Str)
    requires Numeric(j) && Delimited(rest)
    ensures ParseValue(Print(j) + rest) == Some(Parsed(j, rest))
    decreases j
  {
    match j
    case JNull => WordReads(rest);
    case JBool(b) => WordReads(rest);
    case JNumber(text) => NumberValueReads(text, rest);
    case JText(text) => TextReads(text, rest);
    case JArray(items) =>
      if items != [] { ItemsReadBack(items, rest); }
      ArrayReads(items, rest);
    case JObject(members) =>
      if members != [] { MembersReadBack(members, rest); }
      ObjectReads(members, rest);
  }

  /** Different documents never share their bytes. */
  lemma PrintIsInjective(a: Json, b: Json)
    requires Numeric(a) && Numeric(b)
    ensures Print(a) == Print(b) <==> a == b
  {
    ReadsBack(a, []);
    ReadsBack(b, []);
    assert Print(a) + [] == Print(a) && Print(b) + [] == Print(b);
  }
}
