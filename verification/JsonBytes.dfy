/**
 * Which bytes canonical JSON prints: of all well-formed texts that read back as the document a
 * value denotes, the shortest one, and the only one that short.
 */
module JsonBytes {
  import opened Canonical
  import opened CodeUnits
  import opened JsonParser
  import opened JsonTheorems
  import opened Outcomes
  import Sorting
  import Utf8

  // ---- shortest texts -----------------------------------------------------------------------------

  /**
   * What was read off the front of `s`, leaving `rest`, is no shorter than `text`, and is `text` if it
   * is as short; and what is left has no lone surrogate.
   */
  predicate Shortest(s: Str, rest: Str, text: Str) {
    && |rest| <= |s| && s[|s| - |rest|..] == rest
    && |text| <= |s| - |rest|
    && (|text| == |s| - |rest| ==> s == text + rest)
    && Utf8.WellFormed(rest)
  }

  lemma SuffixOfSuffix(s: Str, middle: Str, rest: Str)
    requires |rest| <= |middle| <= |s| && s[|s| - |middle|..] == middle && middle[|middle| - |rest|..] == rest
    ensures s[|s| - |rest|..] == rest
  {
    var cut := |s| - |middle|;
    assert s[cut..][|middle| - |rest|..] == s[cut + (|middle| - |rest|)..];
  }

  lemma Grouping(a: Str, b: Str, c: Str)
    ensures a + b + c == a + (b + c)
  {
  }

  lemma ShortestJoins(s: Str, middle: Str, rest: Str, first: Str, second: Str)
    requires Shortest(s, middle, first) && Shortest(middle, rest, second)
    ensures Shortest(s, rest, first + second)
  {
    SuffixOfSuffix(s, middle, rest);
    Grouping(first, second, rest);
  }

  /** After a unit that opens no pair the text goes on well-formed. */
  lemma RestIsWellFormed(s: Str, k: nat)
    requires Utf8.WellFormed(s) && 0 < k <= |s| && !Utf8.High(s[k - 1])
    ensures Utf8.WellFormed(s[k..])
  {
    var r := s[k..];
    forall i | 0 <= i < |r| ensures Utf8.High(r[i]) ==> i + 1 < |r| && Utf8.Low(r[i + 1]) {
      assert r[i] == s[k + i];
      if Utf8.High(s[k + i]) { assert r[i + 1] == s[k + i + 1]; }
    }
    forall i | 0 <= i < |r| ensures Utf8.Low(r[i]) ==> 0 < i && Utf8.High(r[i - 1]) {
      assert r[i] == s[k + i];
      if Utf8.Low(s[k + i]) { assert Utf8.High(s[k + i - 1]); }
    }
  }

  lemma OneUnitIsShortest(s: Str)
    requires Utf8.WellFormed(s) && s != [] && !Utf8.High(s[0])
    ensures Shortest(s, s[1..], [s[0]])
  {
    RestIsWellFormed(s, 1);
    assert s == [s[0]] + s[1..];
  }

  // ---- string bodies ---------------------------------------------------------------------------------

  lemma DigitIsUnique(u: Unit, d: int)
    requires HexValue(u) == Some(d)
    ensures 0 <= d < 16 && HexUnit(d) == u
  {
  }

  lemma FourPlaces(a: int, b: int, c: int, d: int, n: int)
    requires 0 <= a < 16 && 0 <= b < 16 && 0 <= c < 16 && 0 <= d < 16
    requires n == ((a * 16 + b) * 16 + c) * 16 + d
    ensures n / 0x1000 == a && n / 0x100 % 16 == b && n / 16 % 16 == c && n % 16 == d
  {
  }

  /** Only one escape with lower-case digits stands for a unit. */
  lemma EscapeIsUnique(a: Unit, b: Unit, c: Unit, d: Unit, u: Unit)
    requires HexUnits(a, b, c, d) == Some(u)
    ensures UnicodeEscape(u) == [0x5C, 0x75, a, b, c, d]
  {
    DigitIsUnique(a, HexValue(a).value);
    DigitIsUnique(b, HexValue(b).value);
    DigitIsUnique(c, HexValue(c).value);
    DigitIsUnique(d, HexValue(d).value);
    FourPlaces(HexValue(a).value, HexValue(b).value, HexValue(c).value, HexValue(d).value, u as int);
  }

  lemma LongEscapeIsShortest(s: Str, u: Unit)
    requires |s| >= 6 && s[0] == 0x5C && s[1] == 0x75 && HexUnits(s[2], s[3], s[4], s[5]) == Some(u)
    requires Utf8.WellFormed(s)
    ensures Shortest(s, s[6..], EscapeUnit(u))
  {
    EscapeIsUnique(s[2], s[3], s[4], s[5], u);
    DigitIsUnique(s[5], HexValue(s[5]).value);
    RestIsWellFormed(s, 6);
    assert s == [0x5C, 0x75, s[2], s[3], s[4], s[5]] + s[6..];
  }

  lemma ShortEscapeIsShortest(s: Str, u: Unit)
    requires |s| >= 2 && s[0] == 0x5C && Unescape(s[1]) == Some(u) && Utf8.WellFormed(s)
    ensures Shortest(s, s[2..], EscapeUnit(u))
  {
    RestIsWellFormed(s, 2);
    assert s == [0x5C, s[1]] + s[2..];
  }

  /** A unit written outside a pair takes at least as long as the printer's way. */
  lemma UnitIsShortest(s: Str, u: Unit, rest: Str)
    requires Utf8.WellFormed(s) && s != [] && s[0] != 0x22 && !Utf8.High(s[0])
    requires ParseUnit(s) == Some(Parsed(u, rest))
    ensures Shortest(s, rest, EscapeUnit(u))
  {
    if s[0] != 0x5C {
      OneUnitIsShortest(s);
    } else if s[1] != 0x75 {
      ShortEscapeIsShortest(s, u);
    } else {
      LongEscapeIsShortest(s, u);
    }
  }

  lemma {:induction false} EscapeShifts(front: Str, text: Str, i: nat)
    requires i <= |text|
    ensures EscapeFrom(front + text, |front| + i) == EscapeFrom(text, i)
    decreases |text| - i
  {
    if i < |text| {
      assert (front + text)[|front| + i] == text[i];
      assert i + 1 < |text| ==> (front + text)[|front| + i + 1] == text[i + 1];
      EscapeShifts(front, text, if Utf8.Paired(text, i) then i + 2 else i + 1);
    }
  }

  /** A surrogate pair is two units that stand for themselves. */
  lemma PairIsShortest(s: Str)
    requires Utf8.WellFormed(s) && s != [] && Utf8.High(s[0])
    ensures |s| >= 2 && Utf8.Low(s[1]) && Shortest(s, s[2..], [s[0], s[1]])
  {
    RestIsWellFormed(s, 2);
    assert s == [s[0], s[1]] + s[2..];
  }

  lemma {:induction false} UnitThenChars(s: Str, chars: Str, rest: Str)
    requires s != [] && s[0] != 0x22 && ParseChars(s) == Some(Parsed(chars, rest))
    ensures ParseUnit(s).Some? && ParseChars(ParseUnit(s).value.rest).Some?
    ensures chars == [ParseUnit(s).value.value] + ParseChars(ParseUnit(s).value.rest).value.value
    ensures rest == ParseChars(ParseUnit(s).value.rest).value.rest
  {
  }

  /** Two escapes for the halves of a pair are longer than the pair. */
  lemma SplitPairIsLonger(s: Str, u: Unit, middle: Str, chars: Str, rest: Str)
    requires Utf8.High(u) && chars != [] && Utf8.Low(chars[0])
    requires Shortest(s, middle, EscapeUnit(u)) && Shortest(middle, rest, EscapeFrom(chars, 0) + [0x22])
    ensures Shortest(s, rest, EscapeFrom([u] + chars, 0) + [0x22])
  {
    EscapeShifts([u], chars, 1);
    assert ([u] + chars)[0] == u && ([u] + chars)[1] == chars[0];
    assert EscapeFrom([u] + chars, 0) == [u, chars[0]] + EscapeFrom(chars, 1);
    assert EscapeFrom(chars, 0) == EscapeUnit(chars[0]) + EscapeFrom(chars, 1);
    assert |EscapeUnit(chars[0])| == 6 && |EscapeUnit(u)| == 6;
    assert s[|s| - |rest|..] == middle[|middle| - |rest|..];
  }

  lemma PairJoins(s: Str, more: Str, rest: Str)
    requires Utf8.WellFormed(s) && s != [] && Utf8.High(s[0])
    requires |s| >= 2 && Shortest(s[2..], rest, EscapeFrom(more, 0) + [0x22])
    ensures Utf8.Low(s[1]) && Shortest(s, rest, EscapeFrom([s[0]] + ([s[1]] + more), 0) + [0x22])
  {
    PairIsShortest(s);
    EscapeShifts([s[0], s[1]], more, 0);
    ShortestJoins(s, s[2..], rest, [s[0], s[1]], EscapeFrom(more, 0) + [0x22]);
    assert [s[0]] + ([s[1]] + more) == [s[0], s[1]] + more;
    assert EscapeFrom([s[0], s[1]] + more, 0) + [0x22] == [s[0], s[1]] + (EscapeFrom(more, 0) + [0x22]);
  }

  lemma UnitJoins(s: Str, u: Unit, middle: Str, more: Str, rest: Str)
    requires Shortest(s, middle, EscapeUnit(u)) && Shortest(middle, rest, EscapeFrom(more, 0) + [0x22])
    ensures Shortest(s, rest, EscapeFrom([u] + more, 0) + [0x22])
  {
    if Utf8.Paired([u] + more, 0) {
      SplitPairIsLonger(s, u, middle, more, rest);
    } else {
      EscapeShifts([u], more, 0);
      ShortestJoins(s, middle, rest, EscapeUnit(u), EscapeFrom(more, 0) + [0x22]);
      assert EscapeFrom([u] + more, 0) + [0x22] == EscapeUnit(u) + (EscapeFrom(more, 0) + [0x22]);
    }
  }

  lemma SurrogateReads(s: Str)
    requires s != [] && 0xD800 <= s[0] <= 0xDFFF
    ensures s[0] != 0x22 && ParseUnit(s) == Some(Parsed(s[0], s[1..]))
  {
  }

  /** Of all well-formed ways to write a string body the printer's is the shortest, and the only one that short. */
  lemma {:induction false} BodyIsShortest(s: Str, chars: Str, rest: Str)
    requires Utf8.WellFormed(s) && ParseChars(s) == Some(Parsed(chars, rest))
    ensures Shortest(s, rest, EscapeFrom(chars, 0) + [0x22])
    decreases |s|
  {
    if s[0] == 0x22 {
      OneUnitIsShortest(s);
      assert EscapeFrom(chars, 0) == [];
    } else {
      UnitThenChars(s, chars, rest);
      var u, middle := ParseUnit(s).value.value, ParseUnit(s).value.rest;
      var more := ParseChars(middle).value.value;
      if Utf8.High(s[0]) {
        PairIsShortest(s);
        SurrogateReads(s);
        SurrogateReads(middle);
        UnitThenChars(middle, more, rest);
        var others := ParseChars(s[2..]).value.value;
        BodyIsShortest(s[2..], others, rest);
        PairJoins(s, others, rest);
      } else {
        UnitIsShortest(s, u, middle);
        BodyIsShortest(middle, more, rest);
        UnitJoins(s, u, middle, more, rest);
      }
    }
  }

  // ---- documents -----------------------------------------------------------------------------------

  lemma {:induction false} NumberSplits(s: Str)
    ensures s == ParseNumber(s).value + ParseNumber(s).rest
    ensures forall i :: 0 <= i < |ParseNumber(s).value| ==> NumberUnit(ParseNumber(s).value[i])
  {
    if s != [] && NumberUnit(s[0]) {
      var more := ParseNumber(s[1..]);
      NumberSplits(s[1..]);
      assert s == [s[0]] + s[1..];
      assert ParseNumber(s) == Parsed([s[0]] + more.value, more.rest);
      Grouping([s[0]], more.value, more.rest);
    }
  }

  lemma NumberIsShortest(s: Str)
    requires Utf8.WellFormed(s) && s != [] && NumberUnit(s[0])
    ensures Shortest(s, ParseNumber(s).rest, ParseNumber(s).value)
  {
    NumberSplits(s);
    var text := ParseNumber(s).value;
    assert NumberUnit(text[|text| - 1]) && s[|text| - 1] == text[|text| - 1];
    RestIsWellFormed(s, |text|);
    assert s[|text|..] == ParseNumber(s).rest;
  }

  lemma PrefixIsShortest(s: Str, text: Str)
    requires Utf8.WellFormed(s) && text != [] && text <= s && !Utf8.High(text[|text| - 1])
    ensures Shortest(s, s[|text|..], text)
  {
    RestIsWellFormed(s, |text|);
  }

  lemma WordIsShortest(s: Str, j: Json, rest: Str)
    requires Utf8.WellFormed(s) && ParseWord(s) == Some(Parsed(j, rest))
    ensures Shortest(s, rest, Print(j))
  {
    if NULL_TEXT <= s {
      PrefixIsShortest(s, NULL_TEXT);
    } else if TRUE_TEXT <= s {
      PrefixIsShortest(s, TRUE_TEXT);
    } else {
      PrefixIsShortest(s, FALSE_TEXT);
    }
  }

  /** Something wrapped in an opening unit. */
  lemma OpenIsShortest(s: Str, rest: Str, text: Str)
    requires Utf8.WellFormed(s) && s != [] && !Utf8.High(s[0]) && Shortest(s[1..], rest, text)
    ensures Shortest(s, rest, [s[0]] + text)
  {
    OneUnitIsShortest(s);
    ShortestJoins(s, s[1..], rest, [s[0]], text);
  }

  lemma OpenedRest(s: Str)
    requires Utf8.WellFormed(s) && s != [] && !Utf8.High(s[0])
    ensures Utf8.WellFormed(s[1..])
  {
    RestIsWellFormed(s, 1);
  }

  lemma {:induction false} TextIsShortest(s: Str, chars: Str, rest: Str)
    requires Utf8.WellFormed(s) && s != [] && s[0] == 0x22 && ParseChars(s[1..]) == Some(Parsed(chars, rest))
    ensures Shortest(s, rest, Quote(chars))
  {
    OpenedRest(s);
    BodyIsShortest(s[1..], chars, rest);
    OpenIsShortest(s, rest, EscapeFrom(chars, 0) + [0x22]);
    Grouping([0x22], EscapeFrom(chars, 0), [0x22]);
  }

  lemma EmptyIsShortest(s: Str, open: Unit, close: Unit)
    requires Utf8.WellFormed(s) && |s| >= 2 && s[0] == open && s[1] == close && open < 0x80 && close < 0x80
    ensures Shortest(s, s[2..], [open] + [] + [close])
  {
    PrefixIsShortest(s, [open, close]);
    assert [open] + [] + [close] == [open, close];
  }

  lemma WrappedIsShortest(s: Str, rest: Str, body: Str, close: Unit)
    requires Utf8.WellFormed(s) && s != [] && !Utf8.High(s[0]) && Shortest(s[1..], rest, body + [close])
    ensures Shortest(s, rest, [s[0]] + body + [close])
  {
    OpenIsShortest(s, rest, body + [close]);
    Grouping([s[0]], body, [close]);
  }

  /** One more part in front of a comma. */
  lemma PartJoins(s: Str, middle: Str, rest: Str, part: Str, parts: seq<Str>, close: Unit)
    requires Shortest(s, middle, part) && middle != [] && middle[0] == 0x2C && parts != []
    requires Shortest(middle[1..], rest, Join(parts) + [close])
    ensures Shortest(s, rest, Join([part] + parts) + [close])
  {
    OpenIsShortest(middle, rest, Join(parts) + [close]);
    ShortestJoins(s, middle, rest, part, [0x2C] + (Join(parts) + [close]));
    assert ([part] + parts)[1..] == parts;
    assert part + ([0x2C] + (Join(parts) + [close])) == part + [0x2C] + Join(parts) + [close];
  }

  lemma LastPart(s: Str, middle: Str, part: Str, close: Unit)
    requires Shortest(s, middle, part) && middle != [] && middle[0] == close && close < 0x80
    ensures Shortest(s, middle[1..], Join([part]) + [close])
  {
    OneUnitIsShortest(middle);
    ShortestJoins(s, middle, middle[1..], part, [close]);
  }

  lemma CommaRest(s: Str, middle: Str, part: Str)
    requires Shortest(s, middle, part) && middle != [] && middle[0] < 0x80
    ensures Utf8.WellFormed(middle) && Utf8.WellFormed(middle[1..])
  {
    OpenedRest(middle);
  }

  lemma {:induction false} ItemsAreShortest(s: Str, items: seq<Json>, rest: Str)
    requires Utf8.WellFormed(s) && ParseItems(s) == Some(Parsed(items, rest))
    ensures items != [] && Shortest(s, rest, Join(Parts(items)) + [0x5D])
    decreases |s|, 1
  {
    var first := ParseValue(s).value;
    ValueIsShortest(s, first.value, first.rest);
    CommaRest(s, first.rest, Print(first.value));
    if At(first.rest, 0x5D) {
      LastPart(s, first.rest, Print(first.value), 0x5D);
      assert Parts(items) == [Print(first.value)];
    } else {
      var more := ParseItems(first.rest[1..]).value;
      ItemsAreShortest(first.rest[1..], more.value, more.rest);
      PartJoins(s, first.rest, rest, Print(first.value), Parts(more.value), 0x5D);
      PartsSplit(items);
      assert items[1..] == more.value;
    }
  }

  lemma {:induction false} MemberIsShortest(s: Str, member: Member, rest: Str)
    requires Utf8.WellFormed(s) && ParseMember(s) == Some(Parsed(member, rest))
    ensures Shortest(s, rest, PrintMember(member))
    decreases |s|, 1
  {
    var key := ParseChars(s[1..]).value;
    TextIsShortest(s, key.value, key.rest);
    CommaRest(s, key.rest, Quote(key.value));
    ValueIsShortest(key.rest[1..], member.value, rest);
    OpenIsShortest(key.rest, rest, Print(member.value));
    ShortestJoins(s, key.rest, rest, Quote(key.value), [0x3A] + Print(member.value));
    Grouping(Quote(key.value), [0x3A], Print(member.value));
  }

  lemma {:induction false} MembersAreShortest(s: Str, members: seq<Member>, rest: Str)
    requires Utf8.WellFormed(s) && ParseMembers(s) == Some(Parsed(members, rest))
    ensures members != [] && Shortest(s, rest, Join(MemberParts(members)) + [0x7D])
    decreases |s|, 2
  {
    var first := ParseMember(s).value;
    MemberIsShortest(s, first.value, first.rest);
    CommaRest(s, first.rest, PrintMember(first.value));
    if At(first.rest, 0x7D) {
      LastPart(s, first.rest, PrintMember(first.value), 0x7D);
      assert MemberParts(members) == [PrintMember(first.value)];
    } else {
      var more := ParseMembers(first.rest[1..]).value;
      MembersAreShortest(first.rest[1..], more.value, more.rest);
      PartJoins(s, first.rest, rest, PrintMember(first.value), MemberParts(more.value), 0x7D);
      MemberPartsSplit(members);
      assert members[1..] == more.value;
    }
  }

  /** Of all well-formed texts of a document the printed one is the shortest, and the only one that short. */
  lemma {:induction false} ValueIsShortest(s: Str, j: Json, rest: Str)
    requires Utf8.WellFormed(s) && ParseValue(s) == Some(Parsed(j, rest))
    ensures Shortest(s, rest, Print(j))
    decreases |s|, 0
  {
    if s[0] == 0x22 {
      TextIsShortest(s, j.text, rest);
    } else if s[0] == 0x5B {
      OpenedRest(s);
      if At(s[1..], 0x5D) {
        EmptyIsShortest(s, 0x5B, 0x5D);
      } else {
        ItemsAreShortest(s[1..], j.items, rest);
        WrappedIsShortest(s, rest, Join(Parts(j.items)), 0x5D);
      }
    } else if s[0] == 0x7B {
      OpenedRest(s);
      if At(s[1..], 0x7D) {
        EmptyIsShortest(s, 0x7B, 0x7D);
      } else {
        MembersAreShortest(s[1..], j.members, rest);
        WrappedIsShortest(s, rest, Join(MemberParts(j.members)), 0x7D);
      }
    } else if NumberUnit(s[0]) {
      NumberIsShortest(s);
    } else {
      WordIsShortest(s, j, rest);
    }
  }

  // ---- the document a value denotes ----------------------------------------------------------------

  /**
   * The document a value stands for, said without the printer: zero for negative zero, null for a
   * number that is not finite, and for an object its defined fields other than `excerpt`, each of
   * them once, by key. Undefined and unsupported values stand for nothing.
   */
  ghost predicate Denotes(v: Js, j: Json)
    decreases v
  {
    match v
    case Null => j == JNull
    case Bool(b) => j == JBool(b)
    case Number(Finite(text)) => j == JNumber(text)
    case Number(NegativeZero) => j == JNumber([0x30])
    case Number(NotFinite) => j == JNull
    case Text(text) => j == JText(text)
    case Array(items) =>
      j.JArray? && |items| == |j.items| && forall i :: 0 <= i < |items| ==> Denotes(items[i], j.items[i])
    case Object(fields) =>
      && j.JObject?
      && (forall a, b :: 0 <= a < b < |j.members| ==> Less(j.members[a].key, j.members[b].key))
      && (forall a :: 0 <= a < |j.members| ==> FromField(fields, j.members[a]))
      && (forall k :: 0 <= k < |fields| ==>
            || fields[k].key == [0x65, 0x78, 0x63, 0x65, 0x72, 0x70, 0x74]
            || fields[k].value == Undefined
            || ToMember(fields[k], j.members))
    case Undefined => false
    case Unsupported => false
  }

  ghost predicate FromField(fields: seq<Field>, m: Member)
    decreases fields
  {
    exists k :: 0 <= k < |fields| && Becomes(fields[k], m)
  }

  ghost predicate ToMember(f: Field, members: seq<Member>)
    decreases f, 1
  {
    exists a :: 0 <= a < |members| && Becomes(f, members[a])
  }

  ghost predicate Becomes(f: Field, m: Member)
    decreases f, 0
  {
    f.key == m.key && f.key != [0x65, 0x78, 0x63, 0x65, 0x72, 0x70, 0x74] && Denotes(f.value, m.value)
  }

  lemma NothingDenoted(f: Field, m: Member)
    requires Becomes(f, m)
    ensures Kept(f)
  {
  }

  /** The member a kept field prints as. */
  function MemberOf(f: Field): Member
    requires Printable(f.value)
  {
    Member(f.key, Strip(f.value))
  }

  predicate MemberBefore(a: Member, b: Member) {
    Less(a.key, b.key)
  }

  lemma MembersSort()
    ensures Sorting.StrictWeak(MemberBefore)
  {
    LessSorts();
    forall a, b, c | !MemberBefore(a, b) && !MemberBefore(b, c) ensures !MemberBefore(a, c) {
      assert !Less(a.key, b.key) && !Less(b.key, c.key);
    }
  }

  lemma StripUnfolds(v: Js)
    requires v.Object? && Printable(v)
    ensures FieldsPrintable(Ordered(v.fields)) && Strip(v) == JObject(StripFields(v, Ordered(v.fields)))
  {
    OrderedPrintable(v.fields);
  }

  lemma StrippedField(v: Js, fields: seq<Field>, a: nat)
    requires v.Object? && FieldsPrintable(fields) && (forall f :: f in fields ==> f in v.fields) && a < |fields|
    ensures |StripFields(v, fields)| == |fields| && StripFields(v, fields)[a] == MemberOf(fields[a])
  {
  }

  lemma StrippedLength(v: Js, fields: seq<Field>)
    requires v.Object? && FieldsPrintable(fields) && (forall f :: f in fields ==> f in v.fields)
    ensures |StripFields(v, fields)| == |fields|
  {
  }

  /** The member comes from a kept field. */
  ghost predicate Stripped(v: Js, m: Member)
    requires v.Object? && Printable(v)
  {
    exists k :: 0 <= k < |v.fields| && Kept(v.fields[k]) && MemberOf(v.fields[k]) == m
  }

  lemma StrippedComeFromFields(v: Js, a: nat)
    requires v.Object? && Printable(v) && FieldsPrintable(Ordered(v.fields)) && a < |Ordered(v.fields)|
    ensures Stripped(v, MemberOf(Ordered(v.fields)[a]))
  {
    assert Ordered(v.fields)[a] in Ordered(v.fields);
    var k :| 0 <= k < |v.fields| && v.fields[k] == Ordered(v.fields)[a];
  }

  lemma FieldsAreStripped(v: Js, m: Member) returns (a: nat)
    requires v.Object? && Printable(v) && FieldsPrintable(Ordered(v.fields)) && Stripped(v, m)
    ensures a < |Ordered(v.fields)| && MemberOf(Ordered(v.fields)[a]) == m
  {
    var k :| 0 <= k < |v.fields| && Kept(v.fields[k]) && MemberOf(v.fields[k]) == m;
    assert v.fields[k] in Ordered(v.fields);
    a :| 0 <= a < |Ordered(v.fields)| && Ordered(v.fields)[a] == v.fields[k];
  }

  /** The stripped members are those of the kept fields, in key order. */
  lemma StrippedMembers(v: Js)
    requires v.Object? && Printable(v) && Valid(v)
    ensures Strip(v).JObject? && Sorting.Increasing(Strip(v).members, MemberBefore)
    ensures forall m {:trigger Stripped(v, m)} :: m in Strip(v).members <==> Stripped(v, m)
  {
    var ordered := Ordered(v.fields);
    StripUnfolds(v);
    var members := StripFields(v, ordered);
    StrippedLength(v, ordered);
    OrderedByKey(v.fields);
    forall a | 0 <= a < |members| ensures members[a] == MemberOf(ordered[a]) { StrippedField(v, ordered, a); }
    forall a, b | 0 <= a < b < |members| ensures MemberBefore(members[a], members[b]) { }
    forall m {:trigger Stripped(v, m)} ensures m in members <==> Stripped(v, m) {
      if m in members {
        var a :| 0 <= a < |members| && members[a] == m;
        StrippedComeFromFields(v, a);
      }
      if Stripped(v, m) {
        var a := FieldsAreStripped(v, m);
        assert members[a] == m;
      }
    }
  }

  lemma {:induction false} ArrayStrips(v: Js, i: nat)
    requires v.Array? && Printable(v) && i < |v.items|
    ensures Strip(v).JArray? && |Strip(v).items| == |v.items|
    ensures Printable(v.items[i]) && Strip(v).items[i] == Strip(v.items[i])
  {
  }

  lemma {:induction false} ArrayLength(v: Js)
    requires v.Array? && Printable(v)
    ensures Strip(v).JArray? && |Strip(v).items| == |v.items|
  {
  }

  lemma {:induction false} LeafDenotes(v: Js)
    requires Printable(v) && !v.Array? && !v.Object?
    ensures Denotes(v, Strip(v))
  {
  }

  lemma {:induction false} StripDenotes(v: Js)
    requires Printable(v) && Valid(v)
    ensures Denotes(v, Strip(v))
    decreases v
  {
    if v.Array? {
      ArrayLength(v);
      forall i | 0 <= i < |v.items| ensures Denotes(v.items[i], Strip(v).items[i]) {
        ArrayStrips(v, i);
        StripDenotes(v.items[i]);
      }
    } else if v.Object? {
      StrippedMembers(v);
      forall k | 0 <= k < |v.fields| && Kept(v.fields[k])
        ensures Becomes(v.fields[k], MemberOf(v.fields[k]))
      {
        StripDenotes(v.fields[k].value);
      }
      ObjectDenotes(v, Strip(v).members);
    } else {
      LeafDenotes(v);
    }
  }

  lemma {:induction false} ObjectDenotes(v: Js, members: seq<Member>)
    requires v.Object? && Printable(v) && Sorting.Increasing(members, MemberBefore)
    requires forall m {:trigger Stripped(v, m)} :: m in members <==> Stripped(v, m)
    requires forall k :: 0 <= k < |v.fields| && Kept(v.fields[k]) ==> Becomes(v.fields[k], MemberOf(v.fields[k]))
    ensures Denotes(v, JObject(members))
  {
    forall a | 0 <= a < |members| ensures FromField(v.fields, members[a]) {
      assert members[a] in members && Stripped(v, members[a]);
      var k :| 0 <= k < |v.fields| && Kept(v.fields[k]) && MemberOf(v.fields[k]) == members[a];
      assert Becomes(v.fields[k], members[a]);
    }
    forall k | 0 <= k < |v.fields| && Kept(v.fields[k]) ensures ToMember(v.fields[k], members) {
      assert Stripped(v, MemberOf(v.fields[k])) && MemberOf(v.fields[k]) in members;
      var a :| 0 <= a < |members| && members[a] == MemberOf(v.fields[k]);
      assert Becomes(v.fields[k], members[a]);
    }
    forall a, b | 0 <= a < b < |members| ensures Less(members[a].key, members[b].key) {
      assert MemberBefore(members[a], members[b]);
    }
  }

  /** What a field becomes is its stripped member. */
  ghost predicate Settled(f: Field, m: Member) {
    Becomes(f, m) ==> Kept(f) && Printable(f.value) && m == MemberOf(f)
  }

  lemma {:induction false} DenotedLeaf(v: Js, j: Json)
    requires Denotes(v, j) && !v.Array? && !v.Object?
    ensures Printable(v) && j == Strip(v)
  {
  }

  lemma {:induction false} DenotedArray(v: Js, j: Json)
    requires v.Array? && j.JArray? && |v.items| == |j.items|
    requires forall i :: 0 <= i < |v.items| ==> Printable(v.items[i]) && j.items[i] == Strip(v.items[i])
    ensures Printable(v) && j == Strip(v)
  {
    ArrayLength(v);
    forall i | 0 <= i < |v.items| ensures j.items[i] == Strip(v).items[i] { ArrayStrips(v, i); }
    assert j.items == Strip(v).items;
  }

  /** A value denotes at most one document, the stripped one. */
  lemma {:induction false} DenotedIsStripped(v: Js, j: Json)
    requires Valid(v) && Denotes(v, j)
    ensures Printable(v) && j == Strip(v)
    decreases v
  {
    if v.Array? {
      forall i | 0 <= i < |v.items| ensures Printable(v.items[i]) && j.items[i] == Strip(v.items[i]) {
        DenotedIsStripped(v.items[i], j.items[i]);
      }
      DenotedArray(v, j);
    } else if v.Object? {
      forall k, m {:trigger Settled(v.fields[k], m)} | 0 <= k < |v.fields| ensures Settled(v.fields[k], m) {
        if Becomes(v.fields[k], m) {
          NothingDenoted(v.fields[k], m);
          DenotedIsStripped(v.fields[k].value, m.value);
        }
      }
      ObjectIsStripped(v, j);
    } else {
      DenotedLeaf(v, j);
    }
  }

  lemma {:induction false} KeptIsPrintable(v: Js, j: Json)
    requires v.Object? && Denotes(v, j)
    requires forall k, m {:trigger Settled(v.fields[k], m)} :: 0 <= k < |v.fields| ==> Settled(v.fields[k], m)
    ensures Printable(v)
  {
    forall k | 0 <= k < |v.fields| && Kept(v.fields[k]) ensures Printable(v.fields[k].value) {
      assert ToMember(v.fields[k], j.members);
      var a :| 0 <= a < |j.members| && Becomes(v.fields[k], j.members[a]);
      assert Settled(v.fields[k], j.members[a]);
    }
  }

  lemma {:induction false} MembersAreStripped(v: Js, j: Json, m: Member)
    requires v.Object? && Denotes(v, j) && Printable(v)
    requires forall k, m {:trigger Settled(v.fields[k], m)} :: 0 <= k < |v.fields| ==> Settled(v.fields[k], m)
    ensures m in j.members <==> Stripped(v, m)
  {
    if m in j.members {
      assert FromField(v.fields, m);
      var k :| 0 <= k < |v.fields| && Becomes(v.fields[k], m);
      assert Settled(v.fields[k], m);
    }
    if Stripped(v, m) {
      var k :| 0 <= k < |v.fields| && Kept(v.fields[k]) && MemberOf(v.fields[k]) == m;
      assert ToMember(v.fields[k], j.members);
      var a :| 0 <= a < |j.members| && Becomes(v.fields[k], j.members[a]);
      assert Settled(v.fields[k], j.members[a]);
    }
  }

  lemma {:induction false} ObjectIsStripped(v: Js, j: Json)
    requires v.Object? && Valid(v) && Denotes(v, j)
    requires forall k, m {:trigger Settled(v.fields[k], m)} :: 0 <= k < |v.fields| ==> Settled(v.fields[k], m)
    ensures Printable(v) && j == Strip(v)
  {
    KeptIsPrintable(v, j);
    StrippedMembers(v);
    forall m {:trigger Stripped(v, m)} ensures m in j.members <==> Stripped(v, m) { MembersAreStripped(v, j, m); }
    SameMembers(v, j.members, Strip(v).members);
  }

  lemma SameMembers(v: Js, a: seq<Member>, b: seq<Member>)
    requires v.Object? && Printable(v) && Sorting.Increasing(b, MemberBefore)
    requires forall i, k :: 0 <= i < k < |a| ==> Less(a[i].key, a[k].key)
    requires forall m {:trigger Stripped(v, m)} :: m in a <==> Stripped(v, m)
    requires forall m {:trigger Stripped(v, m)} :: m in b <==> Stripped(v, m)
    ensures a == b
  {
    MembersSort();
    forall m ensures m in a <==> m in b { assert Stripped(v, m) || !Stripped(v, m); }
    forall i, k | 0 <= i < k < |a| ensures MemberBefore(a[i], a[k]) { }
    Sorting.IncreasingUnique(a, b, MemberBefore);
  }

  /** Printing succeeds exactly on the values that denote a document, and each denotes at most one. */
  lemma PrintsWhatIsDenoted(v: Js)
    requires Valid(v)
    ensures CanonicalJson(v).Ok? <==> exists j :: Denotes(v, j)
    ensures forall j, k :: Denotes(v, j) && Denotes(v, k) ==> j == k
  {
    PrintsStripped(v);
    if Printable(v) {
      StripDenotes(v);
      assert exists j :: Denotes(v, j);
    }
    forall j | Denotes(v, j) ensures Printable(v) && j == Strip(v) { DenotedIsStripped(v, j); }
  }

  /**
   * The canonical bytes of a value are well-formed and read back as the document it denotes; any other
   * well-formed text that does so is longer.
   */
  lemma CanonicalBytesAreShortest(v: Js, j: Json, other: Str)
    requires Valid(v) && Denotes(v, j)
    ensures CanonicalJson(v).Ok? && Utf8.WellFormed(CanonicalJson(v).value)
    ensures ParseValue(CanonicalJson(v).value) == Some(Parsed(j, []))
    ensures Utf8.WellFormed(other) && ParseValue(other) == Some(Parsed(j, [])) && other != CanonicalJson(v).value ==>
      |CanonicalJson(v).value| < |other|
  {
    DenotedIsStripped(v, j);
    PrintsStripped(v);
    BytesGiveTheDocument(v);
    StripIsNumeric(v);
    PrintIsWellFormed(j);
    if Utf8.WellFormed(other) && ParseValue(other) == Some(Parsed(j, [])) {
      ValueIsShortest(other, j, []);
      assert Print(j) + [] == Print(j);
    }
  }

  lemma NextIsFresh(text: Str, k: nat)
    requires Utf8.WellFormed(text) && 0 < k < |text| && !Utf8.High(text[k - 1])
    ensures !Utf8.Low(text[k])
  {
  }

  lemma PairOpens(text: Str, i: nat)
    requires Utf8.WellFormed(text) && i < |text| && Utf8.High(text[i])
    ensures i + 1 < |text| && Utf8.Low(text[i + 1])
  {
  }

  lemma {:induction false} PlainStays(text: Str, i: nat)
    requires i <= |text| && Utf8.WellFormed(text) && (i < |text| ==> !Utf8.Low(text[i]))
    requires forall k :: 0 <= k < |text| ==> text[k] >= 0x20 && text[k] != 0x22 && text[k] != 0x5C
    ensures EscapeFrom(text, i) == text[i..]
    decreases |text| - i
  {
    if i < |text| {
      if Utf8.High(text[i]) {
        PairOpens(text, i);
        if i + 2 < |text| { NextIsFresh(text, i + 2); }
        PlainStays(text, i + 2);
        assert text[i..] == [text[i], text[i + 1]] + text[i + 2..];
      } else {
        if i + 1 < |text| { NextIsFresh(text, i + 1); }
        PlainStays(text, i + 1);
        assert text[i..] == [text[i]] + text[i + 1..];
      }
    }
  }

  /** Text without control characters, quotes, backslashes and lone surrogates is printed as it is. */
  lemma PlainTextIsQuoted(text: Str)
    requires Utf8.WellFormed(text)
    requires forall k :: 0 <= k < |text| ==> text[k] >= 0x20 && text[k] != 0x22 && text[k] != 0x5C
    ensures CanonicalJson(Text(text)) == Ok([0x22] + text + [0x22])
  {
    PlainStays(text, 0);
    assert text[0..] == text;
  }
}
