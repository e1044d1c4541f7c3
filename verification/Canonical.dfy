/** Canonical JSON: the printer of the conformance kit, and the parser that inverts it. */
module Canonical {
  import opened CodeUnits
  import opened Outcomes
  import Sorting
  import Utf8

  /**
   * A number by the text the ECMAScript number-to-string algorithm gives it. Finite numbers
   * other than negative zero are in one-to-one correspondence with their texts.
   */
  datatype Num = Finite(text: Str) | NegativeZero | NotFinite

  /** A JavaScript value; `Unsupported` stands for functions, symbols and big integers. */
  datatype Js =
    | Null
    | Bool(b: bool)
    | Number(num: Num)
    | Text(text: Str)
    | Array(items: seq<Js>)
    | Object(fields: seq<Field>)
    | Undefined
    | Unsupported

  datatype Field = Field(key: Str, value: Js)

  datatype JsonError = UnsupportedType

  const QUOTE: Unit := 0x22
  const BACKSLASH: Unit := 0x5C
  const COMMA: Unit := 0x2C
  const COLON: Unit := 0x3A
  const NULL_TEXT: Str := [0x6E, 0x75, 0x6C, 0x6C]
  const TRUE_TEXT: Str := [0x74, 0x72, 0x75, 0x65]
  const FALSE_TEXT: Str := [0x66, 0x61, 0x6C, 0x73, 0x65]
  const EXCERPT: Str := [0x65, 0x78, 0x63, 0x65, 0x72, 0x70, 0x74]

  // ---- strings ----------------------------------------------------------------

  function HexUnit(d: int): Unit
    requires 0 <= d < 16
  {
    if d < 10 then (0x30 + d) as Unit else (0x57 + d) as Unit
  }

  function UnicodeEscape(u: Unit): Str {
    var n := u as int;
    [BACKSLASH, 0x75, HexUnit(n / 0x1000), HexUnit(n / 0x100 % 16), HexUnit(n / 16 % 16), HexUnit(n % 16)]
  }

  /** How `JSON.stringify` writes a unit that is not half of a surrogate pair. */
  function EscapeUnit(u: Unit): Str {
    if u == 0x08 then [BACKSLASH, 0x62]
    else if u == 0x09 then [BACKSLASH, 0x74]
    else if u == 0x0A then [BACKSLASH, 0x6E]
    else if u == 0x0C then [BACKSLASH, 0x66]
    else if u == 0x0D then [BACKSLASH, 0x72]
    else if u == QUOTE then [BACKSLASH, QUOTE]
    else if u == BACKSLASH then [BACKSLASH, BACKSLASH]
    else if u < 0x20 || 0xD800 <= u <= 0xDFFF then UnicodeEscape(u)
    else [u]
  }

  function EscapeFrom(s: Str, i: nat): Str
    requires i <= |s|
    decreases |s| - i
  {
    if i == |s| then []
    else if Utf8.Paired(s, i) then [s[i], s[i + 1]] + EscapeFrom(s, i + 2)
    else EscapeUnit(s[i]) + EscapeFrom(s, i + 1)
  }

  function Quote(s: Str): Str {
    [QUOTE] + EscapeFrom(s, 0) + [QUOTE]
  }

  // ---- the printer --------------------------------------------------------------

  function PrintNumber(num: Num): Str {
    match num
    case Finite(text) => text
    case NegativeZero => [0x30]
    case NotFinite => NULL_TEXT
  }

  predicate Kept(field: Field) {
    field.key != EXCERPT && field.value != Undefined
  }

  function Keep(fields: seq<Field>): (kept: seq<Field>)
    ensures forall f :: f in kept <==> f in fields && Kept(f)
  {
    if fields == [] then []
    else (if Kept(fields[0]) then [fields[0]] else []) + Keep(fields[1..])
  }

  predicate KeyBefore(a: Field, b: Field) {
    Less(a.key, b.key)
  }

  /** The printed fields of an object, in key order. */
  function Ordered(fields: seq<Field>): (ordered: seq<Field>)
    ensures forall f :: f in ordered <==> f in fields && Kept(f)
  {
    Sorting.SamePresence(Keep(fields), Sorting.Sort(Keep(fields), KeyBefore));
    Sorting.Sort(Keep(fields), KeyBefore)
  }

  /** `parts.join(',')` */
  function Join(parts: seq<Str>): Str {
    if parts == [] then [] else if |parts| == 1 then parts[0] else parts[0] + [COMMA] + Join(parts[1..])
  }

  function CanonicalJson(v: Js): Outcome<Str, JsonError>
    decreases v
  {
    match v
    case Null => Ok(NULL_TEXT)
    case Bool(b) => Ok(if b then TRUE_TEXT else FALSE_TEXT)
    case Number(num) => Ok(PrintNumber(num))
    case Text(text) => Ok(Quote(text))
    case Array(items) =>
      var parts :- PrintItems(items);
      Ok([0x5B] + Join(parts) + [0x5D])
    case Object(fields) =>
      var parts :- PrintFields(v, Ordered(fields));
      Ok([0x7B] + Join(parts) + [0x7D])
    case Undefined => Thrown(UnsupportedType)
    case Unsupported => Thrown(UnsupportedType)
  }

  function PrintItems(items: seq<Js>): (parts: Outcome<seq<Str>, JsonError>)
    ensures parts.Ok? ==> |parts.value| == |items|
    decreases items
  {
    if items == [] then Ok([])
    else
      var first :- CanonicalJson(items[0]);
      var rest :- PrintItems(items[1..]);
      Ok([first] + rest)
  }

  function PrintFields(context: Js, fields: seq<Field>): (parts: Outcome<seq<Str>, JsonError>)
    requires context.Object? && forall f :: f in fields ==> f in context.fields
    ensures parts.Ok? ==> |parts.value| == |fields|
    decreases context, |fields|
  {
    if fields == [] then Ok([])
    else
      assert fields[0] in context.fields;
      var value :- CanonicalJson(fields[0].value);
      var rest :- PrintFields(context, fields[1..]);
      Ok([Quote(fields[0].key) + [COLON] + value] + rest)
  }

  /** Nothing the printer reaches is `undefined`, a function, a symbol or a big integer. */
  predicate Printable(v: Js) {
    match v
    case Array(items) => forall i :: 0 <= i < |items| ==> Printable(items[i])
    case Object(fields) => forall i :: 0 <= i < |fields| && Kept(fields[i]) ==> Printable(fields[i].value)
    case Undefined => false
    case Unsupported => false
    case _ => true
  }

  predicate AllPrintable(items: seq<Js>) {
    forall i :: 0 <= i < |items| ==> Printable(items[i])
  }

  predicate FieldsPrintable(fields: seq<Field>) {
    forall i :: 0 <= i < |fields| ==> Printable(fields[i].value)
  }

  // ---- what the bytes say --------------------------------------------------------

  /** A JSON document: what remains of a value once it is printed. */
  datatype Json =
    | JNull
    | JBool(b: bool)
    | JNumber(text: Str)
    | JText(text: Str)
    | JArray(items: seq<Json>)
    | JObject(members: seq<Member>)

  datatype Member = Member(key: Str, value: Json)

  function Parts(items: seq<Json>): seq<Str> {
    seq(|items|, i requires 0 <= i < |items| => Print(items[i]))
  }

  function PrintMember(member: Member): Str {
    Quote(member.key) + [COLON] + Print(member.value)
  }

  function MemberParts(members: seq<Member>): seq<Str> {
    seq(|members|, i requires 0 <= i < |members| => PrintMember(members[i]))
  }

  function Print(j: Json): Str {
    match j
    case JNull => NULL_TEXT
    case JBool(b) => if b then TRUE_TEXT else FALSE_TEXT
    case JNumber(text) => text
    case JText(text) => Quote(text)
    case JArray(items) => [0x5B] + Join(Parts(items)) + [0x5D]
    case JObject(members) => [0x7B] + Join(MemberParts(members)) + [0x7D]
  }

  function StripNumber(num: Num): Json {
    match num
    case Finite(text) => JNumber(text)
    case NegativeZero => JNumber([0x30])
    case NotFinite => JNull
  }

  /** The value without `excerpt` keys and undefined fields, its fields in key order. */
  function Strip(v: Js): Json
    requires Printable(v)
    decreases v
  {
    match v
    case Null => JNull
    case Bool(b) => JBool(b)
    case Number(num) => StripNumber(num)
    case Text(text) => JText(text)
    case Array(items) => JArray(StripItems(items))
    case Object(fields) =>
      OrderedPrintable(fields);
      JObject(StripFields(v, Ordered(fields)))
  }

  function StripItems(items: seq<Js>): seq<Json>
    requires AllPrintable(items)
    decreases items
  {
    seq(|items|, i requires 0 <= i < |items| => Strip(items[i]))
  }

  function StripFields(context: Js, fields: seq<Field>): seq<Member>
    requires context.Object? && FieldsPrintable(fields)
    requires forall f :: f in fields ==> f in context.fields
    decreases context, 0
  {
    seq(|fields|, i requires 0 <= i < |fields| =>
      assert fields[i] in fields;
      Member(fields[i].key, Strip(fields[i].value)))
  }

  lemma {:induction false} ItemsSplit(items: seq<Js>)
    requires items != []
    ensures AllPrintable(items) <==> Printable(items[0]) && AllPrintable(items[1..])
    ensures AllPrintable(items) ==>
      Parts(StripItems(items)) == [Print(Strip(items[0]))] + Parts(StripItems(items[1..]))
  {
    var first, rest := items[0], items[1..];
    assert items == [first] + rest;
    if AllPrintable(items) {
      assert StripItems(items) == [Strip(first)] + StripItems(rest);
      PartsJoin(Strip(first), StripItems(rest));
    }
  }

  lemma {:induction false} PartsJoin(first: Json, rest: seq<Json>)
    ensures Parts([first] + rest) == [Print(first)] + Parts(rest)
  {
  }

  lemma {:induction false} ItemsAreStripped(items: seq<Js>)
    ensures PrintItems(items) == if AllPrintable(items) then Ok(Parts(StripItems(items))) else Thrown(UnsupportedType)
    decreases items
  {
    if items != [] {
      ItemsSplit(items);
      PrintsStripped(items[0]);
      ItemsAreStripped(items[1..]);
    } else {
      assert Parts(StripItems(items)) == [];
    }
  }

  lemma {:induction false} FieldsSplit(context: Js, fields: seq<Field>)
    requires fields != [] && context.Object? && forall f :: f in fields ==> f in context.fields
    ensures FieldsPrintable(fields) <==> Printable(fields[0].value) && FieldsPrintable(fields[1..])
    ensures FieldsPrintable(fields) ==>
      MemberParts(StripFields(context, fields))
      == [PrintMember(Member(fields[0].key, Strip(fields[0].value)))] + MemberParts(StripFields(context, fields[1..]))
  {
    assert fields == [fields[0]] + fields[1..];
    if FieldsPrintable(fields) {
      assert StripFields(context, fields)
          == [Member(fields[0].key, Strip(fields[0].value))] + StripFields(context, fields[1..]);
    }
  }

  lemma {:induction false} FieldsAreStripped(context: Js, fields: seq<Field>)
    requires context.Object? && forall f :: f in fields ==> f in context.fields
    ensures PrintFields(context, fields) == if FieldsPrintable(fields) then Ok(MemberParts(StripFields(context, fields)))
                                            else Thrown(UnsupportedType)
    decreases context, |fields|
  {
    if fields != [] {
      assert fields[0] in context.fields;
      FieldsSplit(context, fields);
      PrintsStripped(fields[0].value);
      FieldsAreStripped(context, fields[1..]);
    } else {
      assert MemberParts(StripFields(context, fields)) == [];
    }
  }

  lemma OrderedPrintable(fields: seq<Field>)
    ensures FieldsPrintable(Ordered(fields)) <==> Printable(Object(fields))
  {
    var ordered := Ordered(fields);
    if FieldsPrintable(ordered) {
      forall i | 0 <= i < |fields| && Kept(fields[i]) ensures Printable(fields[i].value) {
        assert fields[i] in ordered;
      }
    }
    if Printable(Object(fields)) {
      forall i | 0 <= i < |ordered| ensures Printable(ordered[i].value) {
        assert ordered[i] in ordered;
      }
    }
  }

  lemma {:induction false} ScalarPrints(v: Js)
    requires !v.Array? && !v.Object?
    ensures CanonicalJson(v) == if Printable(v) then Ok(Print(Strip(v))) else Thrown(UnsupportedType)
  {
  }

  lemma {:induction false} ArrayPrints(items: seq<Js>)
    requires PrintItems(items) == if AllPrintable(items) then Ok(Parts(StripItems(items))) else Thrown(UnsupportedType)
    ensures CanonicalJson(Array(items))
         == if Printable(Array(items)) then Ok(Print(Strip(Array(items)))) else Thrown(UnsupportedType)
  {
  }

  /** Printing fails exactly on unprintable values; otherwise it writes the stripped document. */
  lemma {:induction false} PrintsStripped(v: Js)
    ensures CanonicalJson(v) == if Printable(v) then Ok(Print(Strip(v))) else Thrown(UnsupportedType)
    decreases v
  {
    match v
    case Array(items) =>
      ItemsAreStripped(items);
      ArrayPrints(items);
    case Object(fields) =>
      OrderedPrintable(fields);
      FieldsAreStripped(v, Ordered(fields));
    case _ => ScalarPrints(v);
  }
}
