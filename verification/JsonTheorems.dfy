/** Two values print the same bytes exactly when they are the same unordered document. */
module JsonTheorems {
  import opened CodeUnits
  import opened Outcomes
  import opened Canonical
  import opened JsonParser
  import HashFeed
  import Sorting
  import Utf8

  predicate DistinctKeys(fields: seq<Field>) {
    forall i, j :: 0 <= i < j < |fields| ==> fields[i].key != fields[j].key
  }

  /** What every JavaScript value satisfies: number texts are numbers, keys are distinct. */
  predicate Valid(v: Js) {
    match v
    case Number(num) => num.Finite? ==> NumberText(num.text)
    case Array(items) => forall i :: 0 <= i < |items| ==> Valid(items[i])
    case Object(fields) =>
      DistinctKeys(fields) && forall i :: 0 <= i < |fields| ==> Valid(fields[i].value)
    case _ => true
  }

  /** Negative zero reads back as zero, a number that is not finite as null. */
  function Reading(v: Js): Js {
    if v == Number(NotFinite) then Null
    else if v == Number(NegativeZero) then Number(Finite([0x30]))
    else v
  }

  /** The same document: arrays item by item, objects as unordered maps of their kept fields. */
  ghost predicate Same(v: Js, w: Js)
    decreases v
  {
    match v
    case Array(items) =>
      w.Array? && |items| == |w.items| && forall i :: 0 <= i < |items| ==> Same(items[i], w.items[i])
    case Object(fields) =>
      && w.Object?
      && (forall f :: f in fields && Kept(f) ==> Partnered(f, w.fields))
      && (forall g :: g in w.fields && Kept(g) ==> HasKey(g.key, fields))
    case _ => !w.Array? && !w.Object? && Reading(v) == Reading(w)
  }

  /** Some kept field has the same key and the same value. */
  ghost predicate Partnered(f: Field, fields: seq<Field>)
    decreases f
  {
    exists g :: g in fields && Kept(g) && f.key == g.key && Same(f.value, g.value)
  }

  ghost predicate HasKey(key: Str, fields: seq<Field>) {
    exists f :: f in fields && Kept(f) && f.key == key
  }

  // ---- key order ------------------------------------------------------------------

  lemma {:induction false} KeepIsDistinct(fields: seq<Field>)
    requires DistinctKeys(fields)
    ensures DistinctKeys(Keep(fields))
  {
    if fields != [] {
      KeepIsDistinct(fields[1..]);
      var rest := Keep(fields[1..]);
      forall j | 0 <= j < |rest| ensures rest[j].key != fields[0].key {
        assert rest[j] in rest;
        var k :| 0 <= k < |fields[1..]| && fields[1..][k] == rest[j];
        assert fields[k + 1] == rest[j];
      }
    }
  }

  ghost predicate InKeyOrder(fields: seq<Field>) {
    forall i, j :: 0 <= i < j < |fields| ==> Less(fields[i].key, fields[j].key)
  }

  lemma OrderedByKey(fields: seq<Field>)
    requires DistinctKeys(fields)
    ensures InKeyOrder(Ordered(fields))
  {
    var kept := Keep(fields);
    KeepIsDistinct(fields);
    KeyBeforeSorts();
    forall f, g | f in kept && g in kept && f != g ensures KeyBefore(f, g) || KeyBefore(g, f) {
      var i :| 0 <= i < |kept| && kept[i] == f;
      var j :| 0 <= j < |kept| && kept[j] == g;
      LessIsTotal(f.key, g.key);
    }
    Sorting.SortIncreasing(kept, KeyBefore);
    forall i, j | 0 <= i < j < |Ordered(fields)| ensures Less(Ordered(fields)[i].key, Ordered(fields)[j].key) {
      assert KeyBefore(Ordered(fields)[i], Ordered(fields)[j]);
    }
  }

  lemma KeyBeforeSorts()
    ensures Sorting.StrictWeak(KeyBefore)
  {
    LessSorts();
    forall f, g, h | !KeyBefore(f, g) && !KeyBefore(g, h) ensures !KeyBefore(f, h) {
      assert !Less(f.key, g.key) && !Less(g.key, h.key);
    }
  }

  // ---- matching fields --------------------------------------------------------------

  predicate Agree(f: Field, g: Field)
    requires Printable(f.value) && Printable(g.value)
  {
    f.key == g.key && Strip(f.value) == Strip(g.value)
  }

  ghost predicate AgreeInOrder(a: seq<Field>, b: seq<Field>)
    requires FieldsPrintable(a) && FieldsPrintable(b)
  {
    |a| == |b| && forall i :: 0 <= i < |a| ==> Agree(a[i], b[i])
  }

  lemma MembersAgree(v: Js, w: Js, a: seq<Field>, b: seq<Field>)
    requires v.Object? && w.Object? && FieldsPrintable(a) && FieldsPrintable(b)
    requires (forall f :: f in a ==> f in v.fields) && (forall g :: g in b ==> g in w.fields)
    ensures StripFields(v, a) == StripFields(w, b) <==> AgreeInOrder(a, b)
  {
    var ma, mb := StripFields(v, a), StripFields(w, b);
    if ma == mb {
      forall i | 0 <= i < |a| ensures Agree(a[i], b[i]) { assert ma[i] == mb[i]; }
    }
  }

  lemma PrintableMember(a: seq<Field>, f: Field)
    requires FieldsPrintable(a) && f in a
    ensures Printable(f.value)
  {
  }

  ghost predicate AgreeSomewhere(f: Field, b: seq<Field>)
    requires Printable(f.value) && FieldsPrintable(b)
  {
    exists k :: 0 <= k < |b| && Agree(f, b[k])
  }

  ghost predicate KeyIn(key: Str, a: seq<Field>) {
    exists i :: 0 <= i < |a| && a[i].key == key
  }

  function KeysOf(a: seq<Field>): seq<Str> {
    seq(|a|, i requires 0 <= i < |a| => a[i].key)
  }

  /** In key order, fields agree pairwise exactly when each finds its partner somewhere. */
  lemma AgreeByKey(a: seq<Field>, b: seq<Field>)
    requires FieldsPrintable(a) && FieldsPrintable(b) && InKeyOrder(a) && InKeyOrder(b)
    ensures AgreeInOrder(a, b)
       <==> && (forall i :: 0 <= i < |a| ==> AgreeSomewhere(a[i], b))
            && (forall k :: 0 <= k < |b| ==> KeyIn(b[k].key, a))
  {
    if (forall i :: 0 <= i < |a| ==> AgreeSomewhere(a[i], b)) && (forall k :: 0 <= k < |b| ==> KeyIn(b[k].key, a)) {
      SameKeys(a, b);
      forall i | 0 <= i < |a| ensures Agree(a[i], b[i]) {
        assert AgreeSomewhere(a[i], b);
        var k :| 0 <= k < |b| && Agree(a[i], b[k]);
        KeyOnce(b, i, k);
      }
    }
    if AgreeInOrder(a, b) {
      forall i | 0 <= i < |a| ensures AgreeSomewhere(a[i], b) { assert Agree(a[i], b[i]); }
      forall k | 0 <= k < |b| ensures KeyIn(b[k].key, a) { assert Agree(a[k], b[k]); }
    }
  }

  lemma KeyOnce(b: seq<Field>, i: nat, k: nat)
    requires InKeyOrder(b) && i < |b| && k < |b| && b[i].key == b[k].key
    ensures i == k
  {
    LessIsStrict(b[i].key);
  }

  lemma SameKeys(a: seq<Field>, b: seq<Field>)
    requires InKeyOrder(a) && InKeyOrder(b)
    requires forall i :: 0 <= i < |a| ==> KeyIn(a[i].key, b)
    requires forall k :: 0 <= k < |b| ==> KeyIn(b[k].key, a)
    ensures |a| == |b| && forall i :: 0 <= i < |a| ==> a[i].key == b[i].key
  {
    var ka, kb := KeysOf(a), KeysOf(b);
    LessSorts();
    forall x | x in ka ensures x in kb {
      var i :| 0 <= i < |ka| && ka[i] == x;
      assert KeyIn(a[i].key, b);
      var k :| 0 <= k < |b| && b[k].key == x;
      assert kb[k] == x;
    }
    forall x | x in kb ensures x in ka {
      var k :| 0 <= k < |kb| && kb[k] == x;
      assert KeyIn(b[k].key, a);
      var i :| 0 <= i < |a| && a[i].key == x;
      assert ka[i] == x;
    }
    Sorting.IncreasingUnique(ka, kb, Less);
    forall i | 0 <= i < |a| ensures a[i].key == b[i].key { assert ka[i] == kb[i]; }
  }

  // ---- equal bytes -------------------------------------------------------------------

  /** Printing tells the two values apart exactly when they differ as documents. */
  ghost predicate Told(v: Js, w: Js)
    requires Printable(v) && Printable(w)
  {
    Strip(v) == Strip(w) <==> Same(v, w)
  }

  ghost predicate ToldOfAll(f: Field, b: seq<Field>)
    requires Printable(f.value) && FieldsPrintable(b)
  {
    forall k {:trigger Told(f.value, b[k].value)} :: 0 <= k < |b| ==> Told(f.value, b[k].value)
  }

  lemma PartnersAgree(f: Field, fields: seq<Field>)
    requires Printable(f.value) && FieldsPrintable(Ordered(fields)) && ToldOfAll(f, Ordered(fields))
    ensures Partnered(f, fields) <==> AgreeSomewhere(f, Ordered(fields))
  {
    var b := Ordered(fields);
    if Partnered(f, fields) {
      var g :| g in fields && Kept(g) && f.key == g.key && Same(f.value, g.value);
      assert g in b;
      var k :| 0 <= k < |b| && b[k] == g;
      assert Told(f.value, b[k].value);
      assert Agree(f, b[k]);
    }
    if AgreeSomewhere(f, b) {
      var k :| 0 <= k < |b| && Agree(f, b[k]);
      assert Told(f.value, b[k].value) && b[k] in b;
    }
  }

  lemma KeysMatch(key: Str, fields: seq<Field>)
    ensures HasKey(key, fields) <==> KeyIn(key, Ordered(fields))
  {
    var a := Ordered(fields);
    if f :| f in fields && Kept(f) && f.key == key {
      assert f in a;
      var i :| 0 <= i < |a| && a[i] == f;
    }
    if KeyIn(key, a) {
      var i :| 0 <= i < |a| && a[i].key == key;
      assert a[i] in a;
    }
  }

  ghost predicate AllTold(a: seq<Field>, b: seq<Field>)
    requires FieldsPrintable(a) && FieldsPrintable(b)
  {
    forall i {:trigger a[i]} :: 0 <= i < |a| ==> ToldOfAll(a[i], b)
  }

  ghost predicate AllAgreeSomewhere(a: seq<Field>, b: seq<Field>)
    requires FieldsPrintable(a) && FieldsPrintable(b)
  {
    forall i {:trigger a[i]} :: 0 <= i < |a| ==> AgreeSomewhere(a[i], b)
  }

  lemma PartneredAt(v: Js, w: Js, i: nat)
    requires v.Object? && w.Object?
    requires FieldsPrintable(Ordered(v.fields)) && FieldsPrintable(Ordered(w.fields))
    requires AllTold(Ordered(v.fields), Ordered(w.fields)) && i < |Ordered(v.fields)|
    ensures var f := Ordered(v.fields)[i];
      f in v.fields && Kept(f) && (Partnered(f, w.fields) <==> AgreeSomewhere(f, Ordered(w.fields)))
  {
    assert Ordered(v.fields)[i] in Ordered(v.fields);
    PartnersAgree(Ordered(v.fields)[i], w.fields);
  }

  lemma AllPartnered(v: Js, w: Js)
    requires v.Object? && w.Object?
    requires FieldsPrintable(Ordered(v.fields)) && FieldsPrintable(Ordered(w.fields))
    requires AllTold(Ordered(v.fields), Ordered(w.fields))
    ensures (forall f :: f in v.fields && Kept(f) ==> Partnered(f, w.fields))
       <==> AllAgreeSomewhere(Ordered(v.fields), Ordered(w.fields))
  {
    var a, b := Ordered(v.fields), Ordered(w.fields);
    forall i | 0 <= i < |a|
      ensures a[i] in v.fields && Kept(a[i]) && (Partnered(a[i], w.fields) <==> AgreeSomewhere(a[i], b))
    {
      PartneredAt(v, w, i);
    }
    forall f | f in v.fields && Kept(f) ensures exists i :: 0 <= i < |a| && a[i] == f { assert f in a; }
  }

  lemma AllKnown(v: Js, w: Js)
    requires v.Object? && w.Object?
    ensures (forall g :: g in w.fields && Kept(g) ==> HasKey(g.key, v.fields))
       <==> forall k :: 0 <= k < |Ordered(w.fields)| ==> KeyIn(Ordered(w.fields)[k].key, Ordered(v.fields))
  {
    var a, b := Ordered(v.fields), Ordered(w.fields);
    forall g | g in w.fields && Kept(g)
      ensures HasKey(g.key, v.fields) <==> KeyIn(g.key, a)
    {
      KeysMatch(g.key, v.fields);
    }
    forall k | 0 <= k < |b| ensures b[k] in w.fields && Kept(b[k]) { assert b[k] in b; }
    if forall k :: 0 <= k < |b| ==> KeyIn(b[k].key, a) {
      forall g | g in w.fields && Kept(g) ensures KeyIn(g.key, a) {
        assert g in b;
        var k :| 0 <= k < |b| && b[k] == g;
      }
    }
  }

  lemma {:induction false} ObjectsTold(v: Js, w: Js)
    requires v.Object? && w.Object? && Printable(v) && Printable(w) && Valid(v) && Valid(w)
    ensures Told(v, w)
    decreases v, 0
  {
    var a, b := Ordered(v.fields), Ordered(w.fields);
    OrderedPrintable(v.fields);
    OrderedPrintable(w.fields);
    forall i | 0 <= i < |a| ensures ToldOfAll(a[i], b) {
      assert a[i] in a;
      forall k | 0 <= k < |b| ensures Told(a[i].value, b[k].value) {
        assert b[k] in b;
        EqualWhenSame(a[i].value, b[k].value);
      }
    }
    AllPartnered(v, w);
    AllKnown(v, w);
    OrderedByKey(v.fields);
    OrderedByKey(w.fields);
    AgreeByKey(a, b);
    MembersAgree(v, w, a, b);
  }

  lemma {:induction false} ArraysTold(v: Js, w: Js)
    requires v.Array? && w.Array? && Printable(v) && Printable(w) && Valid(v) && Valid(w)
    ensures Told(v, w)
    decreases v, 0
  {
    var a, b := StripItems(v.items), StripItems(w.items);
    forall i | 0 <= i < |a| && |a| == |b| ensures a[i] == b[i] <==> Same(v.items[i], w.items[i]) {
      EqualWhenSame(v.items[i], w.items[i]);
    }
  }

  lemma {:induction false} EqualWhenSame(v: Js, w: Js)
    requires Printable(v) && Printable(w) && Valid(v) && Valid(w)
    ensures Told(v, w)
    decreases v
  {
    if v.Array? && w.Array? {
      ArraysTold(v, w);
    } else if v.Object? && w.Object? {
      ObjectsTold(v, w);
    } else {
      LeavesTold(v, w);
    }
  }

  predicate IsLeaf(v: Js) {
    !v.Array? && !v.Object?
  }

  /** The leaf a printed leaf reads back as. */
  function ReadLeaf(j: Json): Js {
    match j
    case JNull => Null
    case JBool(b) => Bool(b)
    case JNumber(text) => Number(Finite(text))
    case JText(text) => Text(text)
    case _ => Undefined
  }

  lemma LeafReads(v: Js)
    requires Printable(v) && IsLeaf(v)
    ensures ReadLeaf(Strip(v)) == Reading(v)
    ensures Printable(Reading(v)) && Strip(v) == Strip(Reading(v)) && !Strip(v).JArray? && !Strip(v).JObject?
  {
  }

  lemma ContainerStrips(v: Js)
    requires Printable(v) && !IsLeaf(v)
    ensures Strip(v).JArray? <==> v.Array?
    ensures Strip(v).JObject? <==> v.Object?
  {
  }

  lemma {:induction false} LeavesTold(v: Js, w: Js)
    requires Printable(v) && Printable(w) && !(v.Array? && w.Array?) && !(v.Object? && w.Object?)
    ensures Told(v, w)
  {
    if IsLeaf(v) { LeafReads(v); } else { ContainerStrips(v); }
    if IsLeaf(w) { LeafReads(w); } else { ContainerStrips(w); }
    SameLeaves(v, w);
  }

  lemma {:induction false} SameLeaves(v: Js, w: Js)
    requires !(v.Array? && w.Array?) && !(v.Object? && w.Object?)
    ensures Same(v, w) <==> IsLeaf(v) && IsLeaf(w) && Reading(v) == Reading(w)
  {
  }

  lemma {:induction false} StripIsNumeric(v: Js)
    requires Printable(v) && Valid(v)
    ensures Numeric(Strip(v))
    decreases v
  {
    match v
    case Array(items) =>
      forall i | 0 <= i < |items| ensures Numeric(Strip(items[i])) { StripIsNumeric(items[i]); }
    case Object(fields) =>
      var ordered := Ordered(fields);
      OrderedPrintable(fields);
      forall i | 0 <= i < |ordered| ensures Numeric(Strip(ordered[i].value)) {
        assert ordered[i] in ordered;
        StripIsNumeric(ordered[i].value);
      }
    case _ =>
  }

  /** Two values print the same bytes exactly when they are the same unordered document. */
  lemma BytesDecideSameness(v: Js, w: Js)
    requires Valid(v) && Valid(w)
    ensures CanonicalJson(v).Ok? <==> Printable(v)
    ensures CanonicalJson(v).Ok? && CanonicalJson(w).Ok? ==>
      (CanonicalJson(v) == CanonicalJson(w) <==> Same(v, w))
  {
    PrintsStripped(v);
    PrintsStripped(w);
    if Printable(v) && Printable(w) {
      StripIsNumeric(v);
      StripIsNumeric(w);
      PrintIsInjective(Strip(v), Strip(w));
      EqualWhenSame(v, w);
    }
  }

  /** The bytes alone give the stripped document back. */
  lemma BytesGiveTheDocument(v: Js)
    requires Valid(v) && CanonicalJson(v).Ok?
    ensures Printable(v) && ParseValue(CanonicalJson(v).value) == Some(Parsed(Strip(v), []))
  {
    PrintsStripped(v);
    StripIsNumeric(v);
    ReadsBack(Strip(v), []);
    assert Print(Strip(v)) + [] == Print(Strip(v));
  }

  /** The numbers printing confuses: zero with negative zero, null with everything not finite. */
  lemma SignedZeroAndNaNCollide()
    ensures CanonicalJson(Number(NegativeZero)) == CanonicalJson(Number(Finite([0x30])))
    ensures CanonicalJson(Number(NotFinite)) == CanonicalJson(Null)
  {
  }

  // ---- well-formed text ---------------------------------------------------------------

  lemma EscapeUnitIsWellFormed(u: Unit)
    ensures Utf8.WellFormed(EscapeUnit(u))
  {
    var e := EscapeUnit(u);
    forall k | 0 <= k < |e| ensures !Utf8.High(e[k]) && !Utf8.Low(e[k]) {}
  }

  lemma PairIsWellFormed(high: Unit, low: Unit)
    requires Utf8.High(high) && Utf8.Low(low)
    ensures Utf8.WellFormed([high, low])
  {
  }

  lemma {:induction false} EscapesAreWellFormed(text: Str, i: nat)
    requires i <= |text|
    ensures Utf8.WellFormed(EscapeFrom(text, i))
    decreases |text| - i
  {
    if i < |text| {
      if Utf8.Paired(text, i) {
        EscapesAreWellFormed(text, i + 2);
        PairIsWellFormed(text[i], text[i + 1]);
        HashFeed.WellFormedJoins([text[i], text[i + 1]], EscapeFrom(text, i + 2));
      } else {
        EscapesAreWellFormed(text, i + 1);
        EscapeUnitIsWellFormed(text[i]);
        HashFeed.WellFormedJoins(EscapeUnit(text[i]), EscapeFrom(text, i + 1));
      }
    }
  }

  lemma QuoteIsWellFormed(text: Str)
    ensures Utf8.WellFormed(Quote(text))
  {
    EscapesAreWellFormed(text, 0);
    HashFeed.WellFormedJoins([QUOTE], EscapeFrom(text, 0));
    HashFeed.WellFormedJoins([QUOTE] + EscapeFrom(text, 0), [QUOTE]);
  }

  lemma {:induction false} JoinIsWellFormed(parts: seq<Str>)
    requires forall i :: 0 <= i < |parts| ==> Utf8.WellFormed(parts[i])
    ensures Utf8.WellFormed(Join(parts))
  {
    if |parts| > 1 {
      JoinIsWellFormed(parts[1..]);
      HashFeed.WellFormedJoins(parts[0], [COMMA]);
      HashFeed.WellFormedJoins(parts[0] + [COMMA], Join(parts[1..]));
    }
  }

  lemma WrapIsWellFormed(open: Unit, text: Str, close: Unit)
    requires Utf8.WellFormed(text) && open < 0xD800 && close < 0xD800
    ensures Utf8.WellFormed([open] + text + [close])
  {
    HashFeed.WellFormedJoins([open], text);
    HashFeed.WellFormedJoins([open] + text, [close]);
  }

  lemma NumberIsWellFormed(text: Str)
    requires NumberText(text)
    ensures Utf8.WellFormed(text)
  {
    forall i | 0 <= i < |text| ensures !Utf8.High(text[i]) && !Utf8.Low(text[i]) { assert NumberUnit(text[i]); }
  }

  lemma ArrayIsWellFormed(items: seq<Json>)
    requires forall i :: 0 <= i < |items| ==> Utf8.WellFormed(Print(items[i]))
    ensures Utf8.WellFormed(Print(JArray(items)))
  {
    JoinIsWellFormed(Parts(items));
    WrapIsWellFormed(0x5B, Join(Parts(items)), 0x5D);
  }

  lemma ObjectIsWellFormed(members: seq<Member>)
    requires forall i :: 0 <= i < |members| ==> Utf8.WellFormed(Print(members[i].value))
    ensures Utf8.WellFormed(Print(JObject(members)))
  {
    forall i | 0 <= i < |members| ensures Utf8.WellFormed(MemberParts(members)[i]) { MemberIsWellFormed(members[i]); }
    JoinIsWellFormed(MemberParts(members));
    WrapIsWellFormed(0x7B, Join(MemberParts(members)), 0x7D);
  }

  /** JSON text never holds a lone surrogate, so a record stream of JSON rows loses nothing. */
  lemma {:induction false} PrintIsWellFormed(j: Json)
    requires Numeric(j)
    ensures Utf8.WellFormed(Print(j))
    decreases j
  {
    match j
    case JNull =>
    case JBool(_) =>
    case JNumber(text) => NumberIsWellFormed(text);
    case JText(text) => QuoteIsWellFormed(text);
    case JArray(items) =>
      forall i | 0 <= i < |items| ensures Utf8.WellFormed(Print(items[i])) { PrintIsWellFormed(items[i]); }
      ArrayIsWellFormed(items);
    case JObject(members) =>
      forall i | 0 <= i < |members| ensures Utf8.WellFormed(Print(members[i].value)) {
        PrintIsWellFormed(members[i].value);
      }
      ObjectIsWellFormed(members);
  }

  lemma {:induction false} MemberIsWellFormed(member: Member)
    requires Utf8.WellFormed(Print(member.value))
    ensures Utf8.WellFormed(PrintMember(member))
  {
    QuoteIsWellFormed(member.key);
    HashFeed.WellFormedJoins(Quote(member.key), [COLON]);
    HashFeed.WellFormedJoins(Quote(member.key) + [COLON], Print(member.value));
  }
}
