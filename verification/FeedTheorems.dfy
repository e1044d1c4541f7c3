/**
 * What the layer fingerprints hash, field by field: which records a feed holds and in which order,
 * how a record, a number and a length are spelled, and how the links are chained.
 */
module FeedTheorems {
  import opened CandidateLayer
  import opened CodeUnits
  import opened HashFeed
  import opened LayerRecords
  import opened Outcomes
  import opened RecordStream
  import opened Spelling
  import opened Texts
  import opened Utf8
  import OwnedRows
  import Sorting

  // ---- spelling ------------------------------------------------------------------------------------

  /** An ASCII literal is its characters' codes. */
  lemma LiteralSpells(text: string)
    requires forall i :: 0 <= i < |text| ==> text[i] as int < 0x80
    ensures |Lit(text)| == |text| && forall i :: 0 <= i < |text| ==> Lit(text)[i] as int == text[i] as int
  {
  }

  /** The value of a run of the digits 0-9. */
  function NumeralValue(digits: Str): int {
    if digits == [] then 0 else NumeralValue(digits[..|digits| - 1]) * 10 + (digits[|digits| - 1] as int - 0x30)
  }

  predicate IsNumeral(digits: Str) {
    digits != [] && (forall i :: 0 <= i < |digits| ==> 0x30 <= digits[i] <= 0x39)
    && (|digits| > 1 ==> digits[0] != 0x30)
  }

  lemma DigitsAreUnits(d: nat)
    requires d < 10
    ensures |DIGITS| == 10 && DIGITS[d] as int == 0x30 + d
    ensures |BYTE_DIGITS| == 10 && BYTE_DIGITS[d] as int == 0x30 + d
  {
  }

  lemma {:induction false} DecimalIsNumeral(n: nat)
    ensures IsNumeral(Decimal(SPACED, n)) && NumeralValue(Decimal(SPACED, n)) == n
    ensures n > 0 ==> Decimal(SPACED, n)[0] != 0x30
  {
    DigitsAreUnits(n % 10);
    if n < 10 {
      assert Decimal(SPACED, n) == [DIGITS[n]];
      assert [DIGITS[n]][..0] == [];
    } else {
      var front := Decimal(SPACED, n / 10);
      DecimalIsNumeral(n / 10);
      assert Decimal(SPACED, n) == front + [DIGITS[n % 10]];
      assert Decimal(SPACED, n)[..|front|] == front;
    }
  }

  /** A number is spelled in decimal without leading zeros, a negative one behind a minus sign. */
  lemma NumberSpells(n: int)
    ensures n >= 0 ==> IsNumeral(Number(n)) && NumeralValue(Number(n)) == n
    ensures n < 0 ==> |Number(n)| > 1 && Number(n)[0] == 0x2D && IsNumeral(Number(n)[1..])
                      && NumeralValue(Number(n)[1..]) == -n
  {
    DecimalIsNumeral(if n < 0 then -n else n);
    if n < 0 { assert Number(n)[1..] == Decimal(SPACED, -n); }
  }

  /** Each record goes in behind its length in units and a space, all of it as UTF-8. */
  lemma FedSpells(records: seq<Str>, record: Str) returns (length: Str)
    ensures IsNumeral(length) && NumeralValue(length) == |record|
    ensures Fed(records + [record])
         == Fed(records) + Encoded(length) + Encoded([0x20]) + Encoded(Repaired(record))
    ensures Fed([]) == []
  {
    length := Decimal(SPACED, |record|);
    DecimalIsNumeral(|record|);
    PrefixIsPlain(record, length, [0x20]);
    FeedAppends(records, record, length, [0x20]);
  }

  // ---- records -------------------------------------------------------------------------------------

  function ConceptLine(c: Concept): Str {
    JoinWith([[0x63], c.id, c.title], 0x20)
  }

  function EntryLine(e: LexiconEntry): Str {
    JoinWith([[0x6C], e.conceptId, e.normalized], 0x20)
  }

  function AnchorLine(a: Anchor): Str {
    JoinWith([[0x61], a.conceptId, Number(a.startVerseId), Number(a.endVerseId), a.sourceId, a.weight], 0x20)
  }

  function EdgeLine(e: Edge): Str {
    JoinWith([[0x72], e.conceptId, e.relatedId], 0x20)
  }

  function PericopeLine(p: PericopeRow): Str {
    JoinWith([[0x70], Number(p.startVerseId), Number(p.endVerseId), Number(p.boundaryVotes)], 0x20)
  }

  function PhraseLine(p: PhraseRow): Str {
    JoinWith([[0x78], Number(p.fromVerseId), p.phrase, Number(p.toStart), Number(p.toEnd)], 0x20)
  }

  /** Topic anchors, cross-references, verse terms and translation tokens; then sections, then phrases, if there are. */
  function CountsLine(counts: Counts, pericopes: Option<seq<PericopeRow>>, phrases: Option<seq<PhraseRow>>): Str {
    var base := [[0x63, 0x6F, 0x75, 0x6E, 0x74, 0x73], Number(counts.topicAnchors), Number(counts.crossReferences),
                 Number(counts.verseTerms), Number(counts.translationTokens)];
    match (pericopes, phrases)
    case (None, None) => JoinWith(base, 0x20)
    case (Some(rows), None) => JoinWith(base + [Number(|rows|)], 0x20)
    case (None, Some(lines)) => JoinWith(base + [Number(|lines|)], 0x20)
    case (Some(rows), Some(lines)) => JoinWith(base + [Number(|rows|), Number(|lines|)], 0x20)
  }

  lemma LineIsRecord()
    ensures Lit("c") == [0x63] && Lit("l") == [0x6C] && Lit("a") == [0x61] && Lit("r") == [0x72]
    ensures Lit("p") == [0x70] && Lit("x") == [0x78] && Lit("s") == [0x73] && Lit("h") == [0x68]
    ensures Lit("counts") == [0x63, 0x6F, 0x75, 0x6E, 0x74, 0x73]
  {
  }

  lemma ConceptsSpell(c: Concept)
    ensures ConceptRecord(c) == ConceptLine(c)
  {
    LineIsRecord();
  }

  lemma EntriesSpell(e: LexiconEntry)
    ensures EntryRecord(e) == EntryLine(e)
  {
    LineIsRecord();
  }

  lemma AnchorsSpell(a: Anchor)
    ensures AnchorRecord(a) == AnchorLine(a)
  {
    LineIsRecord();
  }

  lemma EdgesSpell(e: Edge)
    ensures EdgeRecord(e) == EdgeLine(e)
  {
    LineIsRecord();
  }

  lemma PericopesSpell(p: PericopeRow)
    ensures PericopeRecord(p) == PericopeLine(p)
  {
    LineIsRecord();
  }

  lemma PhrasesSpell(p: PhraseRow)
    ensures PhraseRecord(p) == PhraseLine(p)
  {
    LineIsRecord();
  }

  lemma CountsSpell(counts: Counts, pericopes: Option<seq<PericopeRow>>, phrases: Option<seq<PhraseRow>>)
    ensures CountsRecord(counts, pericopes, phrases) == CountsLine(counts, pericopes, phrases)
  {
    LineIsRecord();
    var base := [Lit("counts"), Number(counts.topicAnchors), Number(counts.crossReferences), Number(counts.verseTerms),
                 Number(counts.translationTokens)];
    assert base + [] + [] == base;
    if pericopes.Some? { assert base + [Number(|pericopes.value|)] + [] == base + [Number(|pericopes.value|)]; }
    if phrases.Some? {
      assert base + [] + [Number(|phrases.value|)] == base + [Number(|phrases.value|)];
      if pericopes.Some? {
        assert base + [Number(|pericopes.value|)] + [Number(|phrases.value|)]
            == base + [Number(|pericopes.value|), Number(|phrases.value|)];
      }
    }
  }

  // ---- the order of records ------------------------------------------------------------------------

  lemma TableIsSorted<T(!new)>(record: T -> Str, items: seq<T>, lt: (T, T) -> bool) returns (order: seq<int>)
    requires Sorting.StrictWeak(lt)
    ensures Sorting.Orders(items, lt, order) && |Records(record, Sorting.Sort(items, lt))| == |items|
    ensures forall k :: 0 <= k < |items| ==> Records(record, Sorting.Sort(items, lt))[k] == record(items[order[k]])
  {
    order := Sorting.SortOrders(items, lt);
  }

  /** Every position of a table of `n` rows once. */
  ghost predicate Lists(order: seq<int>, n: nat) {
    |order| == n && (forall k :: 0 <= k < n ==> 0 <= order[k] < n) && forall i :: 0 <= i < n ==> i in order
  }

  /** The concepts' lines by id. */
  ghost predicate ConceptsIn(concepts: seq<Concept>, order: seq<int>, lines: seq<Str>) {
    && Lists(order, |concepts|) && |lines| == |concepts|
    && (forall k :: 0 <= k < |concepts| ==> lines[k] == ConceptLine(concepts[order[k]]))
    && (forall k, l :: 0 <= k < l < |concepts| ==>
          var a, b := concepts[order[k]], concepts[order[l]];
          Less(a.id, b.id) || (a.id == b.id && order[k] < order[l]))
  }

  lemma ConceptBeforeSorts()
    ensures Sorting.StrictWeak(ConceptBefore)
  {
    LessSorts();
    forall a, b, c | !ConceptBefore(a, b) && !ConceptBefore(b, c) ensures !ConceptBefore(a, c) {
      assert !Less(a.id, b.id) && !Less(b.id, c.id);
    }
  }

  lemma ConceptsSorted(concepts: seq<Concept>) returns (order: seq<int>)
    ensures ConceptsIn(concepts, order, Records(ConceptRecord, Sorting.Sort(concepts, ConceptBefore)))
  {
    ConceptBeforeSorts();
    order := TableIsSorted(ConceptRecord, concepts, ConceptBefore);
    forall k | 0 <= k < |concepts| ensures ConceptRecord(concepts[order[k]]) == ConceptLine(concepts[order[k]]) {
      ConceptsSpell(concepts[order[k]]);
    }
    forall k, l | 0 <= k < l < |concepts|
      ensures var a, b := concepts[order[k]], concepts[order[l]];
        Less(a.id, b.id) || (a.id == b.id && order[k] < order[l])
    {
      assert Sorting.Earlier(concepts, ConceptBefore, order[k], order[l]);
      LessIsTotal(concepts[order[k]].id, concepts[order[l]].id);
    }
  }

  /** The lexicon's lines by concept, then by normalized phrase. */
  ghost predicate EntriesIn(lexicon: seq<LexiconEntry>, order: seq<int>, lines: seq<Str>) {
    && Lists(order, |lexicon|) && |lines| == |lexicon|
    && (forall k :: 0 <= k < |lexicon| ==> lines[k] == EntryLine(lexicon[order[k]]))
    && (forall k, l :: 0 <= k < l < |lexicon| ==>
          var a, b := lexicon[order[k]], lexicon[order[l]];
          || Less(a.conceptId, b.conceptId)
          || (a.conceptId == b.conceptId && Less(a.normalized, b.normalized))
          || (a.conceptId == b.conceptId && a.normalized == b.normalized && order[k] < order[l]))
  }

  lemma PairsSort(a: Str, a': Str, b: Str, b': Str, c: Str, c': Str)
    requires !(if a != b then Less(a, b) else Less(a', b')) && !(if b != c then Less(b, c) else Less(b', c'))
    ensures !(if a != c then Less(a, c) else Less(a', c'))
  {
    LessSorts();
    assert !Less(a, b) && !Less(b, c) ==> !Less(a, c);
    if a == b == c { assert !Less(a', b') && !Less(b', c'); }
  }

  lemma EntryBeforeSorts()
    ensures Sorting.StrictWeak(EntryBefore)
  {
    LessSorts();
    forall a, b, c | !EntryBefore(a, b) && !EntryBefore(b, c) ensures !EntryBefore(a, c) {
      LessIsStrict(a.conceptId);
      PairsSort(a.conceptId, a.normalized, b.conceptId, b.normalized, c.conceptId, c.normalized);
    }
  }

  lemma EntriesSorted(lexicon: seq<LexiconEntry>) returns (order: seq<int>)
    ensures EntriesIn(lexicon, order, Records(EntryRecord, Sorting.Sort(lexicon, EntryBefore)))
  {
    EntryBeforeSorts();
    order := TableIsSorted(EntryRecord, lexicon, EntryBefore);
    forall k | 0 <= k < |lexicon| ensures EntryRecord(lexicon[order[k]]) == EntryLine(lexicon[order[k]]) {
      EntriesSpell(lexicon[order[k]]);
    }
    forall k, l | 0 <= k < l < |lexicon|
      ensures var a, b := lexicon[order[k]], lexicon[order[l]];
        || Less(a.conceptId, b.conceptId)
        || (a.conceptId == b.conceptId && Less(a.normalized, b.normalized))
        || (a.conceptId == b.conceptId && a.normalized == b.normalized && order[k] < order[l])
    {
      var a, b := lexicon[order[k]], lexicon[order[l]];
      assert Sorting.Earlier(lexicon, EntryBefore, order[k], order[l]);
      LessIsTotal(a.conceptId, b.conceptId);
      LessIsTotal(a.normalized, b.normalized);
    }
  }

  /** The anchors' lines by concept, then by first verse, then by source. */
  ghost predicate AnchorsIn(anchors: seq<Anchor>, order: seq<int>, lines: seq<Str>) {
    && Lists(order, |anchors|) && |lines| == |anchors|
    && (forall k :: 0 <= k < |anchors| ==> lines[k] == AnchorLine(anchors[order[k]]))
    && (forall k, l :: 0 <= k < l < |anchors| ==> AnchorsAscend(anchors, order[k], order[l]))
  }

  predicate AnchorsAscend(anchors: seq<Anchor>, i: int, j: int)
    requires 0 <= i < |anchors| && 0 <= j < |anchors|
  {
    var a, b := anchors[i], anchors[j];
    || Less(a.conceptId, b.conceptId)
    || (a.conceptId == b.conceptId && a.startVerseId < b.startVerseId)
    || (a.conceptId == b.conceptId && a.startVerseId == b.startVerseId && Less(a.sourceId, b.sourceId))
    || (a.conceptId == b.conceptId && a.startVerseId == b.startVerseId && a.sourceId == b.sourceId && i < j)
  }

  lemma AnchorBeforeSorts()
    ensures Sorting.StrictWeak(AnchorBefore)
  {
    LessSorts();
    forall a, b, c | !AnchorBefore(a, b) && !AnchorBefore(b, c) ensures !AnchorBefore(a, c) { AnchorsSort(a, b, c); }
  }

  lemma AnchorsSort(a: Anchor, b: Anchor, c: Anchor)
    requires !AnchorBefore(a, b) && !AnchorBefore(b, c)
    ensures !AnchorBefore(a, c)
  {
    LessSorts();
    LessIsStrict(a.conceptId);
    assert !Less(a.conceptId, b.conceptId) && !Less(b.conceptId, c.conceptId);
    if a.conceptId == b.conceptId == c.conceptId && a.startVerseId == b.startVerseId == c.startVerseId {
      assert !Less(a.sourceId, b.sourceId) && !Less(b.sourceId, c.sourceId);
    }
  }

  lemma AnchorsSorted(anchors: seq<Anchor>) returns (order: seq<int>)
    ensures AnchorsIn(anchors, order, Records(AnchorRecord, Sorting.Sort(anchors, AnchorBefore)))
  {
    AnchorBeforeSorts();
    order := TableIsSorted(AnchorRecord, anchors, AnchorBefore);
    forall k | 0 <= k < |anchors| ensures AnchorRecord(anchors[order[k]]) == AnchorLine(anchors[order[k]]) {
      AnchorsSpell(anchors[order[k]]);
    }
    forall k, l | 0 <= k < l < |anchors| ensures AnchorsAscend(anchors, order[k], order[l]) {
      var a, b := anchors[order[k]], anchors[order[l]];
      assert Sorting.Earlier(anchors, AnchorBefore, order[k], order[l]);
      LessIsTotal(a.conceptId, b.conceptId);
      LessIsTotal(a.sourceId, b.sourceId);
    }
  }

  /** The related edges' lines by concept, then by related concept. */
  ghost predicate EdgesIn(related: seq<Edge>, order: seq<int>, lines: seq<Str>) {
    && Lists(order, |related|) && |lines| == |related|
    && (forall k :: 0 <= k < |related| ==> lines[k] == EdgeLine(related[order[k]]))
    && (forall k, l :: 0 <= k < l < |related| ==>
          var a, b := related[order[k]], related[order[l]];
          || Less(a.conceptId, b.conceptId)
          || (a.conceptId == b.conceptId && Less(a.relatedId, b.relatedId))
          || (a.conceptId == b.conceptId && a.relatedId == b.relatedId && order[k] < order[l]))
  }

  lemma EdgeBeforeSorts()
    ensures Sorting.StrictWeak(EdgeBefore)
  {
    LessSorts();
    forall a, b, c | !EdgeBefore(a, b) && !EdgeBefore(b, c) ensures !EdgeBefore(a, c) {
      LessIsStrict(a.conceptId);
      PairsSort(a.conceptId, a.relatedId, b.conceptId, b.relatedId, c.conceptId, c.relatedId);
    }
  }

  lemma EdgesSorted(related: seq<Edge>) returns (order: seq<int>)
    ensures EdgesIn(related, order, Records(EdgeRecord, Sorting.Sort(related, EdgeBefore)))
  {
    EdgeBeforeSorts();
    order := TableIsSorted(EdgeRecord, related, EdgeBefore);
    forall k | 0 <= k < |related| ensures EdgeRecord(related[order[k]]) == EdgeLine(related[order[k]]) {
      EdgesSpell(related[order[k]]);
    }
    forall k, l | 0 <= k < l < |related|
      ensures var a, b := related[order[k]], related[order[l]];
        || Less(a.conceptId, b.conceptId)
        || (a.conceptId == b.conceptId && Less(a.relatedId, b.relatedId))
        || (a.conceptId == b.conceptId && a.relatedId == b.relatedId && order[k] < order[l])
    {
      var a, b := related[order[k]], related[order[l]];
      assert Sorting.Earlier(related, EdgeBefore, order[k], order[l]);
      LessIsTotal(a.conceptId, b.conceptId);
      LessIsTotal(a.relatedId, b.relatedId);
    }
  }

  /** The sections' lines by first verse, if the schema has sections. */
  ghost predicate PericopesIn(pericopes: Option<seq<PericopeRow>>, order: seq<int>, lines: seq<Str>) {
    match pericopes
    case None => lines == []
    case Some(rows) =>
      && Lists(order, |rows|) && |lines| == |rows|
      && (forall k :: 0 <= k < |rows| ==> lines[k] == PericopeLine(rows[order[k]]))
      && (forall k, l :: 0 <= k < l < |rows| ==>
            var a, b := rows[order[k]], rows[order[l]];
            a.startVerseId < b.startVerseId || (a.startVerseId == b.startVerseId && order[k] < order[l]))
  }

  lemma PericopeBeforeSorts()
    ensures Sorting.StrictWeak(PericopeBefore)
  {
  }

  lemma PericopesSorted(pericopes: Option<seq<PericopeRow>>) returns (order: seq<int>)
    ensures PericopesIn(pericopes, order, PericopeRecords(pericopes))
  {
    order := [];
    if pericopes.Some? {
      PericopeBeforeSorts();
      var rows := pericopes.value;
      order := TableIsSorted(PericopeRecord, rows, PericopeBefore);
      forall k | 0 <= k < |rows| ensures PericopeRecord(rows[order[k]]) == PericopeLine(rows[order[k]]) {
        PericopesSpell(rows[order[k]]);
      }
      forall k, l | 0 <= k < l < |rows|
        ensures var a, b := rows[order[k]], rows[order[l]];
          a.startVerseId < b.startVerseId || (a.startVerseId == b.startVerseId && order[k] < order[l])
      {
        assert Sorting.Earlier(rows, PericopeBefore, order[k], order[l]);
      }
    }
  }

  /** The phrases' lines as the rows come, if the schema has phrases. */
  ghost predicate PhrasesIn(phrases: Option<seq<PhraseRow>>, lines: seq<Str>) {
    match phrases
    case None => lines == []
    case Some(rows) => |lines| == |rows| && forall k :: 0 <= k < |rows| ==> lines[k] == PhraseLine(rows[k])
  }

  lemma PhrasesListed(phrases: Option<seq<PhraseRow>>)
    ensures PhrasesIn(phrases, PhraseRecords(phrases))
  {
    if phrases.Some? {
      forall k | 0 <= k < |phrases.value| ensures PhraseRecord(phrases.value[k]) == PhraseLine(phrases.value[k]) {
        PhrasesSpell(phrases.value[k]);
      }
    }
  }

  /**
   * The concept-layer fingerprint hashes one line for every concept, lexicon entry, anchor, related
   * edge, section and phrase, table after table and each table in its order, and last the counts.
   */
  lemma LayerFeedSpells(ontology: Ontology, counts: Counts, pericopes: Option<seq<PericopeRow>>,
                        phrases: Option<seq<PhraseRow>>)
    returns (c: seq<Str>, l: seq<Str>, a: seq<Str>, r: seq<Str>, p: seq<Str>, x: seq<Str>,
             co: seq<int>, lo: seq<int>, ao: seq<int>, ro: seq<int>, po: seq<int>)
    ensures LayerFeed(ontology, counts, pericopes, phrases)
         == c + l + a + r + p + x + [CountsLine(counts, pericopes, phrases)]
    ensures ConceptsIn(ontology.concepts, co, c) && EntriesIn(ontology.lexicon, lo, l)
    ensures AnchorsIn(ontology.anchors, ao, a) && EdgesIn(ontology.related, ro, r)
    ensures PericopesIn(pericopes, po, p) && PhrasesIn(phrases, x)
  {
    c := Records(ConceptRecord, Sorting.Sort(ontology.concepts, ConceptBefore));
    l := Records(EntryRecord, Sorting.Sort(ontology.lexicon, EntryBefore));
    a := Records(AnchorRecord, Sorting.Sort(ontology.anchors, AnchorBefore));
    r := Records(EdgeRecord, Sorting.Sort(ontology.related, EdgeBefore));
    p, x := PericopeRecords(pericopes), PhraseRecords(phrases);
    co := ConceptsSorted(ontology.concepts);
    lo := EntriesSorted(ontology.lexicon);
    ao := AnchorsSorted(ontology.anchors);
    ro := EdgesSorted(ontology.related);
    po := PericopesSorted(pericopes);
    PhrasesListed(phrases);
    CountsSpell(counts, pericopes, phrases);
  }

  // ---- the records of each table -------------------------------------------------------------------

  /** The lines of a table's rows, each as often as it occurs. */
  function Lines<T>(line: T -> Str, rows: seq<T>): (lines: multiset<Str>)
  {
    if rows == [] then multiset{} else multiset{line(rows[0])} + Lines(line, rows[1..])
  }

  lemma {:induction false} RecordsAreLines<T>(record: T -> Str, rows: seq<T>)
    ensures multiset(Records(record, rows)) == Lines(record, rows)
  {
    if rows != [] {
      RecordsAreLines(record, rows[1..]);
      assert Records(record, rows) == [record(rows[0])] + Records(record, rows[1..]);
    }
  }

  lemma {:induction false} SameLines<T>(record: T -> Str, line: T -> Str, rows: seq<T>)
    requires forall i :: 0 <= i < |rows| ==> record(rows[i]) == line(rows[i])
    ensures Lines(record, rows) == Lines(line, rows)
  {
    if rows != [] { SameLines(record, line, rows[1..]); }
  }

  lemma {:induction false} InsertLines<T>(record: T -> Str, x: T, rows: seq<T>, lt: (T, T) -> bool)
    ensures Lines(record, Sorting.Insert(x, rows, lt)) == Lines(record, rows) + multiset{record(x)}
  {
    if rows == [] || !lt(rows[0], x) {
      assert ([x] + rows)[1..] == rows;
    } else {
      InsertLines(record, x, rows[1..], lt);
      var rest := Sorting.Insert(x, rows[1..], lt);
      assert ([rows[0]] + rest)[1..] == rest;
    }
  }

  lemma {:induction false} SortLines<T>(record: T -> Str, rows: seq<T>, lt: (T, T) -> bool)
    ensures Lines(record, Sorting.Sort(rows, lt)) == Lines(record, rows)
  {
    if rows != [] {
      SortLines(record, rows[1..], lt);
      InsertLines(record, rows[0], Sorting.Sort(rows[1..], lt), lt);
    }
  }

  lemma TableLines<T>(record: T -> Str, line: T -> Str, rows: seq<T>, lt: (T, T) -> bool)
    requires forall i :: 0 <= i < |rows| ==> record(rows[i]) == line(rows[i])
    ensures multiset(Records(record, Sorting.Sort(rows, lt))) == Lines(line, rows)
  {
    RecordsAreLines(record, Sorting.Sort(rows, lt));
    SortLines(record, rows, lt);
    SameLines(record, line, rows);
  }

  lemma AllSpell(ontology: Ontology)
    ensures forall i :: 0 <= i < |ontology.concepts| ==>
      ConceptRecord(ontology.concepts[i]) == ConceptLine(ontology.concepts[i])
    ensures forall i :: 0 <= i < |ontology.lexicon| ==>
      EntryRecord(ontology.lexicon[i]) == EntryLine(ontology.lexicon[i])
    ensures forall i :: 0 <= i < |ontology.anchors| ==>
      AnchorRecord(ontology.anchors[i]) == AnchorLine(ontology.anchors[i])
    ensures forall i :: 0 <= i < |ontology.related| ==> EdgeRecord(ontology.related[i]) == EdgeLine(ontology.related[i])
  {
    LineIsRecord();
  }

  function RowsOf<T>(rows: Option<seq<T>>): seq<T> {
    if rows.Some? then rows.value else []
  }

  lemma OntologyLines(ontology: Ontology)
    ensures multiset(OntologyRecords(ontology))
         == Lines(ConceptLine, ontology.concepts) + Lines(EntryLine, ontology.lexicon)
          + Lines(AnchorLine, ontology.anchors) + Lines(EdgeLine, ontology.related)
  {
    AllSpell(ontology);
    TableLines(ConceptRecord, ConceptLine, ontology.concepts, ConceptBefore);
    TableLines(EntryRecord, EntryLine, ontology.lexicon, EntryBefore);
    TableLines(AnchorRecord, AnchorLine, ontology.anchors, AnchorBefore);
    TableLines(EdgeRecord, EdgeLine, ontology.related, EdgeBefore);
  }

  lemma SectionLines(pericopes: Option<seq<PericopeRow>>)
    ensures multiset(PericopeRecords(pericopes)) == Lines(PericopeLine, RowsOf(pericopes))
  {
    if pericopes.Some? {
      var rows := pericopes.value;
      forall i | 0 <= i < |rows| ensures PericopeRecord(rows[i]) == PericopeLine(rows[i]) { PericopesSpell(rows[i]); }
      TableLines(PericopeRecord, PericopeLine, rows, PericopeBefore);
    }
  }

  lemma PhraseLines(phrases: Option<seq<PhraseRow>>)
    ensures multiset(PhraseRecords(phrases)) == Lines(PhraseLine, RowsOf(phrases))
  {
    if phrases.Some? {
      var rows := phrases.value;
      forall i | 0 <= i < |rows| ensures PhraseRecord(rows[i]) == PhraseLine(rows[i]) { PhrasesSpell(rows[i]); }
      RecordsAreLines(PhraseRecord, rows);
      SameLines(PhraseRecord, PhraseLine, rows);
    }
  }

  /**
   * The concept-layer feed holds the line of every concept, lexicon entry, anchor, related edge,
   * section and phrase as often as it occurs, one line of counts, and nothing else.
   */
  lemma FeedHoldsEveryRow(ontology: Ontology, counts: Counts, pericopes: Option<seq<PericopeRow>>,
                          phrases: Option<seq<PhraseRow>>)
    ensures multiset(LayerFeed(ontology, counts, pericopes, phrases))
         == Lines(ConceptLine, ontology.concepts) + Lines(EntryLine, ontology.lexicon)
          + Lines(AnchorLine, ontology.anchors) + Lines(EdgeLine, ontology.related)
          + Lines(PericopeLine, RowsOf(pericopes)) + Lines(PhraseLine, RowsOf(phrases))
          + multiset{CountsLine(counts, pericopes, phrases)}
  {
    OntologyLines(ontology);
    SectionLines(pericopes);
    PhraseLines(phrases);
    CountsSpell(counts, pericopes, phrases);
  }

  // ---- what the feed tells apart ---------------------------------------------------------------------

  /** The line opens with this letter and a space. */
  predicate Tagged(line: Str, tag: Unit) {
    |line| >= 2 && line[0] == tag && line[1] == 0x20
  }

  lemma JoinedIsTagged(tag: Unit, parts: seq<Str>)
    requires parts != []
    ensures Tagged(JoinWith([[tag]] + parts, 0x20), tag)
  {
    assert ([[tag]] + parts)[1..] == parts;
  }

  lemma CountsAreUntagged(counts: Counts, pericopes: Option<seq<PericopeRow>>, phrases: Option<seq<PhraseRow>>)
    ensures |CountsLine(counts, pericopes, phrases)| >= 2
    ensures CountsLine(counts, pericopes, phrases)[..2] == [0x63, 0x6F]
  {
    CountsSpell(counts, pericopes, phrases);
    LineIsRecord();
  }

  lemma {:induction false} OtherTag<T>(line: T -> Str, rows: seq<T>, tag: Unit, x: Str)
    requires (forall row :: row in rows ==> Tagged(line(row), tag)) && !Tagged(x, tag)
    ensures Lines(line, rows)[x] == 0
  {
    if rows != [] {
      assert rows[0] in rows;
      OtherTag(line, rows[1..], tag, x);
    }
  }

  /** How often `x` occurs in the feed, if it opens with this tag. */
  function Count(feed: seq<Str>, tag: Unit, x: Str): nat {
    if Tagged(x, tag) then multiset(feed)[x] else 0
  }

  lemma ConceptTags(rows: seq<Concept>, x: Str)
    ensures !Tagged(x, 0x63) ==> Lines(ConceptLine, rows)[x] == 0
  {
    forall row | row in rows ensures Tagged(ConceptLine(row), 0x63) { JoinedIsTagged(0x63, [row.id, row.title]); }
    if !Tagged(x, 0x63) { OtherTag(ConceptLine, rows, 0x63, x); }
  }

  lemma EntryTags(rows: seq<LexiconEntry>, x: Str)
    ensures !Tagged(x, 0x6C) ==> Lines(EntryLine, rows)[x] == 0
  {
    forall row | row in rows ensures Tagged(EntryLine(row), 0x6C) {
      JoinedIsTagged(0x6C, [row.conceptId, row.normalized]);
    }
    if !Tagged(x, 0x6C) { OtherTag(EntryLine, rows, 0x6C, x); }
  }

  lemma AnchorTags(rows: seq<Anchor>, x: Str)
    ensures !Tagged(x, 0x61) ==> Lines(AnchorLine, rows)[x] == 0
  {
    forall row | row in rows ensures Tagged(AnchorLine(row), 0x61) {
      JoinedIsTagged(0x61, [row.conceptId, Number(row.startVerseId), Number(row.endVerseId), row.sourceId, row.weight]);
    }
    if !Tagged(x, 0x61) { OtherTag(AnchorLine, rows, 0x61, x); }
  }

  lemma EdgeTags(rows: seq<Edge>, x: Str)
    ensures !Tagged(x, 0x72) ==> Lines(EdgeLine, rows)[x] == 0
  {
    forall row | row in rows ensures Tagged(EdgeLine(row), 0x72) {
      JoinedIsTagged(0x72, [row.conceptId, row.relatedId]);
    }
    if !Tagged(x, 0x72) { OtherTag(EdgeLine, rows, 0x72, x); }
  }

  lemma PericopeTags(rows: seq<PericopeRow>, x: Str)
    ensures !Tagged(x, 0x70) ==> Lines(PericopeLine, rows)[x] == 0
  {
    forall row | row in rows ensures Tagged(PericopeLine(row), 0x70) {
      JoinedIsTagged(0x70, [Number(row.startVerseId), Number(row.endVerseId), Number(row.boundaryVotes)]);
    }
    if !Tagged(x, 0x70) { OtherTag(PericopeLine, rows, 0x70, x); }
  }

  lemma PhraseTags(rows: seq<PhraseRow>, x: Str)
    ensures !Tagged(x, 0x78) ==> Lines(PhraseLine, rows)[x] == 0
  {
    forall row | row in rows ensures Tagged(PhraseLine(row), 0x78) {
      JoinedIsTagged(0x78, [Number(row.fromVerseId), row.phrase, Number(row.toStart), Number(row.toEnd)]);
    }
    if !Tagged(x, 0x78) { OtherTag(PhraseLine, rows, 0x78, x); }
  }

  lemma SumOfTables(c: multiset<Str>, l: multiset<Str>, a: multiset<Str>, r: multiset<Str>, p: multiset<Str>,
                    q: multiset<Str>, z: Str, x: Str)
    requires x != z
    ensures (c + l + a + r + p + q + multiset{z})[x] == c[x] + l[x] + a[x] + r[x] + p[x] + q[x]
  {
  }

  lemma EachTag(ontology: Ontology, pericopes: Option<seq<PericopeRow>>, phrases: Option<seq<PhraseRow>>, x: Str)
    ensures !Tagged(x, 0x63) ==> Lines(ConceptLine, ontology.concepts)[x] == 0
    ensures !Tagged(x, 0x6C) ==> Lines(EntryLine, ontology.lexicon)[x] == 0
    ensures !Tagged(x, 0x61) ==> Lines(AnchorLine, ontology.anchors)[x] == 0
    ensures !Tagged(x, 0x72) ==> Lines(EdgeLine, ontology.related)[x] == 0
    ensures !Tagged(x, 0x70) ==> Lines(PericopeLine, RowsOf(pericopes))[x] == 0
    ensures !Tagged(x, 0x78) ==> Lines(PhraseLine, RowsOf(phrases))[x] == 0
  {
    ConceptTags(ontology.concepts, x);
    EntryTags(ontology.lexicon, x);
    AnchorTags(ontology.anchors, x);
    EdgeTags(ontology.related, x);
    PericopeTags(RowsOf(pericopes), x);
    PhraseTags(RowsOf(phrases), x);
  }

  lemma FeedSum(ontology: Ontology, counts: Counts, pericopes: Option<seq<PericopeRow>>,
                phrases: Option<seq<PhraseRow>>, x: Str)
    ensures x != CountsLine(counts, pericopes, phrases) ==>
      multiset(LayerFeed(ontology, counts, pericopes, phrases))[x]
      == Lines(ConceptLine, ontology.concepts)[x] + Lines(EntryLine, ontology.lexicon)[x]
       + Lines(AnchorLine, ontology.anchors)[x] + Lines(EdgeLine, ontology.related)[x]
       + Lines(PericopeLine, RowsOf(pericopes))[x] + Lines(PhraseLine, RowsOf(phrases))[x]
  {
    FeedHoldsEveryRow(ontology, counts, pericopes, phrases);
    if x != CountsLine(counts, pericopes, phrases) {
      SumOfTables(Lines(ConceptLine, ontology.concepts), Lines(EntryLine, ontology.lexicon),
                  Lines(AnchorLine, ontology.anchors), Lines(EdgeLine, ontology.related),
                  Lines(PericopeLine, RowsOf(pericopes)), Lines(PhraseLine, RowsOf(phrases)),
                  CountsLine(counts, pericopes, phrases), x);
    }
  }

  /** A sum whose every part belongs to one tag. */
  lemma ByTag(x: Str, z: Str, total: nat, c: nat, l: nat, a: nat, r: nat, p: nat, q: nat)
    requires (!Tagged(x, 0x63) ==> c == 0) && (!Tagged(x, 0x6C) ==> l == 0) && (!Tagged(x, 0x61) ==> a == 0)
    requires (!Tagged(x, 0x72) ==> r == 0) && (!Tagged(x, 0x70) ==> p == 0) && (!Tagged(x, 0x78) ==> q == 0)
    requires x != z ==> total == c + l + a + r + p + q
    requires |z| >= 2 && z[..2] == [0x63, 0x6F]
    ensures c == (if Tagged(x, 0x63) then total else 0) && l == (if Tagged(x, 0x6C) then total else 0)
    ensures a == (if Tagged(x, 0x61) then total else 0) && r == (if Tagged(x, 0x72) then total else 0)
    ensures p == (if Tagged(x, 0x70) then total else 0) && q == (if Tagged(x, 0x78) then total else 0)
  {
    assert z[1] == z[..2][1] && z[0] == z[..2][0];
  }

  /** The feed alone says how often each line occurs in each table. */
  lemma TablesFromFeed(ontology: Ontology, counts: Counts, pericopes: Option<seq<PericopeRow>>,
                       phrases: Option<seq<PhraseRow>>, feed: seq<Str>, x: Str)
    requires feed == LayerFeed(ontology, counts, pericopes, phrases)
    ensures Lines(ConceptLine, ontology.concepts)[x] == Count(feed, 0x63, x)
    ensures Lines(EntryLine, ontology.lexicon)[x] == Count(feed, 0x6C, x)
    ensures Lines(AnchorLine, ontology.anchors)[x] == Count(feed, 0x61, x)
    ensures Lines(EdgeLine, ontology.related)[x] == Count(feed, 0x72, x)
    ensures Lines(PericopeLine, RowsOf(pericopes))[x] == Count(feed, 0x70, x)
    ensures Lines(PhraseLine, RowsOf(phrases))[x] == Count(feed, 0x78, x)
  {
    EachTag(ontology, pericopes, phrases, x);
    FeedSum(ontology, counts, pericopes, phrases, x);
    CountsAreUntagged(counts, pericopes, phrases);
    ByTag(x, CountsLine(counts, pericopes, phrases), multiset(feed)[x],
          Lines(ConceptLine, ontology.concepts)[x], Lines(EntryLine, ontology.lexicon)[x],
          Lines(AnchorLine, ontology.anchors)[x], Lines(EdgeLine, ontology.related)[x],
          Lines(PericopeLine, RowsOf(pericopes))[x], Lines(PhraseLine, RowsOf(phrases))[x]);
  }

  /** The lines are those of the feed with this tag. */
  ghost predicate ReadsOff(feed: seq<Str>, tag: Unit, lines: multiset<Str>) {
    forall x {:trigger lines[x]} :: lines[x] == Count(feed, tag, x)
  }

  lemma SameReading(feed: seq<Str>, tag: Unit, lines: multiset<Str>, lines': multiset<Str>)
    requires ReadsOff(feed, tag, lines) && ReadsOff(feed, tag, lines')
    ensures lines == lines'
  {
    forall x: Str ensures lines[x] == lines'[x] { }
  }

  lemma TablesReadOff(ontology: Ontology, counts: Counts, pericopes: Option<seq<PericopeRow>>,
                      phrases: Option<seq<PhraseRow>>, feed: seq<Str>)
    requires feed == LayerFeed(ontology, counts, pericopes, phrases)
    ensures ReadsOff(feed, 0x63, Lines(ConceptLine, ontology.concepts))
    ensures ReadsOff(feed, 0x6C, Lines(EntryLine, ontology.lexicon))
    ensures ReadsOff(feed, 0x61, Lines(AnchorLine, ontology.anchors))
    ensures ReadsOff(feed, 0x72, Lines(EdgeLine, ontology.related))
    ensures ReadsOff(feed, 0x70, Lines(PericopeLine, RowsOf(pericopes)))
    ensures ReadsOff(feed, 0x78, Lines(PhraseLine, RowsOf(phrases)))
  {
    forall x {:trigger Lines(ConceptLine, ontology.concepts)[x]}
      ensures Lines(ConceptLine, ontology.concepts)[x] == Count(feed, 0x63, x)
    {
      TablesFromFeed(ontology, counts, pericopes, phrases, feed, x);
    }
    forall x {:trigger Lines(EntryLine, ontology.lexicon)[x]}
      ensures Lines(EntryLine, ontology.lexicon)[x] == Count(feed, 0x6C, x)
    {
      TablesFromFeed(ontology, counts, pericopes, phrases, feed, x);
    }
    forall x {:trigger Lines(AnchorLine, ontology.anchors)[x]}
      ensures Lines(AnchorLine, ontology.anchors)[x] == Count(feed, 0x61, x)
    {
      TablesFromFeed(ontology, counts, pericopes, phrases, feed, x);
    }
    forall x {:trigger Lines(EdgeLine, ontology.related)[x]}
      ensures Lines(EdgeLine, ontology.related)[x] == Count(feed, 0x72, x)
    {
      TablesFromFeed(ontology, counts, pericopes, phrases, feed, x);
    }
    forall x {:trigger Lines(PericopeLine, RowsOf(pericopes))[x]}
      ensures Lines(PericopeLine, RowsOf(pericopes))[x] == Count(feed, 0x70, x)
    {
      TablesFromFeed(ontology, counts, pericopes, phrases, feed, x);
    }
    forall x {:trigger Lines(PhraseLine, RowsOf(phrases))[x]}
      ensures Lines(PhraseLine, RowsOf(phrases))[x] == Count(feed, 0x78, x)
    {
      TablesFromFeed(ontology, counts, pericopes, phrases, feed, x);
    }
  }

  /** Equal feeds mean the same lines in every table, each as often. */
  lemma EqualFeedsHoldEqualTables(o: Ontology, c: Counts, p: Option<seq<PericopeRow>>, x: Option<seq<PhraseRow>>,
                                  o': Ontology, c': Counts, p': Option<seq<PericopeRow>>, x': Option<seq<PhraseRow>>)
    requires LayerFeed(o, c, p, x) == LayerFeed(o', c', p', x')
    ensures Lines(ConceptLine, o.concepts) == Lines(ConceptLine, o'.concepts)
    ensures Lines(EntryLine, o.lexicon) == Lines(EntryLine, o'.lexicon)
    ensures Lines(AnchorLine, o.anchors) == Lines(AnchorLine, o'.anchors)
    ensures Lines(EdgeLine, o.related) == Lines(EdgeLine, o'.related)
    ensures Lines(PericopeLine, RowsOf(p)) == Lines(PericopeLine, RowsOf(p'))
    ensures Lines(PhraseLine, RowsOf(x)) == Lines(PhraseLine, RowsOf(x'))
  {
    var feed := LayerFeed(o, c, p, x);
    TablesReadOff(o, c, p, x, feed);
    TablesReadOff(o', c', p', x', feed);
    SameReading(feed, 0x63, Lines(ConceptLine, o.concepts), Lines(ConceptLine, o'.concepts));
    SameReading(feed, 0x6C, Lines(EntryLine, o.lexicon), Lines(EntryLine, o'.lexicon));
    SameReading(feed, 0x61, Lines(AnchorLine, o.anchors), Lines(AnchorLine, o'.anchors));
    SameReading(feed, 0x72, Lines(EdgeLine, o.related), Lines(EdgeLine, o'.related));
    SameReading(feed, 0x70, Lines(PericopeLine, RowsOf(p)), Lines(PericopeLine, RowsOf(p')));
    SameReading(feed, 0x78, Lines(PhraseLine, RowsOf(x)), Lines(PhraseLine, RowsOf(x')));
  }

  // ---- the later links -----------------------------------------------------------------------------

  function TermLine(row: TermRow): Str {
    JoinWith([[0x73], row.term, Number(row.documentCount), row.origins], 0x20)
  }

  /** The names of the five origins. */
  lemma OriginsSpell()
    ensures Name(Corpus) == Lit("corpus") && Name(Books) == Lit("books") && Name(Origin.Lexicon) == Lit("lexicon")
  {
  }

  lemma LaterOriginsSpell()
    ensures Name(Translations) == Lit("translations") && Name(VerseTerms) == Lit("verse_terms")
  {
  }

  lemma TermsSpell(row: TermRow)
    ensures SpellingRecord(row) == TermLine(row)
  {
    LineIsRecord();
  }

  lemma HeadSpells(previous: Str, policy: Policy)
    ensures SpellingHead(previous, policy)
         == [JoinWith([Lit("spelling-base"), previous], 0x20),
             JoinWith([Lit("spelling-policy"), Number(policy.minTokenLength), Number(policy.edit1MaxLength)], 0x20),
             JoinWith([Lit("spelling-gate-only"), Lit("verse_terms")], 0x20)]
  {
    LaterOriginsSpell();
  }

  /** The spelling link hashes the identity before it, the edit policy, the gate-only origin and every term in order. */
  lemma SpellingFeedSpells(previous: Str, policy: Policy, rows: seq<TermRow>)
    ensures |SpellingFeed(previous, policy, rows)| == 3 + |rows|
    ensures SpellingFeed(previous, policy, rows)[..3]
         == [JoinWith([Lit("spelling-base"), previous], 0x20),
             JoinWith([Lit("spelling-policy"), Number(policy.minTokenLength), Number(policy.edit1MaxLength)], 0x20),
             JoinWith([Lit("spelling-gate-only"), Lit("verse_terms")], 0x20)]
    ensures forall k :: 0 <= k < |rows| ==> SpellingFeed(previous, policy, rows)[3 + k] == TermLine(rows[k])
  {
    HeadSpells(previous, policy);
    var head := SpellingHead(previous, policy);
    forall k | 0 <= k < |rows| ensures SpellingFeed(previous, policy, rows)[3 + k] == TermLine(rows[k]) {
      TermsSpell(rows[k]);
      assert (head + Records(SpellingRecord, rows))[3 + k] == Records(SpellingRecord, rows)[k];
    }
  }

  /** The concept an alias leads to, or the ends of its range with a hyphen between. */
  function TargetText(target: AliasTarget): Str {
    match target
    case OfConcept(conceptId) => conceptId
    case OfRange(first, last) => Number(first) + [0x2D] + Number(last)
  }

  function AliasLine(row: AliasRow): Str {
    JoinWith([[0x68], row.normalizedRaw, row.title, TargetText(row.target), row.sourceId, row.weight,
              match row.locator case None => [] case Some(locator) => locator], 0x20)
  }

  lemma AliasesSpell(row: AliasRow)
    ensures AliasRecord(row) == AliasLine(row)
  {
    LineIsRecord();
  }

  /** The alias link hashes the identity before it and every alias in order. */
  lemma AliasFeedSpells(previous: Str, rows: seq<AliasRow>)
    ensures |AliasFeed(previous, rows)| == 1 + |rows|
    ensures AliasFeed(previous, rows)[0] == JoinWith([Lit("alias-base"), previous], 0x20)
    ensures forall k :: 0 <= k < |rows| ==> AliasFeed(previous, rows)[1 + k] == AliasLine(rows[k])
  {
    forall k | 0 <= k < |rows| ensures AliasFeed(previous, rows)[1 + k] == AliasLine(rows[k]) { AliasesSpell(rows[k]); }
  }

  // ---- the chain of links --------------------------------------------------------------------------

  predicate PhrasesAscend(a: PhraseRow, b: PhraseRow) {
    || a.fromVerseId < b.fromVerseId
    || (a.fromVerseId == b.fromVerseId && Less(a.phrase, b.phrase))
    || (a.fromVerseId == b.fromVerseId && a.phrase == b.phrase && a.toStart < b.toStart)
    || (a.fromVerseId == b.fromVerseId && a.phrase == b.phrase && a.toStart == b.toStart && a.toEnd <= b.toEnd)
  }

  lemma PhrasesRead(untouched: Untouched)
    ensures ReadPhrases(untouched).Some? <==> untouched.phrases.Some?
    ensures ReadPhrases(untouched).Some? ==>
      && multiset(ReadPhrases(untouched).value) == multiset(untouched.phrases.value)
      && (var rows := ReadPhrases(untouched).value;
          forall k, l :: 0 <= k < l < |rows| ==> PhrasesAscend(rows[k], rows[l]))
  {
    if untouched.phrases.Some? {
      var rows := Sorting.Sort(untouched.phrases.value, PhraseBefore);
      PhraseBeforeSorts();
      Sorting.SortSorted(untouched.phrases.value, PhraseBefore);
      forall k, l | 0 <= k < l < |rows| ensures PhrasesAscend(rows[k], rows[l]) {
        assert !PhraseBefore(rows[l], rows[k]);
        LessIsTotal(rows[k].phrase, rows[l].phrase);
      }
    }
  }

  lemma AliasesRead(world: World, untouched: Untouched)
    requires Orders(world)
    ensures multiset(ReadAliases(world, untouched)) == multiset(RowsOf(untouched.aliases))
    ensures var rows := ReadAliases(world, untouched);
      forall k, l :: 0 <= k < l < |rows| ==> !world.binary(rows[l].normalizedRaw, rows[k].normalizedRaw)
  {
    if untouched.aliases.Some? {
      var rows := ReadAliases(world, untouched);
      AliasesSort(world);
      Sorting.SortSorted(untouched.aliases.value, AliasBefore(world));
      forall k, l | 0 <= k < l < |rows| ensures !world.binary(rows[l].normalizedRaw, rows[k].normalizedRaw) {
        assert !AliasBefore(world)(rows[l], rows[k]);
      }
    }
  }

  /**
   * The identity of a layer: the concept link, over it the spelling link if there is a spelling index,
   * and over that the alias link if there is any alias, each the hash of its feed. Sections, phrases
   * and aliases are read whole, phrases and aliases in the order of their queries.
   */
  lemma IdentityIsChained(world: World, untouched: Untouched, ontology: Ontology, counts: Counts,
                          rows: Option<seq<TermRow>>)
    returns (concept: Str, spelled: Str, pericopes: Option<seq<PericopeRow>>, phrases: Option<seq<PhraseRow>>,
             aliases: seq<AliasRow>)
    requires Orders(world)
    ensures concept == world.sha256(Fed(LayerFeed(ontology, counts, pericopes, phrases)))
    ensures spelled == match rows
                       case None => concept
                       case Some(terms) => world.sha256(Fed(SpellingFeed(concept, world.policy, terms)))
    ensures Identity(world, untouched, ontology, counts, rows)
         == if aliases == [] then spelled else world.sha256(Fed(AliasFeed(spelled, aliases)))
    ensures (pericopes.Some? <==> untouched.pericopes.Some?) && (phrases.Some? <==> untouched.phrases.Some?)
    ensures pericopes.Some? ==> multiset(pericopes.value) == multiset(untouched.pericopes.value)
    ensures phrases.Some? ==> multiset(phrases.value) == multiset(untouched.phrases.value)
    ensures phrases.Some? ==>
      forall k, l :: 0 <= k < l < |phrases.value| ==> PhrasesAscend(phrases.value[k], phrases.value[l])
    ensures multiset(aliases) == multiset(RowsOf(untouched.aliases))
    ensures forall k, l :: 0 <= k < l < |aliases| ==> !world.binary(aliases[l].normalizedRaw, aliases[k].normalizedRaw)
  {
    pericopes, phrases, aliases := ReadPericopes(untouched), ReadPhrases(untouched), ReadAliases(world, untouched);
    PhrasesRead(untouched);
    AliasesRead(world, untouched);
    concept := ConceptLink(world, untouched, ontology, counts);
    spelled := if rows.Some? then SpellingLink(world, concept, rows.value) else concept;
  }

  // ---- which anchors ship, and what is counted -------------------------------------------------------

  /** A filter keeps exactly the rows that pass, in their order and as often as they occur. */
  lemma {:induction false} WhereKeeps<T(!new)>(keep: T -> bool, rows: seq<T>) returns (kept: seq<nat>)
    ensures |Where(keep, rows)| == |kept|
    ensures forall k :: 0 <= k < |kept| ==> kept[k] < |rows| && Where(keep, rows)[k] == rows[kept[k]]
    ensures forall k, l :: 0 <= k < l < |kept| ==> kept[k] < kept[l]
    ensures forall i :: 0 <= i < |rows| ==> (i in kept <==> keep(rows[i]))
  {
    if rows == [] {
      kept := [];
    } else {
      var n := |rows| - 1;
      var front := WhereKeeps(keep, rows[..n]);
      kept := front + if keep(rows[n]) then [n] else [];
      forall i | 0 <= i < |rows| ensures i in kept <==> keep(rows[i]) {
        if i < n { assert rows[..n][i] == rows[i]; }
      }
    }
  }

  /**
   * A candidate ships an anchor exactly when one of its ends is a verse of the corpus, or one of the
   * first four hundred ids from its start on is, up to its end; concepts, phrases and edges all ship.
   */
  lemma ShippedAnchors(ontology: Ontology, present: set<int>) returns (kept: seq<nat>)
    ensures var rows := CompiledRows(ontology, present);
      && rows.concepts == ontology.concepts && rows.lexicon == ontology.lexicon && rows.related == ontology.related
      && |rows.anchors| == |kept|
      && (forall k :: 0 <= k < |kept| ==> kept[k] < |ontology.anchors| && rows.anchors[k] == ontology.anchors[kept[k]])
    ensures forall k, l :: 0 <= k < l < |kept| ==> kept[k] < kept[l]
    ensures forall i :: 0 <= i < |ontology.anchors| ==>
      (i in kept <==>
         var first, last := ontology.anchors[i].startVerseId, ontology.anchors[i].endVerseId;
         || first in present || last in present
         || exists id :: first <= id <= last && id < first + 400 && id in present)
  {
    kept := WhereKeeps(Ships(present), ontology.anchors);
    forall i | 0 <= i < |ontology.anchors|
      ensures i in kept <==>
         var first, last := ontology.anchors[i].startVerseId, ontology.anchors[i].endVerseId;
         || first in present || last in present
         || exists id :: first <= id <= last && id < first + 400 && id in present
    {
      var anchor := ontology.anchors[i];
      assert Ships(present)(anchor) == RangePresent(anchor.startVerseId, anchor.endVerseId, present);
    }
  }

  /** The four counts: topic anchors by their source, and the rows of three tables. */
  lemma CountsAreCounted(untouched: Untouched, anchors: seq<Anchor>) returns (topics: seq<nat>)
    ensures forall i :: 0 <= i < |anchors| ==> (i in topics <==> anchors[i].sourceId == Lit("openbible-topics"))
    ensures forall k, l :: 0 <= k < l < |topics| ==> topics[k] < topics[l]
    ensures forall k :: 0 <= k < |topics| ==> topics[k] < |anchors|
    ensures CountsOf(untouched, anchors)
         == Counts(|topics|, untouched.crossReferences, |untouched.verseTerms|, |untouched.translationTokens|)
  {
    topics := WhereKeeps(IsTopic, anchors);
  }

  /**
   * The prediction is refused for a base whose installed rows or identity are not the reviewed ones, then
   * for a candidate whose rows digest like the installed ones, then for a base without an identity.
   */
  lemma RefusalsSpell(world: World, digest: OwnedRows.Owned -> Str, db: Database, base: Ontology,
                      candidate: Ontology, descriptorLayer: Str)
    ensures var refusal := Refusal(world, digest, db, base, candidate, descriptorLayer);
      var present, installed := db.untouched.present, digest(Installed(db));
      var reviewed := digest(CompiledRows(base, present)) == installed
                      && Carries(world, db, base, db.lexicon, descriptorLayer);
      var moves := digest(CompiledRows(candidate, present)) != installed;
      && (refusal == Some(SnapshotMismatch) <==> !reviewed)
      && (refusal == Some(NoMeasurableEffect) <==> reviewed && !moves)
      && (refusal == Some(BaseArtifactInvalid) <==> reviewed && moves && Lit("layer_fingerprint") !in db.meta)
      && (refusal == None <==> reviewed && moves && Lit("layer_fingerprint") in db.meta)
  {
  }
}
