/**
 * The rows a proposal owns and their digest: every row becomes a JSON record of typed cells, every
 * table the hash of its sorted records, and the four hashes one more JSON text. The digest forgets
 * the order of rows and nothing else, as far as the hash tells the hashed texts apart.
 */
module OwnedRows {
  import opened CodeUnits
  import opened HashFeed
  import opened LayerRecords
  import opened Outcomes
  import opened RecordStream
  import opened Utf8
  import J = Canonical
  import JsonParser
  import JsonTheorems
  import Sorting

  datatype Owned = Owned(concepts: seq<Concept>, lexicon: seq<LexiconEntry>, anchors: seq<Anchor>, related: seq<Edge>)

  /** The same rows, in any order. */
  ghost predicate SameRows(a: Owned, b: Owned) {
    && multiset(a.concepts) == multiset(b.concepts) && multiset(a.lexicon) == multiset(b.lexicon)
    && multiset(a.anchors) == multiset(b.anchors) && multiset(a.related) == multiset(b.related)
  }

  // ---- cells ---------------------------------------------------------------------------------

  const COLON: Alphabet<Unit> := Alphabet(DIGITS, 0x3A)

  /** `canonicalScalar` of a text: its length in bytes comes first. */
  function TextCell(text: Str): Str {
    Lit("text:") + Decimal(COLON, |NodeBytes(text)|) + [COLON.separator] + text
  }

  function NumberCell(printed: Str): Str {
    Lit("number:") + printed
  }

  function OptionalCell(text: Option<Str>): Str {
    if text.Some? then TextCell(text.value) else Lit("null")
  }

  lemma TailsAgree(head: Str, a: Str, b: Str)
    requires head + a == head + b
    ensures a == b
  {
    assert a == (head + a)[|head|..] && b == (head + b)[|head|..];
  }

  lemma ColonIsValid()
    ensures COLON.Valid()
  {
    AlphabetsAreValid();
    assert SPACED.Valid() && COLON.digits == SPACED.digits;
  }

  lemma CountedTextReads(n: nat, text: Str)
    ensures ReadNumber(COLON, Decimal(COLON, n) + ([COLON.separator] + text), 0) == (n, [COLON.separator] + text)
  {
    ColonIsValid();
    DecimalReads(COLON, n, [COLON.separator] + text);
    assert ([COLON.separator] + text)[0] == COLON.separator;
  }

  lemma TextCellSplits(text: Str)
    ensures TextCell(text)
         == Lit("text:") + (Decimal(COLON, |NodeBytes(text)|) + ([COLON.separator] + text))
  {
    Reassociate(Lit("text:"), Decimal(COLON, |NodeBytes(text)|), [COLON.separator]);
    Reassociate(Lit("text:"), Decimal(COLON, |NodeBytes(text)|) + [COLON.separator], text);
    Reassociate(Decimal(COLON, |NodeBytes(text)|), [COLON.separator], text);
  }

  lemma TextCellIsInjective(a: Str, b: Str)
    requires TextCell(a) == TextCell(b)
    ensures a == b
  {
    TextCellSplits(a);
    TextCellSplits(b);
    CountedTextsAgree(|NodeBytes(a)|, a, |NodeBytes(b)|, b);
  }

  lemma CountedTextsAgree(m: nat, a: Str, n: nat, b: Str)
    requires Lit("text:") + (Decimal(COLON, m) + ([COLON.separator] + a))
          == Lit("text:") + (Decimal(COLON, n) + ([COLON.separator] + b))
    ensures a == b
  {
    TailsAgree(Lit("text:"), Decimal(COLON, m) + ([COLON.separator] + a), Decimal(COLON, n) + ([COLON.separator] + b));
    CountedTextReads(m, a);
    CountedTextReads(n, b);
    TailsAgree([COLON.separator], a, b);
  }

  lemma {:induction false} DecimalHead(n: nat)
    ensures Decimal(SPACED, n) != [] && Decimal(SPACED, n)[0] in DIGITS
  {
    if n >= 10 { DecimalHead(n / 10); }
  }

  lemma DecimalIsRead(n: nat)
    ensures ReadNumber(SPACED, Decimal(SPACED, n), 0) == (n, [])
  {
    AlphabetsAreValid();
    DecimalReads(SPACED, n, []);
    assert Decimal(SPACED, n) + [] == Decimal(SPACED, n);
  }

  lemma {:induction false} DecimalIsInjective(m: nat, n: nat)
    requires Decimal(SPACED, m) == Decimal(SPACED, n)
    ensures m == n
  {
    DecimalIsRead(m);
    DecimalIsRead(n);
  }

  /** Only a negative number starts with a minus sign. */
  lemma SignShows(n: int)
    ensures Number(n) != [] && (Number(n)[0] == 0x2D <==> n < 0)
  {
    DecimalHead(if n < 0 then -n else n);
  }

  lemma SameSign(m: int, n: int)
    requires Number(m) == Number(n)
    ensures m < 0 <==> n < 0
  {
    SignShows(m);
    SignShows(n);
  }

  lemma {:induction false} NegativeNumber(n: int)
    requires n < 0
    ensures Number(n) == [0x2D] + Decimal(SPACED, -n)
  {
  }

  lemma {:induction false} PlainNumber(n: int)
    requires n >= 0
    ensures Number(n) == Decimal(SPACED, n)
  {
  }

  lemma {:induction false} NegativesAgree(m: int, n: int)
    requires m < 0 && n < 0 && Number(m) == Number(n)
    ensures m == n
  {
    NegativeNumber(m);
    NegativeNumber(n);
    TailsAgree([0x2D], Decimal(SPACED, -m), Decimal(SPACED, -n));
    DecimalIsInjective(-m, -n);
  }

  lemma {:induction false} NumberIsInjective(m: int, n: int)
    requires Number(m) == Number(n)
    ensures m == n
  {
    SameSign(m, n);
    if m < 0 {
      NegativesAgree(m, n);
    } else {
      PlainNumber(m);
      PlainNumber(n);
      DecimalIsInjective(m, n);
    }
  }

  lemma NumberCellIsInjective(m: int, n: int)
    requires NumberCell(Number(m)) == NumberCell(Number(n))
    ensures m == n
  {
    TailsAgree(Lit("number:"), Number(m), Number(n));
    NumberIsInjective(m, n);
  }

  lemma OptionalCellIsInjective(a: Option<Str>, b: Option<Str>)
    requires OptionalCell(a) == OptionalCell(b)
    ensures a == b
  {
    assert Lit("null")[0] == 0x6E && Lit("text:")[0] == 0x74;
    if a.Some? && b.Some? { TextCellIsInjective(a.value, b.value); }
  }

  // ---- rows ------------------------------------------------------------------------------------

  /** A column and its cell. */
  function Cell(column: string, cell: Str): J.Member {
    J.Member(Lit(column), J.JText(cell))
  }

  /** The record of a row, its columns in key order. */
  function Record(cells: seq<J.Member>): Str {
    J.Print(J.JObject(cells))
  }

  predicate AllTexts(cells: seq<J.Member>) {
    forall i :: 0 <= i < |cells| ==> cells[i].value.JText?
  }

  lemma RecordIsInjective(a: seq<J.Member>, b: seq<J.Member>)
    requires AllTexts(a) && AllTexts(b) && Record(a) == Record(b)
    ensures a == b
  {
    JsonParser.PrintIsInjective(J.JObject(a), J.JObject(b));
  }

  lemma RecordIsWellFormed(cells: seq<J.Member>)
    requires AllTexts(cells)
    ensures WellFormed(Record(cells))
  {
    JsonTheorems.PrintIsWellFormed(J.JObject(cells));
  }

  function ConceptCells(c: Concept): seq<J.Member> {
    [Cell("id", TextCell(c.id)), Cell("label", TextCell(c.title))]
  }

  function EntryCells(e: LexiconEntry): seq<J.Member> {
    [Cell("concept_id", TextCell(e.conceptId)), Cell("normalized", TextCell(e.normalized)),
     Cell("phrase", TextCell(e.phrase)), Cell("token_count", NumberCell(Number(e.tokenCount)))]
  }

  function AnchorCells(a: Anchor): seq<J.Member> {
    [Cell("concept_id", TextCell(a.conceptId)), Cell("end_verse_id", NumberCell(Number(a.endVerseId))),
     Cell("locator", OptionalCell(a.locator)), Cell("source_id", TextCell(a.sourceId)),
     Cell("start_verse_id", NumberCell(Number(a.startVerseId))), Cell("weight", NumberCell(a.weight))]
  }

  function EdgeCells(e: Edge): seq<J.Member> {
    [Cell("concept_id", TextCell(e.conceptId)), Cell("related_id", TextCell(e.relatedId))]
  }

  function ConceptRow(c: Concept): Str { Record(ConceptCells(c)) }
  function EntryRow(e: LexiconEntry): Str { Record(EntryCells(e)) }
  function AnchorRow(a: Anchor): Str { Record(AnchorCells(a)) }
  function EdgeRow(e: Edge): Str { Record(EdgeCells(e)) }

  /** Each column's name comes before the next one's. */
  predicate InKeyOrder(cells: seq<J.Member>) {
    forall i :: 0 < i < |cells| ==> Less(cells[i - 1].key, cells[i].key)
  }

  lemma {:induction false} LessAfter(first: Unit, a: Str, b: Str)
    requires Less(a, b)
    ensures Less([first] + a, [first] + b)
  {
    assert ([first] + a)[1..] == a && ([first] + b)[1..] == b;
  }

  /** Names that differ in their first letter compare by it. */
  lemma {:induction false} FirstLetters(a: string, b: string)
    requires a != "" && b != "" && (a[0] as int) < (b[0] as int) < 0x80
    ensures Less(Lit(a), Lit(b))
  {
  }

  lemma LitAfter(first: char, rest: string)
    ensures Lit([first] + rest) == [((first as int) % 0x1_0000) as Unit] + Lit(rest)
  {
  }

  lemma SourceBeforeStart()
    ensures Less(Lit("source_id"), Lit("start_verse_id"))
  {
    FirstLetters("ource_id", "tart_verse_id");
    LessAfter(0x73, Lit("ource_id"), Lit("tart_verse_id"));
    LitAfter('s', "ource_id");
    LitAfter('s', "tart_verse_id");
  }

  lemma AnchorColumnsAscend(a: Anchor)
    ensures InKeyOrder(AnchorCells(a))
  {
    FirstLetters("concept_id", "end_verse_id");
    FirstLetters("end_verse_id", "locator");
    FirstLetters("locator", "source_id");
    SourceBeforeStart();
    FirstLetters("start_verse_id", "weight");
  }

  lemma EntryColumnsAscend(e: LexiconEntry)
    ensures InKeyOrder(EntryCells(e))
  {
    FirstLetters("concept_id", "normalized");
    FirstLetters("normalized", "phrase");
    FirstLetters("phrase", "token_count");
  }

  /** Every record has its columns in key order. */
  lemma ColumnsAscend(c: Concept, e: LexiconEntry, a: Anchor, r: Edge)
    ensures InKeyOrder(ConceptCells(c)) && InKeyOrder(EntryCells(e))
    ensures InKeyOrder(AnchorCells(a)) && InKeyOrder(EdgeCells(r))
  {
    FirstLetters("id", "label");
    FirstLetters("concept_id", "related_id");
    EntryColumnsAscend(e);
    AnchorColumnsAscend(a);
  }

  lemma ConceptRowIsInjective(a: Concept, b: Concept)
    requires ConceptRow(a) == ConceptRow(b)
    ensures a == b
  {
    var x, y := ConceptCells(a), ConceptCells(b);
    RecordIsInjective(x, y);
    assert x[0] == y[0] && x[1] == y[1];
    TextCellIsInjective(a.id, b.id);
    TextCellIsInjective(a.title, b.title);
  }

  lemma EntryRowIsInjective(a: LexiconEntry, b: LexiconEntry)
    requires EntryRow(a) == EntryRow(b)
    ensures a == b
  {
    var x, y := EntryCells(a), EntryCells(b);
    RecordIsInjective(x, y);
    assert x[0] == y[0] && x[1] == y[1] && x[2] == y[2] && x[3] == y[3];
    TextCellIsInjective(a.conceptId, b.conceptId);
    TextCellIsInjective(a.normalized, b.normalized);
    TextCellIsInjective(a.phrase, b.phrase);
    NumberCellIsInjective(a.tokenCount, b.tokenCount);
  }

  lemma AnchorRecordsAgree(a: Anchor, b: Anchor, x: seq<J.Member>, y: seq<J.Member>)
    requires x == AnchorCells(a) && y == AnchorCells(b) && Record(x) == Record(y)
    ensures x == y
  {
    RecordIsInjective(x, y);
  }

  lemma AnchorCellsAgree(a: Anchor, b: Anchor, x: seq<J.Member>, y: seq<J.Member>)
    requires x == AnchorCells(a) && y == AnchorCells(b) && x == y
    ensures TextCell(a.conceptId) == TextCell(b.conceptId) && TextCell(a.sourceId) == TextCell(b.sourceId)
    ensures NumberCell(Number(a.endVerseId)) == NumberCell(Number(b.endVerseId))
    ensures NumberCell(Number(a.startVerseId)) == NumberCell(Number(b.startVerseId))
    ensures OptionalCell(a.locator) == OptionalCell(b.locator) && NumberCell(a.weight) == NumberCell(b.weight)
  {
    assert x[0] == y[0] && x[1] == y[1] && x[2] == y[2] && x[3] == y[3] && x[4] == y[4] && x[5] == y[5];
  }

  lemma AnchorsAgree(a: Anchor, b: Anchor)
    requires TextCell(a.conceptId) == TextCell(b.conceptId) && TextCell(a.sourceId) == TextCell(b.sourceId)
    requires NumberCell(Number(a.endVerseId)) == NumberCell(Number(b.endVerseId))
    requires NumberCell(Number(a.startVerseId)) == NumberCell(Number(b.startVerseId))
    requires OptionalCell(a.locator) == OptionalCell(b.locator) && NumberCell(a.weight) == NumberCell(b.weight)
    ensures a == b
  {
    TextCellIsInjective(a.conceptId, b.conceptId);
    NumberCellIsInjective(a.endVerseId, b.endVerseId);
    OptionalCellIsInjective(a.locator, b.locator);
    TextCellIsInjective(a.sourceId, b.sourceId);
    NumberCellIsInjective(a.startVerseId, b.startVerseId);
    TailsAgree(Lit("number:"), a.weight, b.weight);
  }

  lemma AnchorRowIsInjective(a: Anchor, b: Anchor)
    requires AnchorRow(a) == AnchorRow(b)
    ensures a == b
  {
    AnchorRecordsAgree(a, b, AnchorCells(a), AnchorCells(b));
    AnchorCellsAgree(a, b, AnchorCells(a), AnchorCells(b));
    AnchorsAgree(a, b);
  }

  lemma EdgeRowIsInjective(a: Edge, b: Edge)
    requires EdgeRow(a) == EdgeRow(b)
    ensures a == b
  {
    var x, y := EdgeCells(a), EdgeCells(b);
    RecordIsInjective(x, y);
    assert x[0] == y[0] && x[1] == y[1];
    TextCellIsInjective(a.conceptId, b.conceptId);
    TextCellIsInjective(a.relatedId, b.relatedId);
  }

  // ---- tables --------------------------------------------------------------------------------------

  /** What a table has to know about its records: different rows have different, well-formed ones. */
  ghost predicate Faithful<T(!new)>(record: T -> Str) {
    (forall x, y :: record(x) == record(y) ==> x == y) && forall x :: WellFormed(record(x))
  }

  lemma {:induction false} RecordCounts<T(!new)>(record: T -> Str, rows: seq<T>, x: T)
    requires Faithful(record)
    ensures multiset(Records(record, rows))[record(x)] == multiset(rows)[x]
  {
    if rows != [] {
      var n := |rows| - 1;
      RecordCounts(record, rows[..n], x);
      assert rows == rows[..n] + [rows[n]];
      assert Records(record, rows) == Records(record, rows[..n]) + [record(rows[n])];
    }
  }

  /** Two tables hold the same records exactly when they hold the same rows. */
  lemma RecordsCountRows<T(!new)>(record: T -> Str, a: seq<T>, b: seq<T>)
    requires Faithful(record)
    ensures multiset(Records(record, a)) == multiset(Records(record, b)) <==> multiset(a) == multiset(b)
  {
    if multiset(Records(record, a)) == multiset(Records(record, b)) {
      forall x ensures multiset(a)[x] == multiset(b)[x] {
        RecordCounts(record, a, x);
        RecordCounts(record, b, x);
      }
    }
    if multiset(a) == multiset(b) {
      forall r ensures multiset(Records(record, a))[r] == multiset(Records(record, b))[r] {
        RecordsOf(record, a, b, r);
      }
    }
  }

  lemma RecordsOf<T(!new)>(record: T -> Str, a: seq<T>, b: seq<T>, r: Str)
    requires Faithful(record) && multiset(a) == multiset(b)
    ensures multiset(Records(record, a))[r] == multiset(Records(record, b))[r]
  {
    if x :| record(x) == r {
      RecordCounts(record, a, x);
      RecordCounts(record, b, x);
    } else {
      assert r !in Records(record, a) && r !in Records(record, b);
    }
  }

  /** The streams of two tables are equal exactly when the tables hold the same rows. */
  lemma StreamsCountRows<T(!new)>(record: T -> Str, a: seq<T>, b: seq<T>)
    requires Faithful(record)
    ensures RowStream(Records(record, a)) == RowStream(Records(record, b)) <==> multiset(a) == multiset(b)
  {
    RecordsCountRows(record, a, b);
    RowStreamCountsRows(Records(record, a), Records(record, b));
  }

  lemma RowsAreWellFormed()
    ensures forall x :: WellFormed(ConceptRow(x))
    ensures forall x :: WellFormed(EntryRow(x))
    ensures forall x :: WellFormed(AnchorRow(x))
    ensures forall x :: WellFormed(EdgeRow(x))
  {
    forall x ensures WellFormed(ConceptRow(x)) { RecordIsWellFormed(ConceptCells(x)); }
    forall x ensures WellFormed(EntryRow(x)) { RecordIsWellFormed(EntryCells(x)); }
    forall x ensures WellFormed(AnchorRow(x)) { RecordIsWellFormed(AnchorCells(x)); }
    forall x ensures WellFormed(EdgeRow(x)) { RecordIsWellFormed(EdgeCells(x)); }
  }

  lemma RowsAreFaithful()
    ensures Faithful(ConceptRow) && Faithful(EntryRow) && Faithful(AnchorRow) && Faithful(EdgeRow)
  {
    RowsAreWellFormed();
    forall x, y | ConceptRow(x) == ConceptRow(y) ensures x == y { ConceptRowIsInjective(x, y); }
    forall x, y | EntryRow(x) == EntryRow(y) ensures x == y { EntryRowIsInjective(x, y); }
    forall x, y | AnchorRow(x) == AnchorRow(y) ensures x == y { AnchorRowIsInjective(x, y); }
    forall x, y | EdgeRow(x) == EdgeRow(y) ensures x == y { EdgeRowIsInjective(x, y); }
  }

  // ---- the digest --------------------------------------------------------------------------------------

  /** The byte streams of the four tables. */
  datatype Streams = Streams(anchors: seq<Byte>, lexicon: seq<Byte>, related: seq<Byte>, concepts: seq<Byte>)

  function StreamsOf(rows: Owned): Streams {
    Streams(RowStream(Records(AnchorRow, rows.anchors)), RowStream(Records(EntryRow, rows.lexicon)),
            RowStream(Records(EdgeRow, rows.related)), RowStream(Records(ConceptRow, rows.concepts)))
  }

  /** The table digests under their names, in key order. */
  function Summary(anchors: Str, lexicon: Str, related: Str, concepts: Str): seq<Byte> {
    NodeBytes(Record([Cell("concept_anchors", anchors), Cell("concept_lexicon", lexicon),
                      Cell("concept_related", related), Cell("concepts", concepts)]))
  }

  function SummaryOf(sha256: seq<Byte> -> Str, s: Streams): seq<Byte> {
    Summary(sha256(s.anchors), sha256(s.lexicon), sha256(s.related), sha256(s.concepts))
  }

  function OwnedDigest(sha256: seq<Byte> -> Str, rows: Owned): Str {
    sha256(SummaryOf(sha256, StreamsOf(rows)))
  }

  /** `ownedDigest`, with one running hash for each table. */
  method DigestOwned(sha256: seq<Byte> -> Str, rows: Owned) returns (digest: Str)
    ensures digest == OwnedDigest(sha256, rows)
  {
    var anchors := DigestRows(Records(AnchorRow, rows.anchors), sha256);
    var lexicon := DigestRows(Records(EntryRow, rows.lexicon), sha256);
    var related := DigestRows(Records(EdgeRow, rows.related), sha256);
    var concepts := DigestRows(Records(ConceptRow, rows.concepts), sha256);
    digest := sha256(Summary(anchors, lexicon, related, concepts));
  }

  /** The streams are those of the same rows exactly when all four are equal. */
  lemma SameStreams(a: Owned, b: Owned)
    ensures StreamsOf(a) == StreamsOf(b) <==> SameRows(a, b)
  {
    RowsAreFaithful();
    StreamsCountRows(AnchorRow, a.anchors, b.anchors);
    StreamsCountRows(EntryRow, a.lexicon, b.lexicon);
    StreamsCountRows(EdgeRow, a.related, b.related);
    StreamsCountRows(ConceptRow, a.concepts, b.concepts);
  }

  lemma SummaryIsInjective(a: Str, b: Str, c: Str, d: Str, a': Str, b': Str, c': Str, d': Str)
    requires Summary(a, b, c, d) == Summary(a', b', c', d')
    ensures a == a' && b == b' && c == c' && d == d'
  {
    var x := [Cell("concept_anchors", a), Cell("concept_lexicon", b), Cell("concept_related", c), Cell("concepts", d)];
    var y := [Cell("concept_anchors", a'), Cell("concept_lexicon", b'), Cell("concept_related", c'), Cell("concepts", d')];
    RecordIsWellFormed(x);
    RecordIsWellFormed(y);
    RepairedIsWellFormed(Record(x));
    RepairedIsWellFormed(Record(y));
    EncodingIsInjective(Record(x), Record(y));
    RecordIsInjective(x, y);
    assert x[0] == y[0] && x[1] == y[1] && x[2] == y[2] && x[3] == y[3];
  }

  /** The hash does not confuse these two texts. */
  predicate Apart(sha256: seq<Byte> -> Str, x: seq<Byte>, y: seq<Byte>) {
    sha256(x) == sha256(y) ==> x == y
  }

  /** It confuses neither the streams of these two sets of rows nor their summaries. */
  predicate NoCollision(sha256: seq<Byte> -> Str, s: Streams, t: Streams) {
    && Apart(sha256, s.anchors, t.anchors) && Apart(sha256, s.lexicon, t.lexicon)
    && Apart(sha256, s.related, t.related) && Apart(sha256, s.concepts, t.concepts)
    && Apart(sha256, SummaryOf(sha256, s), SummaryOf(sha256, t))
  }

  lemma SummaryTells(sha256: seq<Byte> -> Str, s: Streams, t: Streams)
    requires NoCollision(sha256, s, t) && sha256(SummaryOf(sha256, s)) == sha256(SummaryOf(sha256, t))
    ensures s == t
  {
    SummaryIsInjective(sha256(s.anchors), sha256(s.lexicon), sha256(s.related), sha256(s.concepts),
                       sha256(t.anchors), sha256(t.lexicon), sha256(t.related), sha256(t.concepts));
  }

  /** The order of rows never matters. */
  lemma DigestForgetsOrder(sha256: seq<Byte> -> Str, a: Owned, b: Owned)
    requires SameRows(a, b)
    ensures OwnedDigest(sha256, a) == OwnedDigest(sha256, b)
  {
    SameStreams(a, b);
  }

  /** Two sets of rows have one digest exactly when they are the same, unless the hash confuses their own texts. */
  lemma DigestTells(sha256: seq<Byte> -> Str, a: Owned, b: Owned)
    requires NoCollision(sha256, StreamsOf(a), StreamsOf(b))
    ensures OwnedDigest(sha256, a) == OwnedDigest(sha256, b) <==> SameRows(a, b)
  {
    SameStreams(a, b);
    if OwnedDigest(sha256, a) == OwnedDigest(sha256, b) { SummaryTells(sha256, StreamsOf(a), StreamsOf(b)); }
  }
}
