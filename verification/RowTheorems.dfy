/**
 * What the digest of owned rows hashes, spelled out: the cells, the record of each row, the stream of
 * a table and the summary of the four tables.
 */
module RowTheorems {
  import opened CodeUnits
  import opened FeedTheorems
  import opened HashFeed
  import opened LayerRecords
  import opened Outcomes
  import opened OwnedRows
  import opened RecordStream
  import opened Utf8
  import J = Canonical
  import JsonBytes
  import JsonParser
  import JsonTheorems
  import Sorting

  // ---- cells -----------------------------------------------------------------------------------------

  lemma {:induction false} SameDigits(n: nat)
    ensures Decimal(OwnedRows.COLON, n) == Decimal(SPACED, n)
  {
    if n >= 10 { SameDigits(n / 10); }
  }

  /** A text cell says how many bytes its text has; a number, a missing locator and a present one follow suit. */
  lemma CellsSpell(text: Str, printed: Str) returns (length: Str)
    ensures IsNumeral(length) && NumeralValue(length) == |NodeBytes(text)|
    ensures TextCell(text) == Lit("text:") + length + [0x3A] + text
    ensures NumberCell(printed) == Lit("number:") + printed
    ensures OptionalCell(None) == Lit("null") && OptionalCell(Some(text)) == TextCell(text)
  {
    length := Decimal(SPACED, |NodeBytes(text)|);
    SameDigits(|NodeBytes(text)|);
    DecimalIsNumeral(|NodeBytes(text)|);
  }

  /** Node's bytes are those of the text with U+FFFD for every lone surrogate. */
  lemma RepairSpells(text: Str, i: nat)
    requires i < |text|
    ensures NodeBytes(text) == Encoded(Repaired(text)) && |Repaired(text)| == |text|
    ensures Repaired(text)[i]
         == if 0xD800 <= text[i] <= 0xDBFF && !(i + 1 < |text| && 0xDC00 <= text[i + 1] <= 0xDFFF) then 0xFFFD
            else if 0xDC00 <= text[i] <= 0xDFFF && !(i > 0 && 0xD800 <= text[i - 1] <= 0xDBFF) then 0xFFFD
            else text[i]
  {
  }

  // ---- records ---------------------------------------------------------------------------------------

  /** The text is well-formed and reads back as this document; any other such text of it is longer. */
  ghost predicate Spells(text: Str, j: J.Json) {
    && WellFormed(text) && JsonParser.ParseValue(text) == Some(JsonParser.Parsed(j, []))
    && forall other {:trigger JsonParser.ParseValue(other)} ::
         WellFormed(other) && JsonParser.ParseValue(other) == Some(JsonParser.Parsed(j, [])) && other != text ==>
           |text| < |other|
  }

  lemma RecordSpells(cells: seq<J.Member>)
    requires AllTexts(cells)
    ensures Spells(Record(cells), J.JObject(cells))
  {
    var j := J.JObject(cells);
    RecordIsWellFormed(cells);
    JsonParser.ReadsBack(j, []);
    assert J.Print(j) + [] == J.Print(j);
    forall other {:trigger JsonParser.ParseValue(other)}
      | WellFormed(other) && JsonParser.ParseValue(other) == Some(JsonParser.Parsed(j, [])) && other != J.Print(j)
      ensures |J.Print(j)| < |other|
    {
      JsonBytes.ValueIsShortest(other, j, []);
    }
  }

  /** A column that holds this cell. */
  function Column(name: string, cell: Str): J.Member {
    J.Member(Lit(name), J.JText(cell))
  }

  lemma ConceptRowSpells(c: Concept)
    ensures Spells(ConceptRow(c), J.JObject([Column("id", TextCell(c.id)), Column("label", TextCell(c.title))]))
  {
    RecordSpells(ConceptCells(c));
  }

  lemma EntryRowSpells(e: LexiconEntry)
    ensures Spells(EntryRow(e), J.JObject([
      Column("concept_id", TextCell(e.conceptId)), Column("normalized", TextCell(e.normalized)),
      Column("phrase", TextCell(e.phrase)), Column("token_count", NumberCell(Number(e.tokenCount)))]))
  {
    RecordSpells(EntryCells(e));
  }

  lemma AnchorRowSpells(a: Anchor)
    ensures Spells(AnchorRow(a), J.JObject([
      Column("concept_id", TextCell(a.conceptId)), Column("end_verse_id", NumberCell(Number(a.endVerseId))),
      Column("locator", OptionalCell(a.locator)), Column("source_id", TextCell(a.sourceId)),
      Column("start_verse_id", NumberCell(Number(a.startVerseId))), Column("weight", NumberCell(a.weight))]))
  {
    RecordSpells(AnchorCells(a));
  }

  lemma EdgeRowSpells(e: Edge)
    ensures Spells(EdgeRow(e), J.JObject([
      Column("concept_id", TextCell(e.conceptId)), Column("related_id", TextCell(e.relatedId))]))
  {
    RecordSpells(EdgeCells(e));
  }

  // ---- tables ----------------------------------------------------------------------------------------

  /** The bytes of an ASCII text. */
  function Ascii(text: Str): seq<Byte>
    requires forall i :: 0 <= i < |text| ==> text[i] < 0x80
  {
    seq(|text|, i requires 0 <= i < |text| => text[i] as Byte)
  }

  lemma {:induction false} ByteDigits(n: nat)
    ensures forall i :: 0 <= i < |Decimal(SPACED, n)| ==> Decimal(SPACED, n)[i] < 0x80
    ensures Decimal(COLONED, n) == Ascii(Decimal(SPACED, n))
  {
    DigitsAreUnits(n % 10);
    if n >= 10 { ByteDigits(n / 10); }
  }

  /** What a list of records contributes, one after the other. */
  function Contributed(records: seq<Str>): seq<Byte> {
    Stream(COLONED, BytesOf(records))
  }

  /** Each record goes in behind its length in bytes and a colon. */
  lemma RecordIsContributed(records: seq<Str>, record: Str) returns (length: Str)
    ensures IsNumeral(length) && NumeralValue(length) == |NodeBytes(record)|
    ensures Contributed([]) == []
    ensures Contributed(records + [record]) == Contributed(records) + Ascii(length) + [0x3A] + NodeBytes(record)
  {
    length := Decimal(SPACED, |NodeBytes(record)|);
    DecimalIsNumeral(|NodeBytes(record)|);
    ByteDigits(|NodeBytes(record)|);
    assert BytesOf(records + [record]) == BytesOf(records) + [NodeBytes(record)];
    StreamGrows(COLONED, BytesOf(records), NodeBytes(record));
  }

  /** A table is hashed as its records in code-unit order. */
  lemma TableSpells(records: seq<Str>) returns (lines: seq<Str>)
    ensures multiset(lines) == multiset(records)
    ensures forall i, j :: 0 <= i < j < |lines| ==> !Less(lines[j], lines[i])
    ensures RowStream(records) == Contributed(lines)
  {
    lines := Sorting.Sort(records, Less);
    LessSorts();
    Sorting.SortSorted(records, Less);
  }

  /** The digest hashes the four table hashes under their names. */
  lemma DigestSpells(sha256: seq<Byte> -> Str, rows: Owned) returns (summary: Str)
    ensures Spells(summary, J.JObject([
      Column("concept_anchors", sha256(RowStream(Records(AnchorRow, rows.anchors)))),
      Column("concept_lexicon", sha256(RowStream(Records(EntryRow, rows.lexicon)))),
      Column("concept_related", sha256(RowStream(Records(EdgeRow, rows.related)))),
      Column("concepts", sha256(RowStream(Records(ConceptRow, rows.concepts))))]))
    ensures OwnedDigest(sha256, rows) == sha256(NodeBytes(summary))
  {
    var s := StreamsOf(rows);
    var cells := [Cell("concept_anchors", sha256(s.anchors)), Cell("concept_lexicon", sha256(s.lexicon)),
                  Cell("concept_related", sha256(s.related)), Cell("concepts", sha256(s.concepts))];
    RecordSpells(cells);
    summary := Record(cells);
  }
}
