/** The rows of the concept layer and the records its fingerprints are made of. */
module LayerRecords {
  import opened CodeUnits
  import opened HashFeed
  import opened Outcomes
  import opened RecordStream
  import opened Spelling
  import opened Texts
  import opened Utf8
  import Pericopes
  import Sorting

  datatype Concept = Concept(id: Str, title: Str)
  datatype LexiconEntry = LexiconEntry(conceptId: Str, phrase: Str, normalized: Str, tokenCount: nat)
  datatype Anchor = Anchor(conceptId: Str, startVerseId: int, endVerseId: int, sourceId: Str, weight: Str, locator: Option<Str>)
  datatype Edge = Edge(conceptId: Str, relatedId: Str)
  datatype Ontology = Ontology(concepts: seq<Concept>, lexicon: seq<LexiconEntry>, anchors: seq<Anchor>, related: seq<Edge>)

  type PericopeRow = Pericopes.Pericope
  datatype PhraseRow = PhraseRow(fromVerseId: int, phrase: Str, toStart: int, toEnd: int)

  datatype AliasTarget = OfConcept(conceptId: Str) | OfRange(startVerseId: int, endVerseId: int)
  datatype AliasRow = AliasRow(normalizedRaw: Str, title: Str, target: AliasTarget, sourceId: Str, weight: Str,
                               locator: Option<Str>)

  datatype Counts = Counts(topicAnchors: nat, crossReferences: nat, verseTerms: nat, translationTokens: nat)

  // ---- the order records are fed in ---------------------------------------------------

  predicate ConceptBefore(a: Concept, b: Concept) {
    Less(a.id, b.id)
  }

  predicate EntryBefore(a: LexiconEntry, b: LexiconEntry) {
    if a.conceptId != b.conceptId then Less(a.conceptId, b.conceptId) else Less(a.normalized, b.normalized)
  }

  predicate AnchorBefore(a: Anchor, b: Anchor) {
    if a.conceptId != b.conceptId then Less(a.conceptId, b.conceptId)
    else if a.startVerseId != b.startVerseId then a.startVerseId < b.startVerseId
    else Less(a.sourceId, b.sourceId)
  }

  predicate EdgeBefore(a: Edge, b: Edge) {
    if a.conceptId != b.conceptId then Less(a.conceptId, b.conceptId) else Less(a.relatedId, b.relatedId)
  }

  predicate PericopeBefore(a: PericopeRow, b: PericopeRow) {
    a.startVerseId < b.startVerseId
  }

  predicate PhraseBefore(a: PhraseRow, b: PhraseRow) {
    if a.fromVerseId != b.fromVerseId then a.fromVerseId < b.fromVerseId
    else if a.phrase != b.phrase then Less(a.phrase, b.phrase)
    else if a.toStart != b.toStart then a.toStart < b.toStart
    else a.toEnd < b.toEnd
  }

  // ---- records ---------------------------------------------------------------------------

  function Number(n: int): Str {
    if n < 0 then [0x2D] + Decimal(SPACED, -n) else Decimal(SPACED, n)
  }

  function Words(parts: seq<Str>): Str {
    JoinWith(parts, SPACE)
  }

  function ConceptRecord(c: Concept): Str {
    Words([Lit("c"), c.id, c.title])
  }

  function EntryRecord(e: LexiconEntry): Str {
    Words([Lit("l"), e.conceptId, e.normalized])
  }

  function AnchorRecord(a: Anchor): Str {
    Words([Lit("a"), a.conceptId, Number(a.startVerseId), Number(a.endVerseId), a.sourceId, a.weight])
  }

  function EdgeRecord(e: Edge): Str {
    Words([Lit("r"), e.conceptId, e.relatedId])
  }

  function PericopeRecord(p: PericopeRow): Str {
    Words([Lit("p"), Number(p.startVerseId), Number(p.endVerseId), Number(p.boundaryVotes)])
  }

  function PhraseRecord(p: PhraseRow): Str {
    Words([Lit("x"), Number(p.fromVerseId), p.phrase, Number(p.toStart), Number(p.toEnd)])
  }

  function CountsRecord(counts: Counts, pericopes: Option<seq<PericopeRow>>, phrases: Option<seq<PhraseRow>>): Str {
    Words([Lit("counts"), Number(counts.topicAnchors), Number(counts.crossReferences), Number(counts.verseTerms),
           Number(counts.translationTokens)]
          + (if pericopes.Some? then [Number(|pericopes.value|)] else [])
          + (if phrases.Some? then [Number(|phrases.value|)] else []))
  }

  function SpellingRecord(row: TermRow): Str {
    Words([Lit("s"), row.term, Number(row.documentCount), row.origins])
  }

  function AliasRecord(row: AliasRow): Str {
    Words([Lit("h"), row.normalizedRaw, row.title,
           match row.target
           case OfConcept(conceptId) => conceptId
           case OfRange(first, last) => Number(first) + [0x2D] + Number(last),
           row.sourceId, row.weight, if row.locator.Some? then row.locator.value else []])
  }

  function Records<T>(record: T -> Str, items: seq<T>): seq<Str> {
    seq(|items|, i requires 0 <= i < |items| => record(items[i]))
  }

  function OntologyRecords(ontology: Ontology): seq<Str> {
    Records(ConceptRecord, Sorting.Sort(ontology.concepts, ConceptBefore))
    + Records(EntryRecord, Sorting.Sort(ontology.lexicon, EntryBefore))
    + Records(AnchorRecord, Sorting.Sort(ontology.anchors, AnchorBefore))
    + Records(EdgeRecord, Sorting.Sort(ontology.related, EdgeBefore))
  }

  function PericopeRecords(pericopes: Option<seq<PericopeRow>>): seq<Str> {
    if pericopes.None? then [] else Records(PericopeRecord, Sorting.Sort(pericopes.value, PericopeBefore))
  }

  function PhraseRecords(phrases: Option<seq<PhraseRow>>): seq<Str> {
    if phrases.None? then [] else Records(PhraseRecord, phrases.value)
  }

  /** Everything the concept-layer fingerprint hashes. */
  function LayerFeed(ontology: Ontology, counts: Counts, pericopes: Option<seq<PericopeRow>>,
                     phrases: Option<seq<PhraseRow>>): seq<Str> {
    OntologyRecords(ontology) + PericopeRecords(pericopes) + PhraseRecords(phrases)
    + [CountsRecord(counts, pericopes, phrases)]
  }

  function SpellingHead(previous: Str, policy: Policy): seq<Str> {
    [Words([Lit("spelling-base"), previous]),
     Words([Lit("spelling-policy"), Number(policy.minTokenLength), Number(policy.edit1MaxLength)]),
     Words([Lit("spelling-gate-only"), Name(VerseTerms)])]
  }

  function SpellingFeed(previous: Str, policy: Policy, rows: seq<TermRow>): seq<Str> {
    SpellingHead(previous, policy) + Records(SpellingRecord, rows)
  }

  function AliasFeed(previous: Str, rows: seq<AliasRow>): seq<Str> {
    [Words([Lit("alias-base"), previous])] + Records(AliasRecord, rows)
  }

  // ---- the fingerprints ----------------------------------------------------------------------

  /** What this model leaves open: the hash, the edit policy, the order of SQL texts, the row digest. */
  datatype World = World(sha256: seq<Byte> -> Str, policy: Policy, binary: (Str, Str) -> bool)

  method FeedEach<T>(hash: Hash, items: seq<T>, record: T -> Str, ghost fed: seq<Str>)
    requires hash.met == Fed(fed)
    modifies hash
    ensures hash.met == Fed(fed + Records(record, items))
  {
    assert fed + Records(record, items[..0]) == fed;
    for i := 0 to |items|
      invariant hash.met == Fed(fed + Records(record, items[..i]))
    {
      hash.Feed(record(items[i]), fed + Records(record, items[..i]));
      assert fed + Records(record, items[..i + 1]) == fed + Records(record, items[..i]) + [record(items[i])];
    }
    assert items[..|items|] == items;
  }

  method FeedOntology(hash: Hash, ontology: Ontology)
    requires hash.met == Fed([])
    modifies hash
    ensures hash.met == Fed(OntologyRecords(ontology))
  {
    ghost var a := Records(ConceptRecord, Sorting.Sort(ontology.concepts, ConceptBefore));
    ghost var b := Records(EntryRecord, Sorting.Sort(ontology.lexicon, EntryBefore));
    ghost var c := Records(AnchorRecord, Sorting.Sort(ontology.anchors, AnchorBefore));
    assert [] + a == a;
    FeedEach(hash, Sorting.Sort(ontology.concepts, ConceptBefore), ConceptRecord, []);
    FeedEach(hash, Sorting.Sort(ontology.lexicon, EntryBefore), EntryRecord, a);
    FeedEach(hash, Sorting.Sort(ontology.anchors, AnchorBefore), AnchorRecord, a + b);
    FeedEach(hash, Sorting.Sort(ontology.related, EdgeBefore), EdgeRecord, a + b + c);
  }

  method FeedPericopes(hash: Hash, pericopes: Option<seq<PericopeRow>>, ghost fed: seq<Str>)
    requires hash.met == Fed(fed)
    modifies hash
    ensures hash.met == Fed(fed + PericopeRecords(pericopes))
  {
    if pericopes.Some? {
      FeedEach(hash, Sorting.Sort(pericopes.value, PericopeBefore), PericopeRecord, fed);
    } else {
      assert fed + [] == fed;
    }
  }

  method FeedPhrases(hash: Hash, phrases: Option<seq<PhraseRow>>, ghost fed: seq<Str>)
    requires hash.met == Fed(fed)
    modifies hash
    ensures hash.met == Fed(fed + PhraseRecords(phrases))
  {
    if phrases.Some? {
      FeedEach(hash, phrases.value, PhraseRecord, fed);
    } else {
      assert fed + [] == fed;
    }
  }

  method LayerFingerprint(world: World, ontology: Ontology, counts: Counts, pericopes: Option<seq<PericopeRow>>,
                          phrases: Option<seq<PhraseRow>>)
    returns (fingerprint: Str)
    ensures fingerprint == world.sha256(Fed(LayerFeed(ontology, counts, pericopes, phrases)))
  {
    var hash := new Hash();
    FeedOntology(hash, ontology);
    ghost var a := OntologyRecords(ontology);
    FeedPericopes(hash, pericopes, a);
    FeedPhrases(hash, phrases, a + PericopeRecords(pericopes));
    hash.Feed(CountsRecord(counts, pericopes, phrases), a + PericopeRecords(pericopes) + PhraseRecords(phrases));
    fingerprint := world.sha256(hash.met);
  }

  method FeedHead(hash: Hash, head: seq<Str>)
    requires hash.met == Fed([])
    modifies hash
    ensures hash.met == Fed(head)
  {
    for i := 0 to |head|
      invariant hash.met == Fed(head[..i])
    {
      hash.Feed(head[i], head[..i]);
      assert head[..i + 1] == head[..i] + [head[i]];
    }
    assert head[..|head|] == head;
  }

  method SpellingLayerFingerprint(world: World, previous: Str, rows: seq<TermRow>) returns (fingerprint: Str)
    ensures fingerprint == world.sha256(Fed(SpellingFeed(previous, world.policy, rows)))
  {
    var hash := new Hash();
    var head := SpellingHead(previous, world.policy);
    FeedHead(hash, head);
    FeedEach(hash, rows, SpellingRecord, head);
    fingerprint := world.sha256(hash.met);
  }

  method AliasLayerFingerprint(world: World, previous: Str, rows: seq<AliasRow>) returns (fingerprint: Str)
    ensures fingerprint == world.sha256(Fed(AliasFeed(previous, rows)))
  {
    var hash := new Hash();
    var head := [Words([Lit("alias-base"), previous])];
    FeedHead(hash, head);
    FeedEach(hash, rows, AliasRecord, head);
    fingerprint := world.sha256(hash.met);
  }
}
