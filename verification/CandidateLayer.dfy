/**
 * The candidate database: the layer a proposal installs, the spelling index rebuilt over it, the
 * alias links chained last, and the read-only prediction that must agree with all three.
 */
module CandidateLayer {
  import opened CodeUnits
  import opened HashFeed
  import opened LayerRecords
  import opened Outcomes
  import opened OwnedRows
  import opened Spelling
  import Sorting

  const TOPICS: Str := Lit("openbible-topics")
  const LAYER: Str := Lit("layer_fingerprint")

  /** The tables a candidate copies and never writes. */
  datatype Untouched = Untouched(present: set<int>, corpusTokens: seq<CorpusToken>, bookAliases: seq<Str>,
                                 translationTokens: seq<Str>, verseTerms: seq<Str>, crossReferences: nat,
                                 pericopes: Option<seq<PericopeRow>>, phrases: Option<seq<PhraseRow>>,
                                 aliases: Option<seq<AliasRow>>)
  {
    /** Section starts and alias keys are unique, as their writer and their schema see to. */
    ghost predicate Keyed() {
      && (pericopes.Some? ==> forall i, j :: 0 <= i < j < |pericopes.value| ==>
            pericopes.value[i].startVerseId != pericopes.value[j].startVerseId)
      && (aliases.Some? ==> forall i, j :: 0 <= i < j < |aliases.value| ==>
            aliases.value[i].normalizedRaw != aliases.value[j].normalizedRaw)
    }
  }

  datatype SpellingTables = SpellingTables(terms: seq<TermRow>, deletes: seq<DeleteRow>)


  class Database {
    var untouched: Untouched
    var concepts: seq<Concept>
    var lexicon: seq<LexiconEntry>
    var anchors: seq<Anchor>
    var related: seq<Edge>
    var spelling: Option<SpellingTables>
    var meta: map<Str, Str>

    constructor (untouched: Untouched, owned: Owned, spelling: Option<SpellingTables>, meta: map<Str, Str>)
      ensures this.untouched == untouched && concepts == owned.concepts && lexicon == owned.lexicon
      ensures anchors == owned.anchors && related == owned.related && this.spelling == spelling && this.meta == meta
    {
      this.untouched, this.spelling, this.meta := untouched, spelling, meta;
      concepts, lexicon, anchors, related := owned.concepts, owned.lexicon, owned.anchors, owned.related;
    }
  }

  // ---- reading ----------------------------------------------------------------------------

  /** `SELECT` without `ORDER BY`: callers may count on the rows, not on their order. */
  method Select<T>(table: seq<T>) returns (rows: seq<T>)
    ensures multiset(rows) == multiset(table)
  {
    rows := table;
  }

  /** `SELECT DISTINCT`: the different rows in any order. */
  method SelectDistinct<T(==)>(table: seq<T>) returns (rows: seq<T>)
    ensures forall x :: x in rows <==> x in table
  {
    rows := Sorting.Listing(set x | x in table);
  }

  predicate IsTopic(anchor: Anchor) {
    anchor.sourceId == TOPICS
  }

  function Where<T(!new)>(keep: T -> bool, rows: seq<T>): (kept: seq<T>)
    ensures forall x :: x in kept <==> x in rows && keep(x)
  {
    if rows == [] then []
    else Where(keep, rows[..|rows| - 1]) + if keep(rows[|rows| - 1]) then [rows[|rows| - 1]] else []
  }

  function TopicRows(anchors: seq<Anchor>): seq<Anchor> {
    Where(IsTopic, anchors)
  }

  function EditorialRows(anchors: seq<Anchor>): seq<Anchor> {
    Where((a: Anchor) => !IsTopic(a), anchors)
  }

  function AliasBefore(world: World): (AliasRow, AliasRow) -> bool {
    (a: AliasRow, b: AliasRow) => world.binary(a.normalizedRaw, b.normalizedRaw)
  }

  /** The reads below are functions of the tables, whatever order SQL returns rows in. */
  function ReadPericopes(untouched: Untouched): Option<seq<PericopeRow>> {
    if untouched.pericopes.None? then None
    else Some(Sorting.Sort(untouched.pericopes.value, PericopeBefore))
  }

  function ReadPhrases(untouched: Untouched): Option<seq<PhraseRow>> {
    if untouched.phrases.None? then None else Some(Sorting.Sort(untouched.phrases.value, PhraseBefore))
  }

  function ReadAliases(world: World, untouched: Untouched): seq<AliasRow> {
    if untouched.aliases.None? then []
    else Sorting.Sort(untouched.aliases.value, AliasBefore(world))
  }

  /** SQL's text order is a strict total order. */
  ghost predicate Orders(world: World) {
    Sorting.StrictWeak(world.binary) && forall a, b :: a == b || world.binary(a, b) || world.binary(b, a)
  }

  lemma PhraseBeforeSorts()
    ensures Sorting.StrictWeak(PhraseBefore)
    ensures forall a, b :: a == b || PhraseBefore(a, b) || PhraseBefore(b, a)
  {
    LessSorts();
    forall a, b, c | !PhraseBefore(a, b) && !PhraseBefore(b, c) ensures !PhraseBefore(a, c) {
      if a.fromVerseId == b.fromVerseId == c.fromVerseId {
        assert a.phrase == b.phrase || !Less(a.phrase, b.phrase);
        assert b.phrase == c.phrase || !Less(b.phrase, c.phrase);
      }
    }
  }

  method QueryPericopes(db: Database) returns (rows: Option<seq<PericopeRow>>)
    requires db.untouched.Keyed()
    ensures rows == ReadPericopes(db.untouched)
  {
    if db.untouched.pericopes.None? { return None; }
    var table := db.untouched.pericopes.value;
    var listed := Select(table);
    Sorting.SamePresence(table, listed);
    assert Sorting.Distinct(table);
    Sorting.DistinctByCount(table, listed);
    Sorting.SortForgetsOrder(table, listed, PericopeBefore);
    rows := Some(Sorting.Sort(listed, PericopeBefore));
  }

  method QueryPhrases(db: Database) returns (rows: Option<seq<PhraseRow>>)
    ensures rows == ReadPhrases(db.untouched)
  {
    if db.untouched.phrases.None? { return None; }
    var table := db.untouched.phrases.value;
    var listed := Select(table);
    PhraseBeforeSorts();
    Sorting.SortSorted(table, PhraseBefore);
    Sorting.SortSorted(listed, PhraseBefore);
    Sorting.SortedUnique(Sorting.Sort(table, PhraseBefore), Sorting.Sort(listed, PhraseBefore), PhraseBefore);
    rows := Some(Sorting.Sort(listed, PhraseBefore));
  }

  method QueryAliases(world: World, db: Database) returns (rows: seq<AliasRow>)
    requires Orders(world) && db.untouched.Keyed()
    ensures rows == ReadAliases(world, db.untouched)
  {
    if db.untouched.aliases.None? { return []; }
    var before := AliasBefore(world);
    var table := db.untouched.aliases.value;
    var listed := Select(table);
    AliasesSort(world);
    Sorting.SamePresence(table, listed);
    assert Sorting.Distinct(table);
    Sorting.DistinctByCount(table, listed);
    AliasKeysSeparate(world, table);
    Sorting.SortForgetsOrder(table, listed, before);
    rows := Sorting.Sort(listed, before);
  }

  lemma AliasesSort(world: World)
    requires Orders(world)
    ensures Sorting.StrictWeak(AliasBefore(world))
  {
    var before := AliasBefore(world);
    forall a, b | before(a, b) ensures !before(b, a) {
      assert world.binary(a.normalizedRaw, b.normalizedRaw);
    }
    forall a, b, c | !before(a, b) && !before(b, c) ensures !before(a, c) {
      assert !world.binary(a.normalizedRaw, b.normalizedRaw) && !world.binary(b.normalizedRaw, c.normalizedRaw);
    }
  }

  lemma AliasKeysSeparate(world: World, table: seq<AliasRow>)
    requires Orders(world)
    requires forall i, j :: 0 <= i < j < |table| ==> table[i].normalizedRaw != table[j].normalizedRaw
    ensures forall a, b :: a in table && b in table && a != b ==> AliasBefore(world)(a, b) || AliasBefore(world)(b, a)
  {
    forall a, b | a in table && b in table && a != b ensures AliasBefore(world)(a, b) || AliasBefore(world)(b, a) {
      var i :| 0 <= i < |table| && table[i] == a;
      var j :| 0 <= j < |table| && table[j] == b;
      assert i < j || j < i;
    }
  }

  // ---- the spelling sources ----------------------------------------------------------------

  function Normalized(lexicon: seq<LexiconEntry>): seq<Str> {
    seq(|lexicon|, i requires 0 <= i < |lexicon| => lexicon[i].normalized)
  }

  /** The vocabulary sources, once order and repetition are forgotten. */
  function LayerSightings(untouched: Untouched, lexicon: seq<LexiconEntry>): set<Sighting> {
    SightingsOf(Sources(untouched.corpusTokens, untouched.bookAliases, Normalized(lexicon),
                        untouched.translationTokens, untouched.verseTerms))
  }

  method ReadSources(db: Database, lexicon: seq<LexiconEntry>) returns (sources: Sources)
    ensures SightingsOf(sources) == LayerSightings(db.untouched, lexicon)
  {
    var corpus := Select(db.untouched.corpusTokens);
    var keys := Select(db.untouched.bookAliases);
    var normalized := SelectDistinct(Normalized(lexicon));
    var tokens := SelectDistinct(db.untouched.translationTokens);
    var terms := SelectDistinct(db.untouched.verseTerms);
    sources := Sources(corpus, keys, normalized, tokens, terms);
    Sorting.SamePresence(corpus, db.untouched.corpusTokens);
    Sorting.SamePresence(keys, db.untouched.bookAliases);
    SameSightings(sources, Sources(db.untouched.corpusTokens, db.untouched.bookAliases, Normalized(lexicon),
                                   db.untouched.translationTokens, db.untouched.verseTerms));
  }

  // ---- the rows a proposal compiles to --------------------------------------------------------

  /** Some verse of the range is present; only the first 400 ids are looked at between the ends. */
  predicate RangePresent(first: int, last: int, present: set<int>) {
    first in present || last in present || exists id :: first <= id <= last && id - first < 400 && id in present
  }

  method ProbeRange(first: int, last: int, present: set<int>) returns (found: bool)
    ensures found <==> RangePresent(first, last, present)
  {
    if first in present || last in present { return true; }
    var id := first;
    while id <= last && id - first < 400
      invariant first <= id
      invariant forall k :: first <= k < id ==> k !in present
      decreases last - id
    {
      if id in present { return true; }
      id := id + 1;
    }
    return false;
  }

  function Ships(present: set<int>): Anchor -> bool {
    (a: Anchor) => RangePresent(a.startVerseId, a.endVerseId, present)
  }

  function CompiledRows(ontology: Ontology, present: set<int>): Owned {
    Owned(ontology.concepts, ontology.lexicon, Where(Ships(present), ontology.anchors), ontology.related)
  }

  method CompiledOwnedRows(ontology: Ontology, present: set<int>) returns (rows: Owned)
    ensures rows == CompiledRows(ontology, present)
  {
    var anchors: seq<Anchor> := [];
    for i := 0 to |ontology.anchors|
      invariant anchors == Where(Ships(present), ontology.anchors[..i])
    {
      var anchor := ontology.anchors[i];
      var ships := ProbeRange(anchor.startVerseId, anchor.endVerseId, present);
      assert ontology.anchors[..i + 1][..i] == ontology.anchors[..i];
      assert ships == Ships(present)(anchor);
      if ships { anchors := anchors + [anchor]; }
    }
    assert ontology.anchors[..|ontology.anchors|] == ontology.anchors;
    rows := Owned(ontology.concepts, ontology.lexicon, anchors, ontology.related);
  }

  /** The digest of owned rows ignores their order, as sorted record streams do. */
  ghost predicate Digests(digest: Owned -> Str) {
    forall a, b :: SameRows(a, b) ==> digest(a) == digest(b)
  }

  /** The digest tells these two sets of rows apart. */
  ghost predicate Tells(digest: Owned -> Str, a: Owned, b: Owned) {
    digest(a) == digest(b) ==> SameRows(a, b)
  }

  /** The owned rows in the tables, without the topic anchors. */
  ghost function Installed(db: Database): Owned
    reads db
  {
    Owned(db.concepts, db.lexicon, EditorialRows(db.anchors), db.related)
  }

  /** `databaseOwnedRows`: the topic anchors belong to someone else. */
  method DatabaseOwnedRows(db: Database) returns (rows: Owned)
    ensures SameRows(rows, Installed(db))
  {
    var concepts := Select(db.concepts);
    var lexicon := Select(db.lexicon);
    var anchors := Select(EditorialRows(db.anchors));
    var related := Select(db.related);
    rows := Owned(concepts, lexicon, anchors, related);
  }

  // ---- the chain of fingerprints ----------------------------------------------------------------

  function CountsOf(untouched: Untouched, anchors: seq<Anchor>): Counts {
    Counts(|TopicRows(anchors)|, untouched.crossReferences, |untouched.verseTerms|, |untouched.translationTokens|)
  }

  function ConceptLink(world: World, untouched: Untouched, ontology: Ontology, counts: Counts): Str {
    world.sha256(Fed(LayerFeed(ontology, counts, ReadPericopes(untouched), ReadPhrases(untouched))))
  }

  function SpellingLink(world: World, previous: Str, rows: seq<TermRow>): Str {
    world.sha256(Fed(SpellingFeed(previous, world.policy, rows)))
  }

  function AliasLink(world: World, untouched: Untouched, previous: Str): Str {
    var rows := ReadAliases(world, untouched);
    if rows == [] then previous else world.sha256(Fed(AliasFeed(previous, rows)))
  }

  /** The layer identity over this ontology, with this vocabulary when there is a spelling index. */
  function Identity(world: World, untouched: Untouched, ontology: Ontology, counts: Counts,
                    rows: Option<seq<TermRow>>): Str {
    var concept := ConceptLink(world, untouched, ontology, counts);
    AliasLink(world, untouched, if rows.Some? then SpellingLink(world, concept, rows.value) else concept)
  }

  // ---- writing the candidate ----------------------------------------------------------------------

  function LayerIn(meta: map<Str, Str>): Str {
    if LAYER in meta then meta[LAYER] else []
  }

  method ReadTopics(db: Database) returns (topics: seq<Anchor>, counts: Counts)
    ensures multiset(topics) == multiset(TopicRows(db.anchors)) && counts == CountsOf(db.untouched, db.anchors)
  {
    topics := Select(TopicRows(db.anchors));
    Sorting.SamePresence(topics, TopicRows(db.anchors));
    counts := Counts(|topics|, db.untouched.crossReferences, |db.untouched.verseTerms|, |db.untouched.translationTokens|);
  }

  /** Deletes every owned row and inserts the compiled ones, with the topic anchors behind. */
  method ReplaceOwnedRows(db: Database, ontology: Ontology, topics: seq<Anchor>)
    modifies db`concepts, db`lexicon, db`anchors, db`related
    ensures db.concepts == ontology.concepts && db.lexicon == ontology.lexicon && db.related == ontology.related
    ensures db.anchors == CompiledRows(ontology, db.untouched.present).anchors + topics
  {
    var rows := CompiledOwnedRows(ontology, db.untouched.present);
    db.concepts, db.lexicon, db.related := rows.concepts, rows.lexicon, rows.related;
    db.anchors := rows.anchors + topics;
  }

  /** `installOwnedLayer`: the owned tables are replaced, the topic anchors survive. */
  method InstallOwnedLayer(world: World, db: Database, ontology: Ontology) returns (counts: Counts)
    requires db.untouched.Keyed()
    modifies db`concepts, db`lexicon, db`anchors, db`related, db`meta
    ensures counts == CountsOf(db.untouched, old(db.anchors))
    ensures db.concepts == ontology.concepts && db.lexicon == ontology.lexicon && db.related == ontology.related
    ensures multiset(db.anchors) == multiset(CompiledRows(ontology, db.untouched.present).anchors)
                                  + multiset(TopicRows(old(db.anchors)))
    ensures db.meta == old(db.meta)[LAYER := ConceptLink(world, db.untouched, ontology, counts)]
  {
    var topics;
    topics, counts := ReadTopics(db);
    ReplaceOwnedRows(db, ontology, topics);
    var fingerprint := ConceptFingerprint(world, db, ontology, counts);
    db.meta := db.meta[LAYER := fingerprint];
  }

  method ConceptFingerprint(world: World, db: Database, ontology: Ontology, counts: Counts) returns (fingerprint: Str)
    requires db.untouched.Keyed()
    ensures fingerprint == ConceptLink(world, db.untouched, ontology, counts)
  {
    var pericopes := QueryPericopes(db);
    var phrases := QueryPhrases(db);
    fingerprint := LayerFingerprint(world, ontology, counts, pericopes, phrases);
  }

  method BuildSpellingIndex(world: World, db: Database) returns (ghost rows: seq<TermRow>)
    modifies db`spelling, db`meta
    ensures IsVocabulary(LayerSightings(db.untouched, db.lexicon), rows)
    ensures db.spelling == Some(SpellingTables(rows, DeletesOfAll(world.policy, rows)))
    ensures db.meta == old(db.meta)[LAYER := SpellingLink(world, LayerIn(old(db.meta)), rows)]
  {
    var sources := ReadSources(db, db.lexicon);
    var terms := AssembleSpellingVocabulary(sources);
    var deletes := SpellingDeleteRows(world.policy, terms);
    db.spelling := Some(SpellingTables(terms, deletes));
    var fingerprint := SpellingLayerFingerprint(world, LayerIn(db.meta), terms);
    db.meta := db.meta[LAYER := fingerprint];
    rows := terms;
  }

  /** `chainAliasLayerFingerprint`, behind its table probe: a rowless table changes nothing. */
  method ChainAliases(world: World, db: Database)
    requires Orders(world) && db.untouched.Keyed()
    modifies db`meta
    ensures ReadAliases(world, db.untouched) == [] ==> db.meta == old(db.meta)
    ensures LayerIn(db.meta) == AliasLink(world, db.untouched, LayerIn(old(db.meta)))
    ensures LAYER in old(db.meta) ==> db.meta == old(db.meta)[LAYER := LayerIn(db.meta)]
  {
    if db.untouched.aliases.None? { return; }
    var rows := QueryAliases(world, db);
    if rows == [] { return; }
    var fingerprint := AliasLayerFingerprint(world, LayerIn(db.meta), rows);
    db.meta := db.meta[LAYER := fingerprint];
  }

  // ---- predicting it --------------------------------------------------------------------------------

  datatype Failure =
    | SnapshotMismatch
    | NoMeasurableEffect
    | BaseArtifactInvalid
    | InstalledRowsDiffer
    | MetaDiffers
    | SpellingDiffers

  datatype Expectation = Expectation(ownedRowsDigest: Str, layerFingerprint: Str, counts: Counts,
                                     meta: map<Str, Str>, spelling: Option<SpellingTables>)

  /** What the prediction promises about the base it looked at. */
  ghost predicate Predicts(world: World, digest: Owned -> Str, db: Database, candidate: Ontology, e: Expectation)
    reads db
  {
    && LAYER in db.meta
    && e.ownedRowsDigest == digest(CompiledRows(candidate, db.untouched.present))
    && e.counts == CountsOf(db.untouched, db.anchors)
    && e.spelling.Some? == db.spelling.Some?
    && (e.spelling.Some? ==>
          && IsVocabulary(LayerSightings(db.untouched, candidate.lexicon), e.spelling.value.terms)
          && e.spelling.value.deletes == DeletesOfAll(world.policy, e.spelling.value.terms))
    && e.layerFingerprint == Identity(world, db.untouched, candidate, e.counts,
                                      if e.spelling.Some? then Some(e.spelling.value.terms) else None)
    && e.meta == db.meta[LAYER := e.layerFingerprint]
  }

  method ExpectedIdentity(world: World, db: Database, ontology: Ontology, counts: Counts, lexicon: seq<LexiconEntry>)
    returns (identity: Str, spelling: Option<SpellingTables>)
    requires Orders(world) && db.untouched.Keyed()
    ensures spelling.Some? == db.spelling.Some?
    ensures spelling.Some? ==>
      && IsVocabulary(LayerSightings(db.untouched, lexicon), spelling.value.terms)
      && spelling.value.deletes == DeletesOfAll(world.policy, spelling.value.terms)
    ensures identity == Identity(world, db.untouched, ontology, counts,
                                 if spelling.Some? then Some(spelling.value.terms) else None)
  {
    identity := ConceptFingerprint(world, db, ontology, counts);
    spelling := None;
    if db.spelling.Some? {
      var sources := ReadSources(db, lexicon);
      var terms := AssembleSpellingVocabulary(sources);
      var deletes := SpellingDeleteRows(world.policy, terms);
      spelling := Some(SpellingTables(terms, deletes));
      identity := SpellingLayerFingerprint(world, identity, terms);
    }
    var aliases := QueryAliases(world, db);
    if aliases != [] { identity := AliasLayerFingerprint(world, identity, aliases); }
  }

  /** `identity` is that of this ontology over these tables, with the vocabulary of this lexicon if there is one. */
  ghost predicate Carries(world: World, db: Database, ontology: Ontology, lexicon: seq<LexiconEntry>, identity: Str)
    reads db
  {
    exists rows: Option<seq<TermRow>> :: CarriedBy(world, db, ontology, lexicon, identity, rows)
  }

  ghost predicate CarriedBy(world: World, db: Database, ontology: Ontology, lexicon: seq<LexiconEntry>, identity: Str,
                            rows: Option<seq<TermRow>>)
    reads db
  {
    && rows.Some? == db.spelling.Some?
    && (rows.Some? ==> IsVocabulary(LayerSightings(db.untouched, lexicon), rows.value))
    && identity == Identity(world, db.untouched, ontology, CountsOf(db.untouched, db.anchors), rows)
  }

  /** There is only one such identity. */
  lemma CarriesOne(world: World, db: Database, ontology: Ontology, lexicon: seq<LexiconEntry>, a: Str, b: Str)
    requires Carries(world, db, ontology, lexicon, a) && Carries(world, db, ontology, lexicon, b)
    ensures a == b
  {
    var r: Option<seq<TermRow>> :| CarriedBy(world, db, ontology, lexicon, a, r);
    var s: Option<seq<TermRow>> :| CarriedBy(world, db, ontology, lexicon, b, s);
    if r.Some? { VocabularyIsUnique(LayerSightings(db.untouched, lexicon), r.value, s.value); }
  }

  /** The base was reviewed as it is: its rows digest as compiled and its identity is the descriptor's. */
  ghost predicate Matches(world: World, digest: Owned -> Str, db: Database, base: Ontology, descriptorLayer: Str)
    reads db
  {
    Reviewed(digest, db, base) && Carries(world, db, base, db.lexicon, descriptorLayer)
  }

  /** The candidate's rows digest like the installed ones. */
  ghost predicate HasNoEffect(digest: Owned -> Str, db: Database, candidate: Ontology)
    reads db
  {
    digest(CompiledRows(candidate, db.untouched.present)) == digest(Installed(db))
  }

  /** Why the prediction refuses, if it does: an unreviewed base, a change without effect, a base without identity. */
  ghost function Refusal(world: World, digest: Owned -> Str, db: Database, base: Ontology, candidate: Ontology,
                         descriptorLayer: Str): (refusal: Option<Failure>)
    reads db
    ensures refusal != Some(InstalledRowsDiffer) && refusal != Some(MetaDiffers) && refusal != Some(SpellingDiffers)
  {
    if !Matches(world, digest, db, base, descriptorLayer) then Some(SnapshotMismatch)
    else if HasNoEffect(digest, db, candidate) then Some(NoMeasurableEffect)
    else if LAYER !in db.meta then Some(BaseArtifactInvalid)
    else None
  }

  method BaseMatches(world: World, digest: Owned -> Str, db: Database, base: Ontology, descriptorLayer: Str)
    returns (matches: bool, actual: Owned, counts: Counts)
    requires Orders(world) && Digests(digest) && db.untouched.Keyed()
    ensures matches <==> Matches(world, digest, db, base, descriptorLayer)
    ensures digest(actual) == digest(Installed(db)) && counts == CountsOf(db.untouched, db.anchors)
  {
    actual := DatabaseOwnedRows(db);
    var reviewed := CompiledOwnedRows(base, db.untouched.present);
    var topics;
    topics, counts := ReadTopics(db);
    if digest(actual) != digest(reviewed) { return false, actual, counts; }
    var identity, spelling := ExpectedIdentity(world, db, base, counts, db.lexicon);
    ghost var rows := if spelling.Some? then Some(spelling.value.terms) else None;
    assert CarriedBy(world, db, base, db.lexicon, identity, rows);
    if Carries(world, db, base, db.lexicon, descriptorLayer) {
      CarriesOne(world, db, base, db.lexicon, identity, descriptorLayer);
    }
    matches := identity == descriptorLayer;
  }

  /** `inspectLayerExpectation`: reads the base, changes nothing. */
  method InspectLayerExpectation(world: World, digest: Owned -> Str, db: Database, base: Ontology, candidate: Ontology,
                                 descriptorLayer: Str)
    returns (result: Outcome<Expectation, Failure>)
    requires Orders(world) && Digests(digest) && db.untouched.Keyed()
    ensures Refusal(world, digest, db, base, candidate, descriptorLayer)
         == if result.Ok? then None else Some(result.error)
    ensures result.Ok? ==> Predicts(world, digest, db, candidate, result.value)
  {
    var matches, actual, counts := BaseMatches(world, digest, db, base, descriptorLayer);
    if !matches { return Thrown(SnapshotMismatch); }
    var rows := CompiledOwnedRows(candidate, db.untouched.present);
    if digest(rows) == digest(actual) { return Thrown(NoMeasurableEffect); }
    var identity, spelling := ExpectedIdentity(world, db, candidate, counts, rows.lexicon);
    if LAYER !in db.meta { return Thrown(BaseArtifactInvalid); }
    result := Ok(Expectation(digest(rows), identity, counts, db.meta[LAYER := identity], spelling));
  }

  // ---- the mirror ------------------------------------------------------------------------------------

  /** After the install, the editorial anchors are the compiled ones that are not topics. */
  lemma EditorialAfterInstall(anchors: seq<Anchor>, compiled: seq<Anchor>, topics: seq<Anchor>)
    requires multiset(anchors) == multiset(compiled) + multiset(topics)
    requires forall a :: a in topics ==> IsTopic(a)
    ensures multiset(EditorialRows(anchors)) == multiset(EditorialRows(compiled))
  {
    forall a ensures multiset(EditorialRows(anchors))[a] == multiset(EditorialRows(compiled))[a] {
      EditorialCounts(anchors, a);
      EditorialCounts(compiled, a);
      assert a in topics <==> a in multiset(topics);
    }
  }

  lemma {:induction false} EditorialCounts(anchors: seq<Anchor>, a: Anchor)
    ensures multiset(EditorialRows(anchors))[a] == if IsTopic(a) then 0 else multiset(anchors)[a]
  {
    if anchors != [] {
      var n := |anchors| - 1;
      EditorialCounts(anchors[..n], a);
      assert anchors == anchors[..n] + [anchors[n]];
    }
  }

  /** What is read back equals what was compiled exactly when no compiled anchor is a topic. */
  lemma InstalledMatch(compiled: Owned, installed: Owned)
    requires multiset(installed.concepts) == multiset(compiled.concepts)
    requires multiset(installed.lexicon) == multiset(compiled.lexicon)
    requires multiset(installed.anchors) == multiset(EditorialRows(compiled.anchors))
    requires multiset(installed.related) == multiset(compiled.related)
    ensures SameRows(installed, compiled) <==> TopicRows(compiled.anchors) == []
  {
    forall a ensures multiset(installed.anchors)[a] == if IsTopic(a) then 0 else multiset(compiled.anchors)[a] {
      EditorialCounts(compiled.anchors, a);
    }
    if TopicRows(compiled.anchors) != [] {
      var a := TopicRows(compiled.anchors)[0];
      assert a in TopicRows(compiled.anchors);
      assert a in multiset(compiled.anchors) && a !in multiset(installed.anchors);
    } else {
      forall a ensures multiset(installed.anchors)[a] == multiset(compiled.anchors)[a] {
        assert a in compiled.anchors && IsTopic(a) ==> a in TopicRows(compiled.anchors);
      }
    }
  }

  /** Later writes of the layer entry leave nothing of the earlier ones. */
  lemma LastWriteStays(m: map<Str, Str>, first: Str, last: Str)
    ensures m[LAYER := first][LAYER := last] == m[LAYER := last]
    ensures LayerIn(m[LAYER := first]) == first
  {
    assert m[LAYER := first][LAYER := last].Keys == m[LAYER := last].Keys;
  }

  /** The two later writers: the spelling index when there is one, then the alias links. */
  method ChainLaterLinks(world: World, db: Database, rebuildSpelling: bool, ghost m0: map<Str, Str>, ghost concept: Str)
    returns (ghost rows: Option<seq<TermRow>>)
    requires Orders(world) && db.untouched.Keyed() && rebuildSpelling == db.spelling.Some?
    requires db.meta == m0[LAYER := concept]
    modifies db`meta, db`spelling
    ensures rows.Some? == rebuildSpelling
    ensures rows.Some? ==> IsVocabulary(LayerSightings(db.untouched, db.lexicon), rows.value)
    ensures db.spelling == if rows.Some? then Some(SpellingTables(rows.value, DeletesOfAll(world.policy, rows.value)))
                           else None
    ensures db.meta == m0[LAYER :=
      AliasLink(world, db.untouched, if rows.Some? then SpellingLink(world, concept, rows.value) else concept)]
  {
    ghost var spelled := concept;
    LastWriteStays(m0, concept, concept);
    rows := None;
    if rebuildSpelling {
      ghost var terms := BuildSpellingIndex(world, db);
      rows := Some(terms);
      spelled := SpellingLink(world, concept, terms);
      LastWriteStays(m0, concept, spelled);
      LastWriteStays(m0, spelled, spelled);
    }
    ChainAliases(world, db);
    LastWriteStays(m0, spelled, AliasLink(world, db.untouched, spelled));
  }

  /** The three writers in their order, over the copied base. */
  method MutateCandidate(world: World, db: Database, candidate: Ontology, rebuildSpelling: bool)
    returns (ghost rows: Option<seq<TermRow>>)
    requires Orders(world) && db.untouched.Keyed() && rebuildSpelling == db.spelling.Some?
    modifies db`concepts, db`lexicon, db`anchors, db`related, db`meta, db`spelling
    ensures db.concepts == candidate.concepts && db.lexicon == candidate.lexicon && db.related == candidate.related
    ensures multiset(db.anchors) == multiset(CompiledRows(candidate, db.untouched.present).anchors)
                                  + multiset(TopicRows(old(db.anchors)))
    ensures rows.Some? == rebuildSpelling
    ensures rows.Some? ==> IsVocabulary(LayerSightings(db.untouched, candidate.lexicon), rows.value)
    ensures db.spelling == if rows.Some? then Some(SpellingTables(rows.value, DeletesOfAll(world.policy, rows.value)))
                           else None
    ensures db.meta == old(db.meta)[LAYER :=
      Identity(world, db.untouched, candidate, CountsOf(db.untouched, old(db.anchors)), rows)]
  {
    var counts := InstallOwnedLayer(world, db, candidate);
    ghost var concept := ConceptLink(world, db.untouched, candidate, counts);
    rows := ChainLaterLinks(world, db, rebuildSpelling, old(db.meta), concept);
  }

  lemma SameIdentity(world: World, digest: Owned -> Str, sightings: set<Sighting>, e: Expectation, rows: Option<seq<TermRow>>)
    requires rows.Some? == e.spelling.Some?
    requires rows.Some? ==> IsVocabulary(sightings, rows.value) && IsVocabulary(sightings, e.spelling.value.terms)
    ensures rows == if e.spelling.Some? then Some(e.spelling.value.terms) else None
  {
    if rows.Some? { VocabularyIsUnique(sightings, rows.value, e.spelling.value.terms); }
  }

  /** The digest of the installed rows, read back without the topic anchors. */
  method InstalledDigest(digest: Owned -> Str, db: Database, candidate: Ontology, ghost topics: seq<Anchor>)
    returns (digested: Str)
    requires Digests(digest) && forall a :: a in topics ==> IsTopic(a)
    requires db.concepts == candidate.concepts && db.lexicon == candidate.lexicon && db.related == candidate.related
    requires multiset(db.anchors) == multiset(CompiledRows(candidate, db.untouched.present).anchors) + multiset(topics)
    ensures var compiled := CompiledRows(candidate, db.untouched.present);
      && (TopicRows(compiled.anchors) == [] ==> digested == digest(compiled))
      && (Tells(digest, Installed(db), compiled) && digested == digest(compiled) ==> TopicRows(compiled.anchors) == [])
  {
    var installed := DatabaseOwnedRows(db);
    ghost var compiled := CompiledRows(candidate, db.untouched.present);
    EditorialAfterInstall(db.anchors, compiled.anchors, topics);
    InstalledMatch(compiled, installed);
    InstalledMatch(compiled, Installed(db));
    digested := digest(installed);
  }

  lemma {:induction false} NoTopicRows(anchors: seq<Anchor>)
    requires forall a :: a in anchors ==> !IsTopic(a)
    ensures TopicRows(anchors) == []
  {
    if anchors != [] {
      var n := |anchors| - 1;
      assert anchors[n] in anchors;
      NoTopicRows(anchors[..n]);
    }
  }

  /** Every topic anchor of the candidate is one of the base. */
  ghost predicate BringsNoTopics(base: Ontology, candidate: Ontology) {
    forall a :: a in candidate.anchors && IsTopic(a) ==> a in base.anchors
  }

  /** The rows of these tables, read back without the topic anchors, digest like the compiled base. */
  ghost predicate Reviewed(digest: Owned -> Str, db: Database, base: Ontology)
    reads db
  {
    digest(CompiledRows(base, db.untouched.present)) == digest(Installed(db))
  }

  /**
   * A base whose installed rows are its compiled ones ships no topic anchor, so a candidate that
   * takes its topic anchors from the base ships none either.
   */
  lemma NoTopicsShip(digest: Owned -> Str, db: Database, base: Ontology, candidate: Ontology)
    requires Reviewed(digest, db, base) && BringsNoTopics(base, candidate)
    requires Tells(digest, CompiledRows(base, db.untouched.present), Installed(db))
    ensures TopicRows(CompiledRows(candidate, db.untouched.present).anchors) == []
  {
    var present := db.untouched.present;
    var compiled, shipped := CompiledRows(base, present).anchors, CompiledRows(candidate, present).anchors;
    Sorting.SamePresence(compiled, EditorialRows(db.anchors));
    forall a | a in shipped ensures !IsTopic(a) {
      assert IsTopic(a) ==> a in base.anchors;
      assert a in base.anchors ==> a in compiled;
    }
    NoTopicRows(shipped);
  }

  /** Mutate and check against the prediction. */
  method MutateAndCheck(world: World, digest: Owned -> Str, db: Database, candidate: Ontology, expected: Expectation)
    returns (result: Outcome<Str, Failure>)
    requires Orders(world) && Digests(digest) && db.untouched.Keyed() && Predicts(world, digest, db, candidate, expected)
    modifies db`concepts, db`lexicon, db`anchors, db`related, db`meta, db`spelling
    ensures result.Thrown? ==> result.error == InstalledRowsDiffer
    ensures result.Thrown? ==> TopicRows(CompiledRows(candidate, db.untouched.present).anchors) != []
    ensures var compiled := CompiledRows(candidate, db.untouched.present);
      result.Ok? && Tells(digest, Installed(db), compiled) ==> TopicRows(compiled.anchors) == []
    ensures result.Ok? ==> LAYER in db.meta && db.meta[LAYER] == result.value == expected.layerFingerprint
  {
    ghost var sightings := LayerSightings(db.untouched, candidate.lexicon);
    ghost var rows := MutateCandidate(world, db, candidate, expected.spelling.Some?);
    SameIdentity(world, digest, sightings, expected, rows);
    assert db.meta == expected.meta && db.spelling == expected.spelling;
    var digested := InstalledDigest(digest, db, candidate, old(TopicRows(db.anchors)));
    if digested != expected.ownedRowsDigest { return Thrown(InstalledRowsDiffer); }
    if db.meta != expected.meta { return Thrown(MetaDiffers); }
    if expected.spelling.Some? && db.spelling != expected.spelling { return Thrown(SpellingDiffers); }
    result := Ok(LayerIn(db.meta));
  }

  /** The prediction, what it says about the base, and when the candidate can ship no topic anchor. */
  method Predict(world: World, digest: Owned -> Str, db: Database, base: Ontology, candidate: Ontology,
                 descriptorLayer: Str)
    returns (result: Outcome<Expectation, Failure>)
    requires Orders(world) && Digests(digest) && db.untouched.Keyed()
    ensures Refusal(world, digest, db, base, candidate, descriptorLayer)
         == if result.Ok? then None else Some(result.error)
    ensures result.Ok? ==> Predicts(world, digest, db, candidate, result.value)
    ensures result.Ok? ==> Predicted(world, db, candidate, result.value.layerFingerprint)
    ensures result.Ok? ==>
      (Tells(digest, CompiledRows(base, db.untouched.present), Installed(db)) && BringsNoTopics(base, candidate)
       ==> TopicRows(CompiledRows(candidate, db.untouched.present).anchors) == [])
  {
    result := InspectLayerExpectation(world, digest, db, base, candidate, descriptorLayer);
    if result.Ok? {
      if Tells(digest, CompiledRows(base, db.untouched.present), Installed(db)) && BringsNoTopics(base, candidate) {
        NoTopicsShip(digest, db, base, candidate);
      }
      PredictionPredicts(world, digest, db, candidate, result.value);
    }
  }

  /**
   * Predict, mutate, check. Neither the meta check nor the spelling check can ever fail. The row check
   * fails only when the candidate ships a topic anchor, which it never does unless it brings one the
   * base does not have, as long as the digest tells the compiled base from the installed one; and it
   * does fail then, as long as the digest tells the compiled candidate from the installed one.
   */
  method BuildLayers(world: World, digest: Owned -> Str, db: Database, base: Ontology, candidate: Ontology,
                     descriptorLayer: Str)
    returns (result: Outcome<Str, Failure>)
    requires Orders(world) && Digests(digest) && db.untouched.Keyed()
    modifies db`concepts, db`lexicon, db`anchors, db`related, db`meta, db`spelling
    ensures result.Ok? || result == Thrown(InstalledRowsDiffer) <==>
      old(Refusal(world, digest, db, base, candidate, descriptorLayer)).None?
    ensures result.Thrown? && result.error != InstalledRowsDiffer ==>
      old(Refusal(world, digest, db, base, candidate, descriptorLayer)) == Some(result.error)
    ensures result != Thrown(MetaDiffers) && result != Thrown(SpellingDiffers)
    ensures result == Thrown(InstalledRowsDiffer) ==>
      TopicRows(CompiledRows(candidate, db.untouched.present).anchors) != []
    ensures var compiled := CompiledRows(candidate, db.untouched.present);
      result.Ok? && Tells(digest, Installed(db), compiled) ==> TopicRows(compiled.anchors) == []
    ensures old(Tells(digest, CompiledRows(base, db.untouched.present), Installed(db))) && BringsNoTopics(base, candidate)
      ==> result != Thrown(InstalledRowsDiffer)
    ensures result.Ok? ==> LAYER in db.meta && db.meta[LAYER] == result.value
    ensures result.Ok? ==> old(Predicted(world, db, candidate, result.value))
  {
    var inspected := Predict(world, digest, db, base, candidate, descriptorLayer);
    if inspected.Thrown? { return Thrown(inspected.error); }
    result := MutateAndCheck(world, digest, db, candidate, inspected.value);
  }

  /** `identity` is that of the candidate over the base's own tables, whatever vocabulary listing was used. */
  ghost predicate Predicted(world: World, db: Database, candidate: Ontology, identity: Str)
    reads db
  {
    LAYER in db.meta && Carries(world, db, candidate, candidate.lexicon, identity)
  }

  lemma PredictionPredicts(world: World, digest: Owned -> Str, db: Database, candidate: Ontology, e: Expectation)
    requires Predicts(world, digest, db, candidate, e)
    ensures Predicted(world, db, candidate, e.layerFingerprint)
  {
    assert CarriedBy(world, db, candidate, candidate.lexicon, e.layerFingerprint,
                     if e.spelling.Some? then Some(e.spelling.value.terms) else None);
  }
}
