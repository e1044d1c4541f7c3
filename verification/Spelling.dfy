/** The spelling vocabulary: which words it holds, where they come from, which may be proposed. */
module Spelling {
  import opened CodeUnits
  import opened Texts
  import Sorting

  datatype Origin = Corpus | Books | Lexicon | Translations | VerseTerms

  function Name(origin: Origin): Str {
    match origin
    case Corpus => [0x63, 0x6F, 0x72, 0x70, 0x75, 0x73]
    case Books => [0x62, 0x6F, 0x6F, 0x6B, 0x73]
    case Lexicon => [0x6C, 0x65, 0x78, 0x69, 0x63, 0x6F, 0x6E]
    case Translations => [0x74, 0x72, 0x61, 0x6E, 0x73, 0x6C, 0x61, 0x74, 0x69, 0x6F, 0x6E, 0x73]
    case VerseTerms => [0x76, 0x65, 0x72, 0x73, 0x65, 0x5F, 0x74, 0x65, 0x72, 0x6D, 0x73]
  }

  const PLUS: Unit := 0x2B
  const SPACE: Unit := 0x20

  datatype CorpusToken = CorpusToken(term: Str, documentCount: nat)

  /** The five vocabulary sources, each a list in any order and with any repetition. */
  datatype Sources = Sources(corpus: seq<CorpusToken>, aliasKeys: seq<Str>, lexicon: seq<Str>,
                             translations: seq<Str>, verseTerms: seq<Str>)

  datatype TermRow = TermRow(term: Str, documentCount: nat, origins: Str)

  // ---- what the vocabulary is ---------------------------------------------------------

  /** One source naming one word. */
  datatype Sighting = Sighting(term: Str, origin: Origin, documentCount: nat)

  function FromCorpus(corpus: seq<CorpusToken>): set<Sighting> {
    set row | row in corpus :: Sighting(row.term, Corpus, row.documentCount)
  }

  function FromList(words: seq<Str>, origin: Origin): set<Sighting> {
    set word | word in words :: Sighting(word, origin, 0)
  }

  function FromLexicon(lexicon: seq<Str>): set<Sighting> {
    set normalized, token | normalized in lexicon && token in SplitOn(normalized, SPACE) ::
      Sighting(token, Lexicon, 0)
  }

  /** Every sighting in the sources, as a set: order and repetition are gone. */
  function SightingsOf(sources: Sources): set<Sighting> {
    FromCorpus(sources.corpus) + FromList(sources.aliasKeys, Books) + FromLexicon(sources.lexicon)
    + FromList(sources.translations, Translations) + FromList(sources.verseTerms, VerseTerms)
  }

  ghost function TermsIn(sightings: set<Sighting>): set<Str> {
    set s | s in sightings && s.term != [] :: s.term
  }

  ghost function OriginsIn(sightings: set<Sighting>, term: Str): set<Origin> {
    set s | s in sightings && s.term == term :: s.origin
  }

  /** `count` is the largest document count any sighting of the term carries. */
  ghost predicate IsCount(sightings: set<Sighting>, term: Str, count: nat) {
    && (forall s :: s in sightings && s.term == term ==> s.documentCount <= count)
    && (exists s :: s in sightings && s.term == term && s.documentCount == count)
  }

  function Names(origins: set<Origin>): set<Str> {
    set origin | origin in origins :: Name(origin)
  }

  /** Origin names in code-unit order, joined with a plus. */
  ghost function OriginText(origins: set<Origin>): Str {
    JoinWith(Sorting.Ascending(Names(origins), Less), PLUS)
  }

  /** The row says what the sightings say about its term. */
  ghost predicate IsRow(sightings: set<Sighting>, row: TermRow) {
    && row.term in TermsIn(sightings)
    && IsCount(sightings, row.term, row.documentCount)
    && row.origins == OriginText(OriginsIn(sightings, row.term))
  }

  ghost predicate IsVocabulary(sightings: set<Sighting>, rows: seq<TermRow>) {
    && (forall i, j :: 0 <= i < j < |rows| ==> Less(rows[i].term, rows[j].term))
    && (forall term :: term in TermsIn(sightings) ==> exists i :: 0 <= i < |rows| && rows[i].term == term)
    && (forall i {:trigger rows[i]} :: 0 <= i < |rows| ==> IsRow(sightings, rows[i]))
  }

  /** The sightings decide the vocabulary, so no order or repetition in the sources can change it. */
  lemma VocabularyIsUnique(sightings: set<Sighting>, a: seq<TermRow>, b: seq<TermRow>)
    requires IsVocabulary(sightings, a) && IsVocabulary(sightings, b)
    ensures a == b
  {
    var ta := seq(|a|, i requires 0 <= i < |a| => a[i].term);
    var tb := seq(|b|, i requires 0 <= i < |b| => b[i].term);
    TermsCovered(sightings, a, ta);
    TermsCovered(sightings, b, tb);
    LessSorts();
    Sorting.IncreasingUnique(ta, tb, Less);
    assert |ta| == |a| && |tb| == |b|;
    forall i | 0 <= i < |a| ensures a[i] == b[i] {
      assert ta[i] == tb[i];
      RowIsUnique(sightings, a[i], b[i]);
    }
  }

  lemma TermsCovered(sightings: set<Sighting>, rows: seq<TermRow>, terms: seq<Str>)
    requires IsVocabulary(sightings, rows) && |terms| == |rows|
    requires forall i :: 0 <= i < |rows| ==> terms[i] == rows[i].term
    ensures forall t :: t in terms <==> t in TermsIn(sightings)
  {
    forall t | t in terms ensures t in TermsIn(sightings) {
      var i :| 0 <= i < |terms| && terms[i] == t;
      assert IsRow(sightings, rows[i]);
    }
    forall t | t in TermsIn(sightings) ensures t in terms {
      var i :| 0 <= i < |rows| && rows[i].term == t;
      assert terms[i] == t;
    }
  }

  lemma RowIsUnique(sightings: set<Sighting>, a: TermRow, b: TermRow)
    requires IsRow(sightings, a) && IsRow(sightings, b) && a.term == b.term
    ensures a == b
  {
  }

  // ---- assembling it --------------------------------------------------------------------

  datatype Entry = Entry(documentCount: nat, origins: set<Origin>)

  /** The map holds one entry per sighted word, with its count and its origins. */
  ghost predicate Summarises(vocabulary: map<Str, Entry>, sightings: set<Sighting>) {
    && vocabulary.Keys == TermsIn(sightings)
    && (forall term :: term in vocabulary ==>
          IsCount(sightings, term, vocabulary[term].documentCount)
          && vocabulary[term].origins == OriginsIn(sightings, term))
  }

  function Admitted(vocabulary: map<Str, Entry>, s: Sighting): map<Str, Entry> {
    if s.term == [] then vocabulary
    else if s.term in vocabulary then
      var existing := vocabulary[s.term];
      vocabulary[s.term := Entry(if existing.documentCount >= s.documentCount then existing.documentCount else s.documentCount,
                                 existing.origins + {s.origin})]
    else vocabulary[s.term := Entry(s.documentCount, {s.origin})]
  }

  lemma OtherTermKeeps(sightings: set<Sighting>, s: Sighting, term: Str, count: nat)
    requires term != s.term
    ensures IsCount(sightings + {s}, term, count) <==> IsCount(sightings, term, count)
    ensures OriginsIn(sightings + {s}, term) == OriginsIn(sightings, term)
  {
    forall t | t in sightings + {s} && t.term == term ensures t in sightings {}
    if IsCount(sightings, term, count) {
      var t :| t in sightings && t.term == term && t.documentCount == count;
      assert t in sightings + {s};
    }
  }

  lemma OwnTermGrows(sightings: set<Sighting>, s: Sighting, count: nat)
    requires s.term in TermsIn(sightings) ==> IsCount(sightings, s.term, count)
    requires s.term !in TermsIn(sightings) ==> s.term != [] && count == 0
    ensures IsCount(sightings + {s}, s.term, if count >= s.documentCount then count else s.documentCount)
    ensures OriginsIn(sightings + {s}, s.term) == OriginsIn(sightings, s.term) + {s.origin}
  {
    assert s in sightings + {s};
    if s.term in TermsIn(sightings) {
      var t :| t in sightings && t.term == s.term && t.documentCount == count;
      assert t in sightings + {s};
    }
    forall o | o in OriginsIn(sightings, s.term) + {s.origin} ensures o in OriginsIn(sightings + {s}, s.term) {
      if o in OriginsIn(sightings, s.term) {
        var t :| t in sightings && t.term == s.term && t.origin == o;
        assert t in sightings + {s};
      }
    }
  }

  lemma AdmitSummarises(vocabulary: map<Str, Entry>, sightings: set<Sighting>, s: Sighting)
    requires Summarises(vocabulary, sightings)
    ensures Summarises(Admitted(vocabulary, s), sightings + {s})
  {
    var after := Admitted(vocabulary, s);
    assert TermsIn(sightings + {s}) == TermsIn(sightings) + if s.term == [] then {} else {s.term} by {
      forall t | t in TermsIn(sightings) ensures t in TermsIn(sightings + {s}) {
        var u :| u in sightings && u.term == t;
        assert u in sightings + {s};
      }
      assert s in sightings + {s};
    }
    forall term | term in after
      ensures IsCount(sightings + {s}, term, after[term].documentCount)
      ensures after[term].origins == OriginsIn(sightings + {s}, term)
    {
      if term != s.term {
        OtherTermKeeps(sightings, s, term, after[term].documentCount);
      } else {
        assert s.term != [];
        if s.term !in vocabulary { NeverSighted(sightings, s.term); }
        OwnTermGrows(sightings, s, if s.term in vocabulary then vocabulary[s.term].documentCount else 0);
      }
    }
  }

  lemma NeverSighted(sightings: set<Sighting>, term: Str)
    requires term != [] && term !in TermsIn(sightings)
    ensures OriginsIn(sightings, term) == {}
  {
    assert forall s :: s in sightings && s.term != [] ==> s.term in TermsIn(sightings);
  }

  // ---- the loops over the sources ---------------------------------------------------------

  method Admit(vocabulary: map<Str, Entry>, term: Str, origin: Origin, documentCount: nat, ghost sightings: set<Sighting>)
    returns (vocabulary': map<Str, Entry>)
    requires Summarises(vocabulary, sightings)
    ensures Summarises(vocabulary', sightings + {Sighting(term, origin, documentCount)})
  {
    ghost var s := Sighting(term, origin, documentCount);
    AdmitSummarises(vocabulary, sightings, s);
    if term == [] { return vocabulary; }
    if term in vocabulary {
      var existing := vocabulary[term];
      var count := if existing.documentCount >= documentCount then existing.documentCount else documentCount;
      return vocabulary[term := Entry(count, existing.origins + {origin})];
    }
    return vocabulary[term := Entry(documentCount, {origin})];
  }

  method AdmitCorpus(vocabulary: map<Str, Entry>, corpus: seq<CorpusToken>, ghost sightings: set<Sighting>)
    returns (vocabulary': map<Str, Entry>)
    requires Summarises(vocabulary, sightings)
    ensures Summarises(vocabulary', sightings + FromCorpus(corpus))
  {
    vocabulary' := vocabulary;
    assert sightings + FromCorpus(corpus[..0]) == sightings;
    for i := 0 to |corpus|
      invariant Summarises(vocabulary', sightings + FromCorpus(corpus[..i]))
    {
      var row := corpus[i];
      vocabulary' := Admit(vocabulary', row.term, Corpus, row.documentCount, sightings + FromCorpus(corpus[..i]));
      CorpusGrows(corpus, i);
      assert sightings + FromCorpus(corpus[..i + 1])
          == sightings + FromCorpus(corpus[..i]) + {Sighting(row.term, Corpus, row.documentCount)};
    }
    assert corpus[..|corpus|] == corpus;
  }

  lemma CorpusGrows(corpus: seq<CorpusToken>, i: nat)
    requires i < |corpus|
    ensures FromCorpus(corpus[..i + 1])
         == FromCorpus(corpus[..i]) + {Sighting(corpus[i].term, Corpus, corpus[i].documentCount)}
  {
    assert corpus[..i + 1] == corpus[..i] + [corpus[i]];
    assert forall row :: row in corpus[..i + 1] <==> row in corpus[..i] || row == corpus[i];
  }

  method AdmitAll(vocabulary: map<Str, Entry>, words: seq<Str>, origin: Origin, ghost sightings: set<Sighting>)
    returns (vocabulary': map<Str, Entry>)
    requires Summarises(vocabulary, sightings)
    ensures Summarises(vocabulary', sightings + FromList(words, origin))
  {
    vocabulary' := vocabulary;
    assert sightings + FromList(words[..0], origin) == sightings;
    for i := 0 to |words|
      invariant Summarises(vocabulary', sightings + FromList(words[..i], origin))
    {
      vocabulary' := Admit(vocabulary', words[i], origin, 0, sightings + FromList(words[..i], origin));
      ListGrows(words, origin, i);
      assert sightings + FromList(words[..i + 1], origin)
          == sightings + FromList(words[..i], origin) + {Sighting(words[i], origin, 0)};
    }
    assert words[..|words|] == words;
  }

  lemma ListGrows(words: seq<Str>, origin: Origin, i: nat)
    requires i < |words|
    ensures FromList(words[..i + 1], origin) == FromList(words[..i], origin) + {Sighting(words[i], origin, 0)}
  {
    assert words[..i + 1] == words[..i] + [words[i]];
    assert forall word :: word in words[..i + 1] <==> word in words[..i] || word == words[i];
  }

  method AdmitLexicon(vocabulary: map<Str, Entry>, lexicon: seq<Str>, ghost sightings: set<Sighting>)
    returns (vocabulary': map<Str, Entry>)
    requires Summarises(vocabulary, sightings)
    ensures Summarises(vocabulary', sightings + FromLexicon(lexicon))
  {
    vocabulary' := vocabulary;
    assert sightings + FromLexicon(lexicon[..0]) == sightings;
    for i := 0 to |lexicon|
      invariant Summarises(vocabulary', sightings + FromLexicon(lexicon[..i]))
    {
      var tokens := SplitOn(lexicon[i], SPACE);
      vocabulary' := AdmitAll(vocabulary', tokens, Lexicon, sightings + FromLexicon(lexicon[..i]));
      LexiconGrows(lexicon, i);
      assert sightings + FromLexicon(lexicon[..i + 1])
          == sightings + FromLexicon(lexicon[..i]) + FromList(tokens, Lexicon);
    }
    assert lexicon[..|lexicon|] == lexicon;
  }

  lemma LexiconGrows(lexicon: seq<Str>, i: nat)
    requires i < |lexicon|
    ensures FromLexicon(lexicon[..i + 1])
         == FromLexicon(lexicon[..i]) + FromList(SplitOn(lexicon[i], SPACE), Lexicon)
  {
    assert lexicon[..i + 1] == lexicon[..i] + [lexicon[i]];
    assert forall n :: n in lexicon[..i + 1] <==> n in lexicon[..i] || n == lexicon[i];
  }

  ghost predicate AllRows(sightings: set<Sighting>, terms: seq<Str>, rows: seq<TermRow>) {
    |rows| <= |terms| && forall i {:trigger rows[i]} :: 0 <= i < |rows| ==>
      rows[i].term == terms[i] && IsRow(sightings, rows[i])
  }

  lemma SortedRowsAreVocabulary(sightings: set<Sighting>, terms: seq<Str>, rows: seq<TermRow>)
    requires Sorting.Increasing(terms, Less) && forall t :: t in terms <==> t in TermsIn(sightings)
    requires |rows| == |terms| && AllRows(sightings, terms, rows)
    ensures IsVocabulary(sightings, rows)
  {
    forall term | term in TermsIn(sightings) ensures exists i :: 0 <= i < |rows| && rows[i].term == term {
      var i :| 0 <= i < |terms| && terms[i] == term;
      assert rows[i].term == term;
    }
  }

  lemma OneMoreRow(sightings: set<Sighting>, terms: seq<Str>, rows: seq<TermRow>, row: TermRow)
    requires |rows| < |terms| && AllRows(sightings, terms, rows)
    requires row.term == terms[|rows|] && IsRow(sightings, row)
    ensures AllRows(sightings, terms, rows + [row])
  {
  }

  method RowFor(vocabulary: map<Str, Entry>, term: Str, ghost sightings: set<Sighting>) returns (row: TermRow)
    requires Summarises(vocabulary, sightings) && term in vocabulary
    ensures row.term == term && IsRow(sightings, row)
  {
    var entry := vocabulary[term];
    var origins := JoinedNames(entry.origins);
    row := TermRow(term, entry.documentCount, origins);
  }

  /** The `.map` over the sorted keys. */
  method Rows(vocabulary: map<Str, Entry>, ghost sightings: set<Sighting>) returns (rows: seq<TermRow>)
    requires Summarises(vocabulary, sightings)
    ensures IsVocabulary(sightings, rows)
  {
    var terms := SortedTerms(vocabulary.Keys);
    rows := [];
    for i := 0 to |terms|
      invariant |rows| == i && AllRows(sightings, terms, rows)
    {
      var row := RowFor(vocabulary, terms[i], sightings);
      OneMoreRow(sightings, terms, rows, row);
      rows := rows + [row];
    }
    SortedRowsAreVocabulary(sightings, terms, rows);
  }

  method SortedTerms(keys: set<Str>) returns (terms: seq<Str>)
    ensures Sorting.Increasing(terms, Less) && forall t :: t in terms <==> t in keys
  {
    var listed := Sorting.Listing(keys);
    LessSorts();
    Sorting.SortedListing(listed, keys, Less);
    terms := Sorting.Sort(listed, Less);
  }

  method JoinedNames(origins: set<Origin>) returns (text: Str)
    ensures text == OriginText(origins)
  {
    var names := Sorting.Listing(Names(origins));
    LessSorts();
    Sorting.SortedListing(names, Names(origins), Less);
    text := JoinWith(Sorting.Sort(names, Less), PLUS);
  }

  method AssembleSpellingVocabulary(sources: Sources) returns (rows: seq<TermRow>)
    ensures IsVocabulary(SightingsOf(sources), rows)
  {
    var vocabulary: map<Str, Entry> := map[];
    ghost var seen: set<Sighting> := {};
    vocabulary := AdmitCorpus(vocabulary, sources.corpus, seen);
    seen := seen + FromCorpus(sources.corpus);
    vocabulary := AdmitAll(vocabulary, sources.aliasKeys, Books, seen);
    seen := seen + FromList(sources.aliasKeys, Books);
    vocabulary := AdmitLexicon(vocabulary, sources.lexicon, seen);
    seen := seen + FromLexicon(sources.lexicon);
    vocabulary := AdmitAll(vocabulary, sources.translations, Translations, seen);
    seen := seen + FromList(sources.translations, Translations);
    vocabulary := AdmitAll(vocabulary, sources.verseTerms, VerseTerms, seen);
    seen := seen + FromList(sources.verseTerms, VerseTerms);
    assert seen == SightingsOf(sources);
    rows := Rows(vocabulary, seen);
  }

  /** Reordering or repeating the entries of any source leaves the vocabulary alone. */
  lemma VocabularyForgetsOrder(a: Sources, b: Sources, ra: seq<TermRow>, rb: seq<TermRow>)
    requires forall row :: row in a.corpus <==> row in b.corpus
    requires forall key :: key in a.aliasKeys <==> key in b.aliasKeys
    requires forall n :: n in a.lexicon <==> n in b.lexicon
    requires forall token :: token in a.translations <==> token in b.translations
    requires forall term :: term in a.verseTerms <==> term in b.verseTerms
    requires IsVocabulary(SightingsOf(a), ra) && IsVocabulary(SightingsOf(b), rb)
    ensures ra == rb
  {
    SameSightings(a, b);
    VocabularyIsUnique(SightingsOf(a), ra, rb);
  }

  lemma SameSightings(a: Sources, b: Sources)
    requires forall row :: row in a.corpus <==> row in b.corpus
    requires forall key :: key in a.aliasKeys <==> key in b.aliasKeys
    requires forall n :: n in a.lexicon <==> n in b.lexicon
    requires forall token :: token in a.translations <==> token in b.translations
    requires forall term :: term in a.verseTerms <==> term in b.verseTerms
    ensures SightingsOf(a) == SightingsOf(b)
  {
    assert FromCorpus(a.corpus) == FromCorpus(b.corpus);
    assert FromList(a.aliasKeys, Books) == FromList(b.aliasKeys, Books);
    assert FromLexicon(a.lexicon) == FromLexicon(b.lexicon);
    assert FromList(a.translations, Translations) == FromList(b.translations, Translations);
    assert FromList(a.verseTerms, VerseTerms) == FromList(b.verseTerms, VerseTerms);
  }

  // ---- correction targets --------------------------------------------------------------------

  predicate IsCorrectionTarget(origins: Str) {
    exists i :: 0 <= i < |SplitOn(origins, PLUS)| && SplitOn(origins, PLUS)[i] != Name(VerseTerms)
  }

  lemma NamesArePlain(origin: Origin)
    ensures PLUS !in Name(origin)
    ensures Name(origin) == Name(VerseTerms) ==> origin == VerseTerms
  {
  }

  /** A word may be proposed exactly when a source other than the verse terms names it. */
  lemma TargetsHaveAnotherOrigin(sightings: set<Sighting>, row: TermRow)
    requires IsRow(sightings, row)
    ensures IsCorrectionTarget(row.origins)
       <==> exists s :: s in sightings && s.term == row.term && s.origin != VerseTerms
  {
    var origins := OriginsIn(sightings, row.term);
    var names := Sorting.Ascending(Names(origins), Less);
    var seen :| seen in sightings && seen.term == row.term && seen.documentCount == row.documentCount;
    assert seen.origin in origins && Name(seen.origin) in Names(origins) && Name(seen.origin) in names;
    forall i | 0 <= i < |names| ensures PLUS !in names[i] {
      assert names[i] in names && names[i] in Names(origins);
      var o :| o in origins && Name(o) == names[i];
      NamesArePlain(o);
    }
    SplitUndoesJoin(names, PLUS);
    if s :| s in sightings && s.term == row.term && s.origin != VerseTerms {
      assert s.origin in origins && Name(s.origin) in Names(origins) && Name(s.origin) in names;
      NamesArePlain(s.origin);
      var i :| 0 <= i < |names| && names[i] == Name(s.origin);
      assert SplitOn(row.origins, PLUS)[i] != Name(VerseTerms);
    }
    if i :| 0 <= i < |names| && names[i] != Name(VerseTerms) {
      assert names[i] in names && names[i] in Names(origins);
      var o :| o in origins && Name(o) == names[i];
      assert exists s :: s in sightings && s.term == row.term && s.origin == o;
    }
  }

  // ---- delete rows -----------------------------------------------------------------------------

  datatype DeleteRow = DeleteRow(deleteKey: Str, term: Str)

  /** The edit policy, which this model leaves open. */
  datatype Policy = Policy(depth: nat -> nat, variants: (Str, nat) -> seq<Str>, minTokenLength: nat, edit1MaxLength: nat)

  /** The term may be proposed and is long enough to be reached by an edit. */
  predicate Reachable(policy: Policy, row: TermRow) {
    IsCorrectionTarget(row.origins) && policy.depth(|row.term|) != 0
  }

  function DeletesOf(policy: Policy, row: TermRow): seq<DeleteRow> {
    if !Reachable(policy, row) then []
    else
      var keys := policy.variants(row.term, policy.depth(|row.term|));
      seq(|keys|, i requires 0 <= i < |keys| => DeleteRow(keys[i], row.term))
  }

  function DeletesOfAll(policy: Policy, rows: seq<TermRow>): seq<DeleteRow> {
    if rows == [] then [] else DeletesOfAll(policy, rows[..|rows| - 1]) + DeletesOf(policy, rows[|rows| - 1])
  }

  lemma {:induction false} DeletesOfNext(policy: Policy, terms: seq<TermRow>, i: nat)
    requires i < |terms|
    ensures DeletesOfAll(policy, terms[..i + 1]) == DeletesOfAll(policy, terms[..i]) + DeletesOf(policy, terms[i])
  {
    assert terms[..i + 1][..i] == terms[..i];
  }

  /** One row for each variant of a term. */
  method PushVariants(rows: seq<DeleteRow>, keys: seq<Str>, term: Str) returns (more: seq<DeleteRow>)
    ensures more == rows + seq(|keys|, j requires 0 <= j < |keys| => DeleteRow(keys[j], term))
  {
    more := rows;
    for j := 0 to |keys|
      invariant |more| == |rows| + j && more[..|rows|] == rows
      invariant forall k :: 0 <= k < j ==> more[|rows| + k] == DeleteRow(keys[k], term)
    {
      more := more + [DeleteRow(keys[j], term)];
    }
  }

  method SpellingDeleteRows(policy: Policy, terms: seq<TermRow>) returns (rows: seq<DeleteRow>)
    ensures rows == DeletesOfAll(policy, terms)
  {
    rows := [];
    for i := 0 to |terms|
      invariant rows == DeletesOfAll(policy, terms[..i])
    {
      DeletesOfNext(policy, terms, i);
      if !IsCorrectionTarget(terms[i].origins) { continue; }
      var depth := policy.depth(|terms[i].term|);
      if depth == 0 { continue; }
      var keys := policy.variants(terms[i].term, depth);
      rows := PushVariants(rows, keys, terms[i].term);
    }
    assert terms[..|terms|] == terms;
  }

  /** The delete row is a variant of this word, which may be proposed. */
  predicate Variant(policy: Policy, term: TermRow, row: DeleteRow) {
    term.term == row.term && Reachable(policy, term)
    && row.deleteKey in policy.variants(row.term, policy.depth(|row.term|))
  }

  /** A delete row points from a variant to the word it came from, and gate-only words have none. */
  lemma {:induction false} DeleteRowsPointToTargets(policy: Policy, terms: seq<TermRow>, row: DeleteRow)
    ensures row in DeletesOfAll(policy, terms)
       <==> exists i :: 0 <= i < |terms| && Variant(policy, terms[i], row)
  {
    if terms != [] {
      var n := |terms| - 1;
      DeleteRowsPointToTargets(policy, terms[..n], row);
      DeletesOfOne(policy, terms[n], row);
      assert terms == terms[..n] + [terms[n]];
    }
  }

  lemma DeletesOfOne(policy: Policy, term: TermRow, row: DeleteRow)
    ensures row in DeletesOf(policy, term)
       <==> Variant(policy, term, row)
  {
    var keys := policy.variants(term.term, policy.depth(|term.term|));
    if Variant(policy, term, row) {
      var i :| 0 <= i < |keys| && keys[i] == row.deleteKey;
      assert DeletesOf(policy, term)[i] == row;
    }
  }
}
