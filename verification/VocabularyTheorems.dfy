/** The spelling tables, said of the five sources: which words are listed, with which count and origins. */
module VocabularyTheorems {
  import opened CodeUnits
  import opened FeedTheorems
  import opened Outcomes
  import opened Spelling
  import opened Texts
  import Sorting

  predicate InCorpus(sources: Sources, term: Str) {
    exists k :: 0 <= k < |sources.corpus| && sources.corpus[k].term == term
  }

  /** The word is one of the space-separated words of a lexicon phrase. */
  predicate InPhrase(sources: Sources, term: Str) {
    exists k :: 0 <= k < |sources.lexicon| && term in SplitOn(sources.lexicon[k], 0x20)
  }

  /** The source of this name has the word. */
  predicate HasWord(sources: Sources, name: Str, term: Str) {
    || (name == Lit("corpus") && InCorpus(sources, term))
    || (name == Lit("books") && term in sources.aliasKeys)
    || (name == Lit("lexicon") && InPhrase(sources, term))
    || (name == Lit("translations") && term in sources.translations)
    || (name == Lit("verse_terms") && term in sources.verseTerms)
  }

  /** The largest document count the corpus gives the word, or nothing at all. */
  predicate CountIs(sources: Sources, term: Str, count: nat) {
    && (forall k :: 0 <= k < |sources.corpus| && sources.corpus[k].term == term ==>
          sources.corpus[k].documentCount <= count)
    && (count > 0 ==>
          exists k :: 0 <= k < |sources.corpus| && sources.corpus[k].term == term
                      && sources.corpus[k].documentCount == count)
  }

  /** The names, ascending and each once, of the sources that have the word. */
  ghost predicate OriginsAre(sources: Sources, term: Str, names: seq<Str>) {
    && (forall name :: name in names <==> HasWord(sources, name, term))
    && (forall i, j :: 0 <= i < j < |names| ==> Less(names[i], names[j]))
  }

  // ---- sightings -------------------------------------------------------------------------------------

  lemma CorpusSightings(sources: Sources, s: Sighting)
    ensures s in FromCorpus(sources.corpus) <==>
      s.origin == Corpus && exists k :: 0 <= k < |sources.corpus| && sources.corpus[k] == CorpusToken(s.term, s.documentCount)
  {
    if s in FromCorpus(sources.corpus) {
      var row :| row in sources.corpus && s == Sighting(row.term, Corpus, row.documentCount);
      assert row == CorpusToken(s.term, s.documentCount);
    }
  }

  /** A word is sighted by an origin exactly when the source of that name has it. */
  lemma SightingIsWord(sources: Sources, origin: Origin, term: Str)
    ensures (exists s :: s in SightingsOf(sources) && s.term == term && s.origin == origin)
       <==> HasWord(sources, Name(origin), term)
  {
    OriginsSpell();
    LaterOriginsSpell();
    NamesDiffer();
    if s :| s in SightingsOf(sources) && s.term == term && s.origin == origin { SightedIsHad(sources, s); }
    if HasWord(sources, Name(origin), term) {
      var s := HadIsSighted(sources, origin, term);
      assert s in SightingsOf(sources);
    }
  }

  lemma NamesDiffer()
    ensures forall a, b :: Name(a) == Name(b) ==> a == b
  {
  }

  lemma SightedIsHad(sources: Sources, s: Sighting)
    requires s in SightingsOf(sources)
    ensures HasWord(sources, Name(s.origin), s.term)
  {
    OriginsSpell();
    LaterOriginsSpell();
    CorpusSightings(sources, s);
    if s in FromLexicon(sources.lexicon) {
      var n :| n in sources.lexicon && s.term in SplitOn(n, 0x20);
      var k :| 0 <= k < |sources.lexicon| && sources.lexicon[k] == n;
      assert InPhrase(sources, s.term);
    }
  }

  lemma HadIsSighted(sources: Sources, origin: Origin, term: Str) returns (s: Sighting)
    requires HasWord(sources, Name(origin), term)
    ensures s in SightingsOf(sources) && s.term == term && s.origin == origin
  {
    OriginsSpell();
    LaterOriginsSpell();
    NamesDiffer();
    s := Sighting(term, origin, 0);
    match origin {
      case Corpus =>
        var k :| 0 <= k < |sources.corpus| && sources.corpus[k].term == term;
        s := Sighting(term, Corpus, sources.corpus[k].documentCount);
        assert sources.corpus[k] in sources.corpus && s in FromCorpus(sources.corpus);
      case Books => assert s in FromList(sources.aliasKeys, Books);
      case Lexicon =>
        var k :| 0 <= k < |sources.lexicon| && term in SplitOn(sources.lexicon[k], 0x20);
        assert sources.lexicon[k] in sources.lexicon && s in FromLexicon(sources.lexicon);
      case Translations => assert s in FromList(sources.translations, Translations);
      case VerseTerms => assert s in FromList(sources.verseTerms, VerseTerms);
    }
  }

  // ---- the vocabulary --------------------------------------------------------------------------------

  /** The rows ascend by word; a word is listed exactly when it is not empty and some source has it. */
  lemma VocabularyListsWords(sources: Sources, rows: seq<TermRow>, term: Str)
    requires IsVocabulary(SightingsOf(sources), rows)
    ensures forall i, j :: 0 <= i < j < |rows| ==> Less(rows[i].term, rows[j].term)
    ensures (exists i :: 0 <= i < |rows| && rows[i].term == term)
       <==> term != [] && exists name :: HasWord(sources, name, term)
  {
    if i :| 0 <= i < |rows| && rows[i].term == term {
      assert IsRow(SightingsOf(sources), rows[i]);
      var s :| s in SightingsOf(sources) && s.term == term;
      SightedIsHad(sources, s);
    }
    if name :| HasWord(sources, name, term) {
      var origin := OriginOf(sources, name, term);
      var s := HadIsSighted(sources, origin, term);
      if term != [] { assert term in TermsIn(SightingsOf(sources)); }
    }
  }

  lemma OriginOf(sources: Sources, name: Str, term: Str) returns (origin: Origin)
    requires HasWord(sources, name, term)
    ensures Name(origin) == name
  {
    OriginsSpell();
    LaterOriginsSpell();
    origin := if name == Lit("corpus") then Corpus else if name == Lit("books") then Books
              else if name == Lit("lexicon") then Origin.Lexicon else if name == Lit("translations") then Translations
              else VerseTerms;
  }

  /** A row has the word's largest document count and the names of its sources, joined with a plus. */
  lemma RowSpells(sources: Sources, rows: seq<TermRow>, i: nat) returns (names: seq<Str>)
    requires IsVocabulary(SightingsOf(sources), rows) && i < |rows|
    ensures CountIs(sources, rows[i].term, rows[i].documentCount)
    ensures OriginsAre(sources, rows[i].term, names)
    ensures rows[i].origins == JoinWith(names, 0x2B)
  {
    assert IsRow(SightingsOf(sources), rows[i]);
    RowCounts(sources, rows[i]);
    var origins := OriginsIn(SightingsOf(sources), rows[i].term);
    names := Sorting.Ascending(Names(origins), Less);
    LessSorts();
    Sorting.SortedListing(Sorting.Enumerated(Names(origins)), Names(origins), Less);
    forall name ensures name in names <==> HasWord(sources, name, rows[i].term) {
      NamesAreSources(sources, rows[i].term, origins, name);
    }
  }

  lemma NamesAreSources(sources: Sources, term: Str, origins: set<Origin>, name: Str)
    requires origins == OriginsIn(SightingsOf(sources), term)
    ensures name in Names(origins) <==> HasWord(sources, name, term)
  {
    if name in Names(origins) {
      var origin :| origin in origins && Name(origin) == name;
      SightingIsWord(sources, origin, term);
    }
    if HasWord(sources, name, term) {
      var origin := OriginOf(sources, name, term);
      SightingIsWord(sources, origin, term);
      assert origin in origins;
    }
  }

  lemma RowCounts(sources: Sources, row: TermRow)
    requires IsRow(SightingsOf(sources), row)
    ensures CountIs(sources, row.term, row.documentCount)
  {
    forall k | 0 <= k < |sources.corpus| && sources.corpus[k].term == row.term
      ensures sources.corpus[k].documentCount <= row.documentCount
    {
      var s := Sighting(row.term, Corpus, sources.corpus[k].documentCount);
      assert sources.corpus[k] in sources.corpus && s in FromCorpus(sources.corpus);
      assert s in SightingsOf(sources);
    }
    var s :| s in SightingsOf(sources) && s.term == row.term && s.documentCount == row.documentCount;
    if s.documentCount > 0 { CorpusSightings(sources, s); }
  }

  // ---- the delete rows -------------------------------------------------------------------------------

  /** A source other than the verse terms has the word. */
  ghost predicate MayBeProposed(sources: Sources, term: Str) {
    exists name :: name != Lit("verse_terms") && HasWord(sources, name, term)
  }

  /**
   * There is a delete row exactly for each variant, at its length's depth if that is not zero, of a
   * listed word that a source other than the verse terms has.
   */
  lemma DeletesSpell(policy: Policy, sources: Sources, rows: seq<TermRow>, row: DeleteRow)
    requires IsVocabulary(SightingsOf(sources), rows)
    ensures row in DeletesOfAll(policy, rows)
       <==> && row.term != [] && MayBeProposed(sources, row.term)
            && policy.depth(|row.term|) != 0 && row.deleteKey in policy.variants(row.term, policy.depth(|row.term|))
  {
    DeleteRowsPointToTargets(policy, rows, row);
    if i :| 0 <= i < |rows| && Variant(policy, rows[i], row) {
      assert IsRow(SightingsOf(sources), rows[i]);
      ProposedIsTarget(sources, rows[i]);
    }
    if row.term != [] && MayBeProposed(sources, row.term) {
      var name :| name != Lit("verse_terms") && HasWord(sources, name, row.term);
      VocabularyListsWords(sources, rows, row.term);
      var i :| 0 <= i < |rows| && rows[i].term == row.term;
      assert IsRow(SightingsOf(sources), rows[i]);
      ProposedIsTarget(sources, rows[i]);
      assert Variant(policy, rows[i], row) <==>
        policy.depth(|row.term|) != 0 && row.deleteKey in policy.variants(row.term, policy.depth(|row.term|));
    }
  }

  lemma ProposedIsTarget(sources: Sources, row: TermRow)
    requires IsRow(SightingsOf(sources), row)
    ensures IsCorrectionTarget(row.origins) <==> MayBeProposed(sources, row.term)
  {
    TargetsHaveAnotherOrigin(SightingsOf(sources), row);
    LaterOriginsSpell();
    NamesDiffer();
    if s :| s in SightingsOf(sources) && s.term == row.term && s.origin != VerseTerms {
      SightedIsHad(sources, s);
      assert Name(s.origin) != Lit("verse_terms");
    }
    if name :| name != Lit("verse_terms") && HasWord(sources, name, row.term) {
      var origin := OriginOf(sources, name, row.term);
      var s := HadIsSighted(sources, origin, row.term);
    }
  }
}
