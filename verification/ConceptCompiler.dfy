/** Compiling concepts into the rows of the layer: every concept in name order, or the list of what is wrong. */
module ConceptCompiler {
  import opened CodeUnits
  import opened LayerRecords
  import opened Outcomes
  import opened Spelling
  import opened Texts
  import P = Proposal
  import Sorting

  /** What a reference resolves to, the tokens of a phrase, and the text of a weight, left open. */
  datatype Readings = Readings(range: Str -> Option<(int, int)>, tokens: Str -> seq<Str>, weight: real -> Str)

  // ---- what makes a concept compile --------------------------------------------------------------

  ghost predicate SoundPhrase(c: Readings, phrase: Str) {
    c.tokens(phrase) != [] && Sorting.Distinct(c.tokens(phrase))
  }

  predicate Resolves(c: Readings, anchor: P.Anchor) {
    c.range(anchor.ref).Some? && anchor.sources != []
  }

  /** Every anchor resolves and names a source, and no range is listed twice. */
  ghost predicate SoundAnchors(c: Readings, anchors: seq<P.Anchor>) {
    && (forall i :: 0 <= i < |anchors| ==> Resolves(c, anchors[i]))
    && (forall i, j :: 0 <= i < j < |anchors| ==> c.range(anchors[i].ref) != c.range(anchors[j].ref))
  }

  ghost predicate SoundConcept(c: Readings, id: Str, concept: P.Concept) {
    && id != [] && concept.title != []
    && (forall i :: 0 <= i < |concept.lexicon| ==> SoundPhrase(c, concept.lexicon[i]))
    && SoundAnchors(c, concept.anchors)
  }

  ghost predicate Sound(c: Readings, ontology: P.Ontology) {
    && (forall id :: id in ontology ==> SoundConcept(c, id, ontology[id]))
    && (forall id, k :: id in ontology && 0 <= k < |ontology[id].related| ==> ontology[id].related[k] in ontology)
  }

  // ---- what it compiles to ------------------------------------------------------------------------

  function Entry(c: Readings, id: Str, phrase: Str): LexiconEntry {
    LexiconEntry(id, phrase, JoinWith(c.tokens(phrase), SPACE), |c.tokens(phrase)|)
  }

  function Entries(c: Readings, id: Str, lexicon: seq<Str>): seq<LexiconEntry> {
    seq(|lexicon|, i requires 0 <= i < |lexicon| => Entry(c, id, lexicon[i]))
  }

  /** One row for each source of a resolved anchor. */
  function SourceRows(c: Readings, id: Str, anchor: P.Anchor): seq<Anchor> {
    match c.range(anchor.ref)
    case None => []
    case Some(range) =>
      seq(|anchor.sources|, i requires 0 <= i < |anchor.sources| =>
        Anchor(id, range.0, range.1, anchor.sources[i], c.weight(P.WeightOf(anchor)), Some(anchor.ref)))
  }

  function AnchorRows(c: Readings, id: Str, anchors: seq<P.Anchor>): seq<Anchor> {
    if anchors == [] then []
    else AnchorRows(c, id, anchors[..|anchors| - 1]) + SourceRows(c, id, anchors[|anchors| - 1])
  }

  function Edges(id: Str, related: seq<Str>): seq<Edge> {
    seq(|related|, i requires 0 <= i < |related| => Edge(id, related[i]))
  }

  function Joined(a: Ontology, b: Ontology): Ontology {
    Ontology(a.concepts + b.concepts, a.lexicon + b.lexicon, a.anchors + b.anchors, a.related + b.related)
  }

  function Rows(c: Readings, id: Str, concept: P.Concept): Ontology {
    Ontology([Concept(id, concept.title)], Entries(c, id, concept.lexicon), AnchorRows(c, id, concept.anchors),
             Edges(id, concept.related))
  }

  /** The rows of these concepts, one after the other. */
  function AllRows(c: Readings, ontology: P.Ontology, order: seq<Str>): Ontology
    requires forall id :: id in order ==> id in ontology
  {
    if order == [] then Ontology([], [], [], [])
    else Joined(AllRows(c, ontology, order[..|order| - 1]), Rows(c, order[|order| - 1], ontology[order[|order| - 1]]))
  }

  function FileName(id: Str): Str {
    id + Lit(".yaml")
  }

  predicate NameBefore(a: Str, b: Str) {
    Less(FileName(a), FileName(b))
  }

  /** The rows of an ontology, its concepts in the order of their file names. */
  ghost function Compiled(c: Readings, ontology: P.Ontology): Ontology {
    AllRows(c, ontology, Sorting.Ascending(ontology.Keys, NameBefore))
  }

  // ---- the compiler ----------------------------------------------------------------------------------

  method CountRepeats(tokens: seq<Str>) returns (repeats: nat)
    ensures repeats == 0 <==> Sorting.Distinct(tokens)
  {
    repeats := 0;
    var seen: set<Str> := {};
    for i := 0 to |tokens|
      invariant seen == set t | t in tokens[..i]
      invariant repeats == 0 <==> Sorting.Distinct(tokens[..i])
    {
      assert tokens[..i + 1] == tokens[..i] + [tokens[i]];
      if tokens[i] in seen {
        repeats := repeats + 1;
        var k :| 0 <= k < i && tokens[..i][k] == tokens[i];
        assert tokens[..i + 1][k] == tokens[..i + 1][i];
      }
      if repeats > 0 && !Sorting.Distinct(tokens[..i]) {
        var a, b :| 0 <= a < b < i && tokens[..i][a] == tokens[..i][b];
        assert tokens[..i + 1][a] == tokens[..i + 1][b];
      }
      seen := seen + {tokens[i]};
    }
    assert tokens[..|tokens|] == tokens;
  }

  /** Phrases without tokens, or with a repeated one, are errors and are skipped. */
  method CompileLexicon(c: Readings, id: Str, lexicon: seq<Str>) returns (rows: seq<LexiconEntry>, errors: nat)
    ensures errors == 0 <==> forall i :: 0 <= i < |lexicon| ==> SoundPhrase(c, lexicon[i])
    ensures errors == 0 ==> rows == Entries(c, id, lexicon)
  {
    rows, errors := [], 0;
    for i := 0 to |lexicon|
      invariant errors == 0 <==> forall k :: 0 <= k < i ==> SoundPhrase(c, lexicon[k])
      invariant errors == 0 ==> rows == Entries(c, id, lexicon[..i])
    {
      var tokens := c.tokens(lexicon[i]);
      var repeats := CountRepeats(tokens);
      if tokens == [] || repeats > 0 {
        errors := errors + 1;
        assert !SoundPhrase(c, lexicon[i]);
      } else {
        assert SoundPhrase(c, lexicon[i]);
        rows := rows + [LexiconEntry(id, lexicon[i], JoinWith(tokens, SPACE), |tokens|)];
      }
    }
    assert lexicon[..|lexicon|] == lexicon;
  }

  method CompileSources(c: Readings, id: Str, anchor: P.Anchor) returns (rows: seq<Anchor>)
    requires Resolves(c, anchor)
    ensures rows == SourceRows(c, id, anchor)
  {
    rows := [];
    var range := c.range(anchor.ref).value;
    for i := 0 to |anchor.sources|
      invariant rows == SourceRows(c, id, anchor)[..i]
    {
      rows := rows + [Anchor(id, range.0, range.1, anchor.sources[i], c.weight(P.WeightOf(anchor)), Some(anchor.ref))];
    }
  }

  /** The ranges of the anchors that resolve. */
  function Ranges(c: Readings, anchors: seq<P.Anchor>): set<(int, int)> {
    set a | a in anchors && c.range(a.ref).Some? :: c.range(a.ref).value
  }

  lemma OneMoreAnchor(c: Readings, anchors: seq<P.Anchor>, a: P.Anchor)
    ensures SoundAnchors(c, anchors + [a]) <==>
      SoundAnchors(c, anchors) && Resolves(c, a) && c.range(a.ref).value !in Ranges(c, anchors)
    ensures c.range(a.ref).Some? ==> Ranges(c, anchors + [a]) == Ranges(c, anchors) + {c.range(a.ref).value}
  {
    var more := anchors + [a];
    if SoundAnchors(c, more) {
      forall i | 0 <= i < |anchors| ensures Resolves(c, anchors[i]) && c.range(anchors[i].ref) != c.range(a.ref) {
        assert more[i] == anchors[i] && more[|anchors|] == a;
      }
      forall i, j | 0 <= i < j < |anchors| ensures c.range(anchors[i].ref) != c.range(anchors[j].ref) {
        assert more[i] == anchors[i] && more[j] == anchors[j];
      }
      assert more[|anchors|] == a;
    }
    if SoundAnchors(c, anchors) && Resolves(c, a) && c.range(a.ref).value !in Ranges(c, anchors) {
      forall i | 0 <= i < |anchors| ensures c.range(anchors[i].ref) != c.range(a.ref) {
        assert anchors[i] in anchors && Resolves(c, anchors[i]);
      }
    }
  }

  /** Anchors that do not resolve, name no source or repeat a range are errors and are skipped. */
  method CompileAnchors(c: Readings, id: Str, anchors: seq<P.Anchor>) returns (rows: seq<Anchor>, errors: nat)
    ensures errors == 0 <==> SoundAnchors(c, anchors)
    ensures errors == 0 ==> rows == AnchorRows(c, id, anchors)
  {
    rows, errors := [], 0;
    var seen: set<(int, int)> := {};
    for i := 0 to |anchors|
      invariant errors == 0 <==> SoundAnchors(c, anchors[..i])
      invariant errors == 0 ==> rows == AnchorRows(c, id, anchors[..i]) && seen == Ranges(c, anchors[..i])
    {
      var anchor := anchors[i];
      OneMoreAnchor(c, anchors[..i], anchor);
      assert anchors[..i + 1] == anchors[..i] + [anchor];
      assert anchors[..i + 1][..i] == anchors[..i];
      if c.range(anchor.ref).None? || anchor.sources == [] || c.range(anchor.ref).value in seen {
        errors := errors + 1;
      } else {
        seen := seen + {c.range(anchor.ref).value};
        var more := CompileSources(c, id, anchor);
        rows := rows + more;
      }
    }
    assert anchors[..|anchors|] == anchors;
  }

  method CompileConcept(c: Readings, id: Str, concept: P.Concept) returns (rows: Ontology, errors: nat)
    ensures errors == 0 <==> SoundConcept(c, id, concept)
    ensures errors == 0 ==> rows == Rows(c, id, concept)
  {
    if id == [] || concept.title == [] { return Ontology([], [], [], []), 1; }
    var lexicon, badPhrases := CompileLexicon(c, id, concept.lexicon);
    var anchors, badAnchors := CompileAnchors(c, id, concept.anchors);
    rows := Ontology([Concept(id, concept.title)], lexicon, anchors, Edges(id, concept.related));
    errors := badPhrases + badAnchors;
  }

  lemma FileNamesDiffer(a: Str, b: Str)
    requires FileName(a) == FileName(b)
    ensures a == b
  {
    assert a == FileName(a)[..|a|] && b == FileName(b)[..|b|];
  }

  lemma NamesSort()
    ensures Sorting.StrictWeak(NameBefore)
    ensures forall a, b :: a == b || NameBefore(a, b) || NameBefore(b, a)
  {
    LessSorts();
    forall a, b ensures a == b || NameBefore(a, b) || NameBefore(b, a) {
      NamesCompare(a, b);
    }
    forall a, b, c | !NameBefore(a, b) && !NameBefore(b, c) ensures !NameBefore(a, c) {
      var x, y, z := FileName(a), FileName(b), FileName(c);
      assert !Less(x, y) && !Less(y, z);
    }
  }

  lemma NamesCompare(a: Str, b: Str)
    ensures a == b || NameBefore(a, b) || NameBefore(b, a)
  {
    LessIsTotal(FileName(a), FileName(b));
    if FileName(a) == FileName(b) { FileNamesDiffer(a, b); }
  }

  /** The concepts in the order of their file names, however the map lists them. */
  method InNameOrder(ontology: P.Ontology) returns (order: seq<Str>)
    ensures order == Sorting.Ascending(ontology.Keys, NameBefore)
    ensures forall id :: id in order <==> id in ontology
  {
    var listed := Sorting.Listing(ontology.Keys);
    NamesSort();
    Sorting.SortedListing(listed, ontology.Keys, NameBefore);
    order := Sorting.Sort(listed, NameBefore);
  }

  /** Related edges must point at concepts that exist. */
  method CountDangling(ontology: P.Ontology, related: seq<Edge>) returns (errors: nat)
    ensures errors == 0 <==> forall k :: 0 <= k < |related| ==> related[k].relatedId in ontology
  {
    errors := 0;
    for i := 0 to |related|
      invariant errors == 0 <==> forall k :: 0 <= k < i ==> related[k].relatedId in ontology
    {
      if related[i].relatedId !in ontology { errors := errors + 1; }
    }
  }

  lemma {:induction false} EdgesAre(c: Readings, ontology: P.Ontology, order: seq<Str>, e: Edge)
    requires forall id :: id in order ==> id in ontology
    ensures e in AllRows(c, ontology, order).related <==>
      e.conceptId in order && e.relatedId in ontology[e.conceptId].related
  {
    if order != [] {
      var n := |order| - 1;
      EdgesAre(c, ontology, order[..n], e);
      assert order == order[..n] + [order[n]];
      var edges := Edges(order[n], ontology[order[n]].related);
      if e.conceptId == order[n] && e.relatedId in ontology[order[n]].related {
        var k :| 0 <= k < |ontology[order[n]].related| && ontology[order[n]].related[k] == e.relatedId;
        assert edges[k] == e;
      }
    }
  }

  lemma EdgesClosed(c: Readings, ontology: P.Ontology, order: seq<Str>)
    requires forall id :: id in order <==> id in ontology
    ensures (forall e :: e in AllRows(c, ontology, order).related ==> e.relatedId in ontology)
       <==> (forall id, k :: id in ontology && 0 <= k < |ontology[id].related| ==> ontology[id].related[k] in ontology)
  {
    var edges := AllRows(c, ontology, order).related;
    if forall e :: e in edges ==> e.relatedId in ontology {
      forall id, k | id in ontology && 0 <= k < |ontology[id].related| ensures ontology[id].related[k] in ontology {
        EdgesAre(c, ontology, order, Edge(id, ontology[id].related[k]));
      }
    } else {
      var e :| e in edges && e.relatedId !in ontology;
      EdgesAre(c, ontology, order, e);
      var k :| 0 <= k < |ontology[e.conceptId].related| && ontology[e.conceptId].related[k] == e.relatedId;
    }
  }

  method CompileInOrder(c: Readings, ontology: P.Ontology, order: seq<Str>) returns (rows: Ontology, errors: nat)
    requires forall id :: id in order ==> id in ontology
    ensures errors == 0 <==> forall id :: id in order ==> SoundConcept(c, id, ontology[id])
    ensures errors == 0 ==> rows == AllRows(c, ontology, order)
  {
    rows, errors := Ontology([], [], [], []), 0;
    for i := 0 to |order|
      invariant errors == 0 <==> forall k :: 0 <= k < i ==> SoundConcept(c, order[k], ontology[order[k]])
      invariant errors == 0 ==> rows == AllRows(c, ontology, order[..i])
    {
      var more, wrong := CompileConcept(c, order[i], ontology[order[i]]);
      assert order[..i + 1][..i] == order[..i];
      rows, errors := Joined(rows, more), errors + wrong;
    }
    assert order[..|order|] == order;
  }

  /** `compileConcepts`: the rows in name order, or a refusal exactly when something is wrong. */
  method CompileConcepts(c: Readings, ontology: P.Ontology) returns (result: Outcome<Ontology, P.Failure>)
    ensures result.Ok? <==> Sound(c, ontology)
    ensures result.Ok? ==> result.value == Compiled(c, ontology)
    ensures result.Thrown? ==> result.error == P.InvalidProposal
  {
    var order := InNameOrder(ontology);
    var rows, errors := CompileInOrder(c, ontology, order);
    if errors > 0 { return Thrown(P.InvalidProposal); }
    var dangling := CountDangling(ontology, rows.related);
    EdgesClosed(c, ontology, order);
    if dangling > 0 {
      var k :| 0 <= k < |rows.related| && rows.related[k].relatedId !in ontology;
      assert rows.related[k] in rows.related;
      return Thrown(P.InvalidProposal);
    }
    result := Ok(rows);
  }

  // ---- where an anchor row comes from ------------------------------------------------------------------

  lemma {:induction false} RowsOfAnchors(c: Readings, id: Str, anchors: seq<P.Anchor>, row: Anchor)
    ensures row in AnchorRows(c, id, anchors) <==> exists a :: a in anchors && row in SourceRows(c, id, a)
  {
    if anchors != [] {
      var n := |anchors| - 1;
      RowsOfAnchors(c, id, anchors[..n], row);
      assert anchors == anchors[..n] + [anchors[n]];
      assert forall a :: a in anchors <==> a in anchors[..n] || a == anchors[n];
    }
  }

  lemma {:induction false} RowsOfConcepts(c: Readings, ontology: P.Ontology, order: seq<Str>, row: Anchor)
    requires forall id :: id in order ==> id in ontology
    ensures row in AllRows(c, ontology, order).anchors <==>
      row.conceptId in order && row in AnchorRows(c, row.conceptId, ontology[row.conceptId].anchors)
  {
    if order != [] {
      var n := |order| - 1;
      RowsOfConcepts(c, ontology, order[..n], row);
      assert order == order[..n] + [order[n]];
      RowsOfAnchors(c, order[n], ontology[order[n]].anchors, row);
    }
  }

  /** A row that cites anyone but the editors comes from an anchor that is not solely editorial. */
  lemma SourcedRow(c: Readings, id: Str, anchor: P.Anchor, row: Anchor)
    requires row in SourceRows(c, id, anchor) && row.sourceId != P.EDITORIAL
    ensures !P.SolelyEditorial(anchor)
  {
    var i :| 0 <= i < |anchor.sources| && anchor.sources[i] == row.sourceId;
  }

  /**
   * Whatever the operations, the compiled candidate cites nobody but the editors in a row the
   * compiled base does not have.
   */
  lemma ProposalAddsNoSource(c: Readings, ids: P.Identities, base: P.Ontology, ops: seq<P.Operation>, row: Anchor)
    requires P.Run(ids, base, ops).Ok? && row.sourceId != P.EDITORIAL
    requires row in Compiled(c, P.Run(ids, base, ops).value).anchors
    ensures row in Compiled(c, base).anchors
  {
    var after, id := P.Run(ids, base, ops).value, row.conceptId;
    RowsOfConcepts(c, after, Sorting.Ascending(after.Keys, NameBefore), row);
    RowsOfAnchors(c, id, after[id].anchors, row);
    var a :| a in after[id].anchors && row in SourceRows(c, id, a);
    SourcedRow(c, id, a, row);
    P.RunKeepsSources(ids, base, ops);
    P.SourcedMembers(after[id].anchors, a);
    P.SourcedMembers(base[id].anchors, a);
    RowsOfAnchors(c, id, base[id].anchors, row);
    RowsOfConcepts(c, base, Sorting.Ascending(base.Keys, NameBefore), row);
  }
}
