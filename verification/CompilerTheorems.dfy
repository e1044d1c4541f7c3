/** The compiled rows, field by field: which concept, phrase, anchor and edge each of them comes from. */
module CompilerTheorems {
  import opened CodeUnits
  import opened ConceptCompiler
  import opened LayerRecords
  import opened Outcomes
  import opened Texts
  import P = Proposal
  import Sorting

  /** The parts one after the other. */
  function Flat<T>(parts: seq<seq<T>>): seq<T> {
    if parts == [] then [] else Flat(parts[..|parts| - 1]) + parts[|parts| - 1]
  }

  /** Each concept once, ascending by the name of its file. */
  ghost predicate ByFileName(ontology: P.Ontology, order: seq<Str>) {
    && (forall id :: id in order <==> id in ontology)
    && (forall i, j :: 0 <= i < j < |order| ==> Less(order[i] + Lit(".yaml"), order[j] + Lit(".yaml")))
  }

  /** One entry for each phrase: its tokens with a space between, and how many there are. */
  predicate EntriesSpelled(c: Readings, id: Str, lexicon: seq<Str>, rows: seq<LexiconEntry>) {
    |rows| == |lexicon| && forall i :: 0 <= i < |rows| ==>
      rows[i] == LexiconEntry(id, lexicon[i], JoinWith(c.tokens(lexicon[i]), 0x20), |c.tokens(lexicon[i])|)
  }

  predicate EdgesSpelled(id: Str, related: seq<Str>, rows: seq<Edge>) {
    |rows| == |related| && forall i :: 0 <= i < |rows| ==> rows[i] == Edge(id, related[i])
  }

  /** One row for each source of an anchor that resolves, with weight one where the anchor names none. */
  predicate SourcesSpelled(c: Readings, id: Str, anchor: P.Anchor, rows: seq<Anchor>) {
    match c.range(anchor.ref)
    case None => rows == []
    case Some(range) =>
      var weight := match anchor.weight case None => 1.0 case Some(w) => w;
      |rows| == |anchor.sources| && forall i :: 0 <= i < |rows| ==>
        rows[i] == Anchor(id, range.0, range.1, anchor.sources[i], c.weight(weight), Some(anchor.ref))
  }

  lemma SourceRowsSpell(c: Readings, id: Str, anchor: P.Anchor)
    ensures SourcesSpelled(c, id, anchor, SourceRows(c, id, anchor))
  {
    var rows := SourceRows(c, id, anchor);
    if c.range(anchor.ref).Some? {
      var range := c.range(anchor.ref).value;
      var weight := match anchor.weight case None => 1.0 case Some(w) => w;
      assert P.WeightOf(anchor) == weight && |rows| == |anchor.sources|;
      forall i | 0 <= i < |rows|
        ensures rows[i] == Anchor(id, range.0, range.1, anchor.sources[i], c.weight(weight), Some(anchor.ref))
      {
      }
    }
  }

  /** Part `k` holds the rows of anchor `k`. */
  predicate AnchorPart(c: Readings, id: Str, anchors: seq<P.Anchor>, parts: seq<seq<Anchor>>, k: nat)
    requires k < |anchors| == |parts|
  {
    SourcesSpelled(c, id, anchors[k], parts[k])
  }

  lemma AnchorPartStays(c: Readings, id: Str, anchors: seq<P.Anchor>, parts: seq<seq<Anchor>>, k: nat,
                        anchor: P.Anchor, part: seq<Anchor>)
    requires k < |anchors| == |parts| && AnchorPart(c, id, anchors, parts, k)
    ensures AnchorPart(c, id, anchors + [anchor], parts + [part], k)
  {
  }

  /** The rows of an anchor list are those of its anchors, one after the other. */
  lemma {:induction false} AnchorRowsSpell(c: Readings, id: Str, anchors: seq<P.Anchor>) returns (parts: seq<seq<Anchor>>)
    ensures |parts| == |anchors| && AnchorRows(c, id, anchors) == Flat(parts)
    ensures forall k {:trigger AnchorPart(c, id, anchors, parts, k)} :: 0 <= k < |anchors| ==>
      AnchorPart(c, id, anchors, parts, k)
    decreases |anchors|
  {
    if anchors == [] {
      parts := [];
    } else {
      var n := |anchors| - 1;
      var front, anchor := anchors[..n], anchors[n];
      var part := SourceRows(c, id, anchor);
      var before := AnchorRowsSpell(c, id, front);
      parts := before + [part];
      assert parts[..n] == before && anchors == front + [anchor];
      forall k {:trigger AnchorPart(c, id, anchors, parts, k)} | 0 <= k < |anchors|
        ensures AnchorPart(c, id, anchors, parts, k)
      {
        if k < n { AnchorPartStays(c, id, front, before, k, anchor, part); } else { SourceRowsSpell(c, id, anchor); }
      }
    }
  }

  /** What a compiled concept brings to each table. */
  datatype Part = Part(lexicon: seq<LexiconEntry>, anchors: seq<Anchor>, related: seq<Edge>)

  function Lexica(parts: seq<Part>): seq<seq<LexiconEntry>> {
    seq(|parts|, i requires 0 <= i < |parts| => parts[i].lexicon)
  }

  function AnchorLists(parts: seq<Part>): seq<seq<Anchor>> {
    seq(|parts|, i requires 0 <= i < |parts| => parts[i].anchors)
  }

  function EdgeLists(parts: seq<Part>): seq<seq<Edge>> {
    seq(|parts|, i requires 0 <= i < |parts| => parts[i].related)
  }

  /** The part is what this concept compiles to. */
  predicate PartSpelled(c: Readings, id: Str, concept: P.Concept, part: Part) {
    && EntriesSpelled(c, id, concept.lexicon, part.lexicon)
    && part.anchors == AnchorRows(c, id, concept.anchors)
    && EdgesSpelled(id, concept.related, part.related)
  }

  /** Row `k` of the concepts is concept `k` of the order, and part `k` what it compiles to. */
  predicate ConceptSpelled(c: Readings, ontology: P.Ontology, order: seq<Str>, parts: seq<Part>, concepts: seq<Concept>,
                           k: nat)
    requires k < |order| == |parts| == |concepts|
  {
    && order[k] in ontology && concepts[k] == Concept(order[k], ontology[order[k]].title)
    && PartSpelled(c, order[k], ontology[order[k]], parts[k])
  }

  /** The rows are those of the parts, one concept after the other. */
  ghost predicate RowsSpelled(c: Readings, ontology: P.Ontology, order: seq<Str>, parts: seq<Part>, rows: Ontology) {
    && |parts| == |order| == |rows.concepts|
    && (forall k {:trigger ConceptSpelled(c, ontology, order, parts, rows.concepts, k)} :: 0 <= k < |order| ==>
          ConceptSpelled(c, ontology, order, parts, rows.concepts, k))
    && rows.lexicon == Flat(Lexica(parts)) && rows.anchors == Flat(AnchorLists(parts))
    && rows.related == Flat(EdgeLists(parts))
  }

  lemma ConceptStays(c: Readings, ontology: P.Ontology, order: seq<Str>, parts: seq<Part>, concepts: seq<Concept>, k: nat,
                     id: Str, part: Part, concept: Concept)
    requires k < |order| == |parts| == |concepts| && ConceptSpelled(c, ontology, order, parts, concepts, k)
    ensures ConceptSpelled(c, ontology, order + [id], parts + [part], concepts + [concept], k)
  {
  }

  lemma OneMoreConcept(c: Readings, ontology: P.Ontology, order: seq<Str>, parts: seq<Part>, rows: Ontology, id: Str,
                       part: Part)
    requires RowsSpelled(c, ontology, order, parts, rows) && id in ontology && PartSpelled(c, id, ontology[id], part)
    ensures RowsSpelled(c, ontology, order + [id], parts + [part],
                        Ontology(rows.concepts + [Concept(id, ontology[id].title)], rows.lexicon + part.lexicon,
                                 rows.anchors + part.anchors, rows.related + part.related))
  {
    FlatGrows(parts, part);
    var more, all, concepts := order + [id], parts + [part], rows.concepts + [Concept(id, ontology[id].title)];
    forall k {:trigger ConceptSpelled(c, ontology, more, all, concepts, k)} | 0 <= k < |more|
      ensures ConceptSpelled(c, ontology, more, all, concepts, k)
    {
      if k < |order| {
        ConceptStays(c, ontology, order, parts, rows.concepts, k, id, part, Concept(id, ontology[id].title));
      } else {
        assert more[k] == id && all[k] == part && concepts[k] == Concept(id, ontology[id].title);
      }
    }
  }

  lemma FlatGrows(parts: seq<Part>, part: Part)
    ensures Flat(Lexica(parts + [part])) == Flat(Lexica(parts)) + part.lexicon
    ensures Flat(AnchorLists(parts + [part])) == Flat(AnchorLists(parts)) + part.anchors
    ensures Flat(EdgeLists(parts + [part])) == Flat(EdgeLists(parts)) + part.related
  {
    var more := parts + [part];
    assert Lexica(more)[..|parts|] == Lexica(parts) && AnchorLists(more)[..|parts|] == AnchorLists(parts);
    assert EdgeLists(more)[..|parts|] == EdgeLists(parts);
  }

  lemma PartOf(c: Readings, id: Str, concept: P.Concept) returns (part: Part)
    ensures PartSpelled(c, id, concept, part)
    ensures Rows(c, id, concept) == Ontology([Concept(id, concept.title)], part.lexicon, part.anchors, part.related)
  {
    part := Part(Entries(c, id, concept.lexicon), AnchorRows(c, id, concept.anchors), Edges(id, concept.related));
  }

  lemma {:induction false} AllRowsSpell(c: Readings, ontology: P.Ontology, order: seq<Str>) returns (parts: seq<Part>)
    requires forall id :: id in order ==> id in ontology
    ensures RowsSpelled(c, ontology, order, parts, AllRows(c, ontology, order))
    decreases |order|
  {
    if order == [] {
      parts := [];
    } else {
      var n := |order| - 1;
      var id := order[n];
      var before := AllRowsSpell(c, ontology, order[..n]);
      var part := PartOf(c, id, ontology[id]);
      OneMoreConcept(c, ontology, order[..n], before, AllRows(c, ontology, order[..n]), id, part);
      parts := before + [part];
      assert order == order[..n] + [id];
    }
  }

  /** The compiled ontology: its concepts by file name, and their entries, anchors and edges in that order. */
  lemma CompiledSpells(c: Readings, ontology: P.Ontology) returns (order: seq<Str>, parts: seq<Part>)
    ensures ByFileName(ontology, order)
    ensures RowsSpelled(c, ontology, order, parts, Compiled(c, ontology))
  {
    order := Sorting.Ascending(ontology.Keys, NameBefore);
    NamesSort();
    Sorting.SortedListing(Sorting.Enumerated(ontology.Keys), ontology.Keys, NameBefore);
    forall i, j | 0 <= i < j < |order| ensures Less(order[i] + Lit(".yaml"), order[j] + Lit(".yaml")) {
      assert NameBefore(order[i], order[j]);
    }
    parts := AllRowsSpell(c, ontology, order);
  }

  // ---- what is refused -------------------------------------------------------------------------------

  /** The phrase has no tokens, or one of them twice. */
  predicate BadPhrase(tokens: seq<Str>) {
    tokens == [] || exists i, j :: 0 <= i < j < |tokens| && tokens[i] == tokens[j]
  }

  /** The reference does not resolve, or nobody vouches for it. */
  predicate BadAnchor(c: Readings, anchor: P.Anchor) {
    c.range(anchor.ref).None? || |anchor.sources| == 0
  }

  /** Two anchors that resolve to the same range. */
  predicate SameRange(c: Readings, anchors: seq<P.Anchor>) {
    exists i, j :: 0 <= i < j < |anchors| && c.range(anchors[i].ref).Some? && c.range(anchors[i].ref) == c.range(anchors[j].ref)
  }

  /** The concept has no id or no title, a bad phrase, a bad anchor, one range twice, or an edge to nowhere. */
  predicate Defective(c: Readings, ontology: P.Ontology, id: Str, concept: P.Concept) {
    || id == [] || concept.title == []
    || (exists i :: 0 <= i < |concept.lexicon| && BadPhrase(c.tokens(concept.lexicon[i])))
    || (exists i :: 0 <= i < |concept.anchors| && BadAnchor(c, concept.anchors[i]))
    || SameRange(c, concept.anchors)
    || (exists i :: 0 <= i < |concept.related| && concept.related[i] !in ontology)
  }

  lemma AnchorsAreBad(c: Readings, anchors: seq<P.Anchor>)
    ensures !SoundAnchors(c, anchors)
       <==> (exists i :: 0 <= i < |anchors| && BadAnchor(c, anchors[i])) || SameRange(c, anchors)
  {
    if !SoundAnchors(c, anchors) && forall i :: 0 <= i < |anchors| ==> !BadAnchor(c, anchors[i]) {
      forall i | 0 <= i < |anchors| ensures Resolves(c, anchors[i]) { assert !BadAnchor(c, anchors[i]); }
      var i, j :| 0 <= i < j < |anchors| && c.range(anchors[i].ref) == c.range(anchors[j].ref);
      assert Resolves(c, anchors[i]);
    }
    if i :| 0 <= i < |anchors| && BadAnchor(c, anchors[i]) { assert !Resolves(c, anchors[i]); }
  }

  lemma ConceptIsDefective(c: Readings, ontology: P.Ontology, id: Str, concept: P.Concept)
    ensures Defective(c, ontology, id, concept)
       <==> !SoundConcept(c, id, concept) || exists i :: 0 <= i < |concept.related| && concept.related[i] !in ontology
  {
    AnchorsAreBad(c, concept.anchors);
    forall i | 0 <= i < |concept.lexicon|
      ensures SoundPhrase(c, concept.lexicon[i]) <==> !BadPhrase(c.tokens(concept.lexicon[i]))
    {
    }
  }

  /** Compiling is refused exactly when some concept is defective. */
  lemma RefusedExactly(c: Readings, ontology: P.Ontology)
    ensures !Sound(c, ontology) <==> exists id :: id in ontology && Defective(c, ontology, id, ontology[id])
  {
    forall id | id in ontology
      ensures Defective(c, ontology, id, ontology[id])
         <==> !SoundConcept(c, id, ontology[id])
              || exists i :: 0 <= i < |ontology[id].related| && ontology[id].related[i] !in ontology
    {
      ConceptIsDefective(c, ontology, id, ontology[id]);
    }
    if !Sound(c, ontology) && forall id :: id in ontology ==> SoundConcept(c, id, ontology[id]) {
      var id, k :| id in ontology && 0 <= k < |ontology[id].related| && ontology[id].related[k] !in ontology;
      assert Defective(c, ontology, id, ontology[id]);
    }
  }
}
