/** The proposal interpreter: reviewed operations applied to a copy of the concept ontology. */
module Proposal {
  import opened CodeUnits
  import opened Outcomes

  datatype Anchor = Anchor(ref: Str, sources: seq<Str>, weight: Option<real>)
  datatype Concept = Concept(title: Str, lexicon: seq<Str>, anchors: seq<Anchor>, related: seq<Str>, topics: seq<Str>)
  datatype Draft = Draft(id: Str, title: Str, lexicon: seq<Str>, anchors: seq<DraftAnchor>, related: seq<Str>)

  /** A proposed anchor is parsed only if its source list is exactly the editors. */
  datatype DraftAnchor = DraftAnchor(locator: Str, weight: real)

  datatype Operation =
    | PhraseAdd(conceptId: Str, phrase: Str)
    | PhraseRemove(conceptId: Str, phrase: Str)
    | AnchorAdd(conceptId: Str, locator: Str, weight: real)
    | AnchorRemove(conceptId: Str, locator: Str)
    | AnchorAdjust(conceptId: Str, locator: Str, weight: real, nextLocator: Str, nextWeight: real)
    | RelatedAdd(conceptId: Str, relatedId: Str)
    | RelatedRemove(conceptId: Str, relatedId: Str)
    | DraftCreate(draft: Draft)
    | DraftsMerge(draft: Draft)
    | FixtureOnly

  datatype Failure = InvalidProposal | ProvenanceFailed | SourcePreconditionFailed

  /** Normalised identities, left open: a phrase always has one, a locator may fail to resolve. */
  datatype Identities = Identities(phrase: Str -> Str, anchor: Str -> Option<Str>)

  type Ontology = map<Str, Concept>

  const EDITORIAL: Str := Lit("editorial")

  predicate SolelyEditorial(anchor: Anchor) {
    anchor.sources == [EDITORIAL]
  }

  // ---- searches -------------------------------------------------------------------------

  /** `findIndex` over phrases: the first with this identity, or the length. */
  function PhraseIndex(ids: Identities, lexicon: seq<Str>, identity: Str, from: nat): (i: nat)
    requires from <= |lexicon|
    ensures from <= i <= |lexicon|
    ensures i < |lexicon| ==> ids.phrase(lexicon[i]) == identity
    ensures forall k :: from <= k < i ==> ids.phrase(lexicon[k]) != identity
    decreases |lexicon| - from
  {
    if from == |lexicon| || ids.phrase(lexicon[from]) == identity then from
    else PhraseIndex(ids, lexicon, identity, from + 1)
  }

  method FindPhrase(ids: Identities, lexicon: seq<Str>, identity: Str) returns (i: nat)
    ensures i == PhraseIndex(ids, lexicon, identity, 0)
  {
    i := 0;
    while i < |lexicon|
      invariant i <= |lexicon| && PhraseIndex(ids, lexicon, identity, i) == PhraseIndex(ids, lexicon, identity, 0)
    {
      if ids.phrase(lexicon[i]) == identity { return; }
      i := i + 1;
    }
  }

  /** Anchors are resolved one by one; a locator that does not resolve before the match throws. */
  function AnchorIndex(ids: Identities, anchors: seq<Anchor>, identity: Str, from: nat): (r: Outcome<nat, Failure>)
    requires from <= |anchors|
    ensures r.Ok? ==> from <= r.value <= |anchors|
    ensures r.Ok? && r.value < |anchors| ==> ids.anchor(anchors[r.value].ref) == Some(identity)
    ensures r.Ok? ==> forall k :: from <= k < r.value ==>
      ids.anchor(anchors[k].ref).Some? && ids.anchor(anchors[k].ref) != Some(identity)
    ensures r.Thrown? ==> r.error == InvalidProposal
    decreases |anchors| - from
  {
    if from == |anchors| then Ok(from)
    else match ids.anchor(anchors[from].ref)
      case None => Thrown(InvalidProposal)
      case Some(found) => if found == identity then Ok(from) else AnchorIndex(ids, anchors, identity, from + 1)
  }

  method FindAnchor(ids: Identities, anchors: seq<Anchor>, identity: Str) returns (r: Outcome<nat, Failure>)
    ensures r == AnchorIndex(ids, anchors, identity, 0)
  {
    var i := 0;
    while i < |anchors|
      invariant 0 <= i <= |anchors| && AnchorIndex(ids, anchors, identity, i) == AnchorIndex(ids, anchors, identity, 0)
    {
      match ids.anchor(anchors[i].ref) {
        case None => return Thrown(InvalidProposal);
        case Some(found) => if found == identity { return Ok(i); }
      }
      i := i + 1;
    }
    return Ok(i);
  }

  /** `indexOf` over related ids. */
  function RelatedIndex(related: seq<Str>, id: Str, from: nat): (i: nat)
    requires from <= |related|
    ensures from <= i <= |related|
    ensures i < |related| ==> related[i] == id
    ensures forall k :: from <= k < i ==> related[k] != id
    decreases |related| - from
  {
    if from == |related| || related[from] == id then from else RelatedIndex(related, id, from + 1)
  }

  /** `list.splice(i, 1)` */
  function Without<T>(list: seq<T>, i: nat): seq<T>
    requires i < |list|
  {
    list[..i] + list[i + 1..]
  }

  // ---- one operation ----------------------------------------------------------------------

  function AddPhrase(ids: Identities, c: Concept, phrase: Str): Outcome<Concept, Failure> {
    if PhraseIndex(ids, c.lexicon, ids.phrase(phrase), 0) < |c.lexicon| then Thrown(InvalidProposal)
    else Ok(c.(lexicon := c.lexicon + [phrase]))
  }

  function RemovePhrase(ids: Identities, c: Concept, phrase: Str): Outcome<Concept, Failure> {
    var i := PhraseIndex(ids, c.lexicon, ids.phrase(phrase), 0);
    if i == |c.lexicon| then Thrown(InvalidProposal) else Ok(c.(lexicon := Without(c.lexicon, i)))
  }

  /** `canonicalAnchorIdentity` */
  function Resolve(ids: Identities, locator: Str): Outcome<Str, Failure> {
    match ids.anchor(locator)
    case None => Thrown(InvalidProposal)
    case Some(identity) => Ok(identity)
  }

  function AddAnchor(ids: Identities, c: Concept, locator: Str, weight: real): Outcome<Concept, Failure> {
    var identity :- Resolve(ids, locator);
    var i :- AnchorIndex(ids, c.anchors, identity, 0);
    if i < |c.anchors| then Thrown(InvalidProposal)
    else Ok(c.(anchors := c.anchors + [Anchor(locator, [EDITORIAL], Some(weight))]))
  }

  function RemoveAnchor(ids: Identities, c: Concept, locator: Str): Outcome<Concept, Failure> {
    var identity :- Resolve(ids, locator);
    var i :- AnchorIndex(ids, c.anchors, identity, 0);
    if i == |c.anchors| then Thrown(InvalidProposal)
    else if !SolelyEditorial(c.anchors[i]) then Thrown(ProvenanceFailed)
    else Ok(c.(anchors := Without(c.anchors, i)))
  }

  /** The weight of an anchor that names none is one. */
  function WeightOf(anchor: Anchor): real {
    if anchor.weight.Some? then anchor.weight.value else 1.0
  }

  function AdjustAnchor(ids: Identities, c: Concept, locator: Str, weight: real, nextLocator: Str, nextWeight: real)
    : Outcome<Concept, Failure>
  {
    var identity :- Resolve(ids, locator);
    var nextIdentity :- Resolve(ids, nextLocator);
    var i :- AnchorIndex(ids, c.anchors, identity, 0);
    if i == |c.anchors| then Thrown(InvalidProposal)
    else if !SolelyEditorial(c.anchors[i]) then Thrown(ProvenanceFailed)
    else if WeightOf(c.anchors[i]) != weight then Thrown(SourcePreconditionFailed)
    else
      var taken :- if identity == nextIdentity then Ok(|c.anchors|) else AnchorIndex(ids, c.anchors, nextIdentity, 0);
      if taken < |c.anchors| then Thrown(InvalidProposal)
      else Ok(c.(anchors := c.anchors[i := Anchor(nextLocator, c.anchors[i].sources, Some(nextWeight))]))
  }

  function AddRelated(c: Concept, id: Str): Outcome<Concept, Failure> {
    if RelatedIndex(c.related, id, 0) < |c.related| then Thrown(InvalidProposal)
    else Ok(c.(related := c.related + [id]))
  }

  function RemoveRelated(c: Concept, id: Str): Outcome<Concept, Failure> {
    var i := RelatedIndex(c.related, id, 0);
    if i == |c.related| then Thrown(InvalidProposal) else Ok(c.(related := Without(c.related, i)))
  }

  function DraftAnchors(anchors: seq<DraftAnchor>): seq<Anchor> {
    seq(|anchors|, i requires 0 <= i < |anchors| =>
      Anchor(anchors[i].locator, [EDITORIAL], Some(anchors[i].weight)))
  }

  function DraftConcept(draft: Draft): Concept {
    Concept(draft.title, draft.lexicon, DraftAnchors(draft.anchors), draft.related, [])
  }

  /** The change an operation makes to the concept it names. */
  function Change(ids: Identities, c: Concept, op: Operation): Outcome<Concept, Failure>
    requires !op.FixtureOnly? && !op.DraftCreate? && !op.DraftsMerge?
  {
    match op
    case PhraseAdd(_, phrase) => AddPhrase(ids, c, phrase)
    case PhraseRemove(_, phrase) => RemovePhrase(ids, c, phrase)
    case AnchorAdd(_, locator, weight) => AddAnchor(ids, c, locator, weight)
    case AnchorRemove(_, locator) => RemoveAnchor(ids, c, locator)
    case AnchorAdjust(_, locator, weight, nextLocator, nextWeight) =>
      AdjustAnchor(ids, c, locator, weight, nextLocator, nextWeight)
    case RelatedAdd(_, id) => AddRelated(c, id)
    case RelatedRemove(_, id) => RemoveRelated(c, id)
  }

  function Step(ids: Identities, ontology: Ontology, op: Operation): Outcome<Ontology, Failure> {
    if op.FixtureOnly? then Ok(ontology)
    else if op.DraftCreate? || op.DraftsMerge? then
      if op.draft.id in ontology then Thrown(InvalidProposal)
      else Ok(ontology[op.draft.id := DraftConcept(op.draft)])
    else if op.conceptId !in ontology then Thrown(InvalidProposal)
    else
      var changed :- Change(ids, ontology[op.conceptId], op);
      Ok(ontology[op.conceptId := changed])
  }

  function Run(ids: Identities, base: Ontology, ops: seq<Operation>): Outcome<Ontology, Failure> {
    if ops == [] then Ok(base)
    else
      var before :- Run(ids, base, ops[..|ops| - 1]);
      Step(ids, before, ops[|ops| - 1])
  }

  lemma {:induction false} RunStops(ids: Identities, base: Ontology, ops: seq<Operation>, n: nat)
    requires n <= |ops| && Run(ids, base, ops[..n]).Thrown?
    ensures Run(ids, base, ops) == Thrown(Run(ids, base, ops[..n]).error)
  {
    if n == |ops| {
      assert ops[..n] == ops;
    } else {
      assert ops[..|ops| - 1][..n] == ops[..n];
      RunStops(ids, base, ops[..|ops| - 1], n);
    }
  }

  // ---- the interpreter ------------------------------------------------------------------------

  /** The copied ontology the operations push to, splice and assign in place. */
  class OntologyDraft {
    var concepts: Ontology

    constructor (base: Ontology)
      ensures concepts == base
    {
      concepts := base;
    }

    method Create(draft: Draft) returns (result: Outcome<(), Failure>)
      modifies this
      ensures result.Thrown? <==> draft.id in old(concepts)
      ensures result.Thrown? ==> result.error == InvalidProposal && concepts == old(concepts)
      ensures result.Ok? ==> concepts == old(concepts)[draft.id := DraftConcept(draft)]
    {
      if draft.id in concepts { return Thrown(InvalidProposal); }
      concepts := concepts[draft.id := DraftConcept(draft)];
      result := Ok(());
    }

    method EditPhrases(ids: Identities, op: Operation) returns (result: Outcome<(), Failure>)
      requires (op.PhraseAdd? || op.PhraseRemove?) && op.conceptId in concepts
      modifies this
      ensures result.Thrown? ==> Step(ids, old(concepts), op) == Thrown(result.error)
      ensures result.Ok? ==> Step(ids, old(concepts), op) == Ok(concepts)
    {
      var c := concepts[op.conceptId];
      var i := FindPhrase(ids, c.lexicon, ids.phrase(op.phrase));
      if op.PhraseAdd? {
        if i < |c.lexicon| { return Thrown(InvalidProposal); }
        c := c.(lexicon := c.lexicon + [op.phrase]);
      } else {
        if i == |c.lexicon| { return Thrown(InvalidProposal); }
        c := c.(lexicon := c.lexicon[..i] + c.lexicon[i + 1..]);
      }
      concepts := concepts[op.conceptId := c];
      result := Ok(());
    }

    method EditRelated(ids: Identities, op: Operation) returns (result: Outcome<(), Failure>)
      requires (op.RelatedAdd? || op.RelatedRemove?) && op.conceptId in concepts
      modifies this
      ensures result.Thrown? ==> Step(ids, old(concepts), op) == Thrown(result.error)
      ensures result.Ok? ==> Step(ids, old(concepts), op) == Ok(concepts)
    {
      var c := concepts[op.conceptId];
      var i := RelatedIndex(c.related, op.relatedId, 0);
      if op.RelatedAdd? {
        if i < |c.related| { return Thrown(InvalidProposal); }
        c := c.(related := c.related + [op.relatedId]);
      } else {
        if i == |c.related| { return Thrown(InvalidProposal); }
        c := c.(related := c.related[..i] + c.related[i + 1..]);
      }
      concepts := concepts[op.conceptId := c];
      result := Ok(());
    }

    method AddOrRemoveAnchor(ids: Identities, op: Operation) returns (result: Outcome<(), Failure>)
      requires (op.AnchorAdd? || op.AnchorRemove?) && op.conceptId in concepts
      modifies this
      ensures result.Thrown? ==> Step(ids, old(concepts), op) == Thrown(result.error)
      ensures result.Ok? ==> Step(ids, old(concepts), op) == Ok(concepts)
    {
      var c := concepts[op.conceptId];
      var identity :- Resolve(ids, op.locator);
      var i :- FindAnchor(ids, c.anchors, identity);
      if op.AnchorAdd? {
        if i < |c.anchors| { return Thrown(InvalidProposal); }
        c := c.(anchors := c.anchors + [Anchor(op.locator, [EDITORIAL], Some(op.weight))]);
      } else {
        if i == |c.anchors| { return Thrown(InvalidProposal); }
        if !SolelyEditorial(c.anchors[i]) { return Thrown(ProvenanceFailed); }
        c := c.(anchors := c.anchors[..i] + c.anchors[i + 1..]);
      }
      concepts := concepts[op.conceptId := c];
      result := Ok(());
    }

    method Adjust(ids: Identities, op: Operation) returns (result: Outcome<(), Failure>)
      requires op.AnchorAdjust? && op.conceptId in concepts
      modifies this
      ensures result.Thrown? ==> Step(ids, old(concepts), op) == Thrown(result.error)
      ensures result.Ok? ==> Step(ids, old(concepts), op) == Ok(concepts)
    {
      var c := concepts[op.conceptId];
      var identity :- Resolve(ids, op.locator);
      var nextIdentity :- Resolve(ids, op.nextLocator);
      var i :- FindAnchor(ids, c.anchors, identity);
      if i == |c.anchors| { return Thrown(InvalidProposal); }
      if !SolelyEditorial(c.anchors[i]) { return Thrown(ProvenanceFailed); }
      if WeightOf(c.anchors[i]) != op.weight { return Thrown(SourcePreconditionFailed); }
      if identity != nextIdentity {
        var taken :- FindAnchor(ids, c.anchors, nextIdentity);
        if taken < |c.anchors| { return Thrown(InvalidProposal); }
      }
      var adjusted := Anchor(op.nextLocator, c.anchors[i].sources, Some(op.nextWeight));
      concepts := concepts[op.conceptId := c.(anchors := c.anchors[i := adjusted])];
      result := Ok(());
    }

    method Apply(ids: Identities, op: Operation) returns (result: Outcome<(), Failure>)
      modifies this
      ensures result.Thrown? ==> Step(ids, old(concepts), op) == Thrown(result.error)
      ensures result.Ok? ==> Step(ids, old(concepts), op) == Ok(concepts)
    {
      if op.FixtureOnly? { return Ok(()); }
      if op.DraftCreate? || op.DraftsMerge? {
        result := Create(op.draft);
        return;
      }
      if op.conceptId !in concepts { return Thrown(InvalidProposal); }
      match op {
        case PhraseAdd(_, _) => result := EditPhrases(ids, op);
        case PhraseRemove(_, _) => result := EditPhrases(ids, op);
        case AnchorAdd(_, _, _) => result := AddOrRemoveAnchor(ids, op);
        case AnchorRemove(_, _) => result := AddOrRemoveAnchor(ids, op);
        case AnchorAdjust(_, _, _, _, _) => result := Adjust(ids, op);
        case RelatedAdd(_, _) => result := EditRelated(ids, op);
        case RelatedRemove(_, _) => result := EditRelated(ids, op);
      }
    }
  }

  /** `applyProposal`: the operations in order, over a copy of the base. */
  method ApplyProposal(ids: Identities, base: Ontology, ops: seq<Operation>) returns (result: Outcome<Ontology, Failure>)
    ensures result == Run(ids, base, ops)
  {
    var draft := new OntologyDraft(base);
    for i := 0 to |ops|
      invariant Run(ids, base, ops[..i]) == Ok(draft.concepts)
    {
      assert ops[..i + 1][..i] == ops[..i];
      var applied := draft.Apply(ids, ops[i]);
      if applied.Thrown? {
        RunStops(ids, base, ops, i + 1);
        return Thrown(applied.error);
      }
    }
    assert ops[..|ops|] == ops;
    result := Ok(draft.concepts);
  }

  // ---- what no operation list can break -------------------------------------------------------

  /** The anchors that name a source other than the editors, in order. */
  function Sourced(anchors: seq<Anchor>): seq<Anchor> {
    if anchors == [] then []
    else Sourced(anchors[..|anchors| - 1])
         + if SolelyEditorial(anchors[|anchors| - 1]) then [] else [anchors[|anchors| - 1]]
  }

  lemma {:induction false} SourcedJoins(a: seq<Anchor>, b: seq<Anchor>)
    ensures Sourced(a + b) == Sourced(a) + Sourced(b)
  {
    if b == [] {
      assert a + b == a;
    } else {
      SourcedJoins(a, b[..|b| - 1]);
      assert (a + b)[..|a + b| - 1] == a + b[..|b| - 1];
    }
  }

  lemma EditorialIsNotSourced(inserted: seq<Anchor>)
    requires |inserted| <= 1 && forall a :: a in inserted ==> SolelyEditorial(a)
    ensures Sourced(inserted) == []
  {
    if inserted != [] { assert inserted[0] in inserted && inserted[..0] == []; }
  }

  lemma {:induction false} SourcedBetween(front: seq<Anchor>, middle: seq<Anchor>, back: seq<Anchor>)
    requires Sourced(middle) == []
    ensures Sourced(front + middle + back) == Sourced(front) + Sourced(back)
  {
    SourcedJoins(front + middle, back);
    SourcedJoins(front, middle);
  }

  lemma {:induction false} SourcedIgnoresEditorial(anchors: seq<Anchor>, i: nat, inserted: seq<Anchor>)
    requires i < |anchors| && SolelyEditorial(anchors[i])
    requires |inserted| <= 1 && forall a :: a in inserted ==> SolelyEditorial(a)
    ensures Sourced(anchors[..i] + inserted + anchors[i + 1..]) == Sourced(anchors)
  {
    EditorialIsNotSourced([anchors[i]]);
    EditorialIsNotSourced(inserted);
    SourcedBetween(anchors[..i], [anchors[i]], anchors[i + 1..]);
    SourcedBetween(anchors[..i], inserted, anchors[i + 1..]);
    assert anchors == anchors[..i] + [anchors[i]] + anchors[i + 1..];
  }

  lemma AddKeepsSourced(ids: Identities, c: Concept, locator: Str, weight: real)
    requires AddAnchor(ids, c, locator, weight).Ok?
    ensures Sourced(AddAnchor(ids, c, locator, weight).value.anchors) == Sourced(c.anchors)
  {
    var added := Anchor(locator, [EDITORIAL], Some(weight));
    EditorialIsNotSourced([added]);
    SourcedJoins(c.anchors, [added]);
  }

  lemma RemoveKeepsSourced(ids: Identities, c: Concept, locator: Str)
    requires RemoveAnchor(ids, c, locator).Ok?
    ensures Sourced(RemoveAnchor(ids, c, locator).value.anchors) == Sourced(c.anchors)
  {
    var i := AnchorIndex(ids, c.anchors, Resolve(ids, locator).value, 0).value;
    SourcedIgnoresEditorial(c.anchors, i, []);
    assert c.anchors[..i] + [] + c.anchors[i + 1..] == Without(c.anchors, i);
  }

  lemma AdjustKeepsSourced(ids: Identities, c: Concept, locator: Str, weight: real, nextLocator: Str, nextWeight: real)
    requires AdjustAnchor(ids, c, locator, weight, nextLocator, nextWeight).Ok?
    ensures Sourced(AdjustAnchor(ids, c, locator, weight, nextLocator, nextWeight).value.anchors) == Sourced(c.anchors)
  {
    var i := AnchorIndex(ids, c.anchors, Resolve(ids, locator).value, 0).value;
    var adjusted := Anchor(nextLocator, c.anchors[i].sources, Some(nextWeight));
    SourcedIgnoresEditorial(c.anchors, i, [adjusted]);
    assert c.anchors[..i] + [adjusted] + c.anchors[i + 1..] == c.anchors[i := adjusted];
  }

  /** One change never touches an anchor that names a source. */
  lemma ChangeKeepsSourced(ids: Identities, c: Concept, op: Operation)
    requires !op.FixtureOnly? && !op.DraftCreate? && !op.DraftsMerge?
    requires Change(ids, c, op).Ok?
    ensures Sourced(Change(ids, c, op).value.anchors) == Sourced(c.anchors)
  {
    match op
    case AnchorAdd(_, locator, weight) => AddKeepsSourced(ids, c, locator, weight);
    case AnchorRemove(_, locator) => RemoveKeepsSourced(ids, c, locator);
    case AnchorAdjust(_, locator, weight, nextLocator, nextWeight) =>
      AdjustKeepsSourced(ids, c, locator, weight, nextLocator, nextWeight);
    case _ =>
  }

  lemma {:induction false} AllEditorial(anchors: seq<Anchor>)
    requires forall a :: a in anchors ==> SolelyEditorial(a)
    ensures Sourced(anchors) == []
  {
    if anchors != [] {
      AllEditorial(anchors[..|anchors| - 1]);
      assert anchors[|anchors| - 1] in anchors;
    }
  }

  lemma {:induction false} SourcedMembers(anchors: seq<Anchor>, a: Anchor)
    ensures a in Sourced(anchors) <==> a in anchors && !SolelyEditorial(a)
  {
    if anchors != [] {
      var n := |anchors| - 1;
      SourcedMembers(anchors[..n], a);
      assert anchors == anchors[..n] + [anchors[n]];
    }
  }

  /** The source-derived anchors a concept had in the base; none if it is new. */
  function SourcedIn(ontology: Ontology, id: Str): seq<Anchor> {
    if id in ontology then Sourced(ontology[id].anchors) else []
  }

  lemma {:induction false} StepKeepsSources(ids: Identities, before: Ontology, op: Operation, id: Str)
    requires Step(ids, before, op).Ok? && id in Step(ids, before, op).value
    ensures Sourced(Step(ids, before, op).value[id].anchors) == SourcedIn(before, id)
  {
    if op.DraftCreate? || op.DraftsMerge? {
      if id == op.draft.id { AllEditorial(DraftAnchors(op.draft.anchors)); }
    } else if !op.FixtureOnly? && id == op.conceptId {
      ChangeKeepsSourced(ids, before[id], op);
    }
  }

  /**
   * Whatever the operations, no concept of the base vanishes, its source-derived anchors stay as
   * they were, in order, and a new concept has none.
   */
  lemma {:induction false} RunKeepsSources(ids: Identities, base: Ontology, ops: seq<Operation>)
    requires Run(ids, base, ops).Ok?
    ensures base.Keys <= Run(ids, base, ops).value.Keys
    ensures forall id :: id in Run(ids, base, ops).value ==>
      Sourced(Run(ids, base, ops).value[id].anchors) == SourcedIn(base, id)
  {
    if ops != [] {
      var n := |ops| - 1;
      RunKeepsSources(ids, base, ops[..n]);
      var before := Run(ids, base, ops[..n]).value;
      var after := Run(ids, base, ops).value;
      forall id | id in after ensures Sourced(after[id].anchors) == SourcedIn(base, id) {
        StepKeepsSources(ids, before, ops[n], id);
        if id !in before { assert id !in base; }
      }
    }
  }

  /** A change stays inside the concept the operation names; a draft only adds itself. */
  lemma StepIsLocal(ids: Identities, ontology: Ontology, op: Operation, id: Str)
    requires Step(ids, ontology, op).Ok? && id in ontology
    requires op.FixtureOnly? || (if op.DraftCreate? || op.DraftsMerge? then true else id != op.conceptId)
    ensures id in Step(ids, ontology, op).value && Step(ids, ontology, op).value[id] == ontology[id]
  {
  }

  // ---- identities stay distinct -----------------------------------------------------------------

  ghost predicate DistinctPhrases(ids: Identities, lexicon: seq<Str>) {
    forall i, j :: 0 <= i < j < |lexicon| ==> ids.phrase(lexicon[i]) != ids.phrase(lexicon[j])
  }

  ghost predicate DistinctAnchors(ids: Identities, anchors: seq<Anchor>) {
    forall i, j {:trigger anchors[i], anchors[j]} :: 0 <= i < j < |anchors| ==>
      ids.anchor(anchors[i].ref).Some? ==> ids.anchor(anchors[i].ref) != ids.anchor(anchors[j].ref)
  }

  ghost predicate DistinctRelated(related: seq<Str>) {
    forall i, j :: 0 <= i < j < |related| ==> related[i] != related[j]
  }

  ghost predicate DistinctIn(ids: Identities, c: Concept) {
    DistinctPhrases(ids, c.lexicon) && DistinctAnchors(ids, c.anchors) && DistinctRelated(c.related)
  }

  lemma AnchorsStayDistinct(ids: Identities, c: Concept, op: Operation)
    requires op.AnchorAdd? || op.AnchorRemove? || op.AnchorAdjust?
    requires DistinctAnchors(ids, c.anchors) && Change(ids, c, op).Ok?
    ensures DistinctAnchors(ids, Change(ids, c, op).value.anchors)
  {
    var after := Change(ids, c, op).value.anchors;
    match op
    case AnchorAdd(_, locator, _) =>
      forall i | 0 <= i < |c.anchors| ensures ids.anchor(after[i].ref) != ids.anchor(locator) {
        assert after[i] == c.anchors[i];
      }
    case AnchorRemove(_, locator) =>
      WithoutStaysDistinct(ids, c.anchors, AnchorIndex(ids, c.anchors, Resolve(ids, locator).value, 0).value);
    case AnchorAdjust(_, locator, _, nextLocator, _) =>
      var i := AnchorIndex(ids, c.anchors, Resolve(ids, locator).value, 0).value;
      forall k | 0 <= k < |c.anchors| && k != i ensures ids.anchor(c.anchors[k].ref) != ids.anchor(nextLocator) {
        if ids.anchor(locator) == ids.anchor(nextLocator) { assert c.anchors[i] in c.anchors && c.anchors[k] in c.anchors; }
      }
  }

  lemma WithoutStaysDistinct(ids: Identities, anchors: seq<Anchor>, i: nat)
    requires i < |anchors| && DistinctAnchors(ids, anchors)
    ensures DistinctAnchors(ids, Without(anchors, i))
  {
    var after := Without(anchors, i);
    forall j, k | 0 <= j < k < |after| && ids.anchor(after[j].ref).Some?
      ensures ids.anchor(after[j].ref) != ids.anchor(after[k].ref)
    {
      assert after[j] == anchors[if j < i then j else j + 1] && after[k] == anchors[if k < i then k else k + 1];
    }
  }

  lemma ChangeStaysDistinct(ids: Identities, c: Concept, op: Operation)
    requires !op.FixtureOnly? && !op.DraftCreate? && !op.DraftsMerge?
    requires DistinctIn(ids, c) && Change(ids, c, op).Ok?
    ensures DistinctIn(ids, Change(ids, c, op).value)
  {
    if op.AnchorAdd? || op.AnchorRemove? || op.AnchorAdjust? { AnchorsStayDistinct(ids, c, op); }
  }

  /** Identities that were distinct in the base and in the drafts are distinct in the result. */
  lemma {:induction false} RunStaysDistinct(ids: Identities, base: Ontology, ops: seq<Operation>)
    requires Run(ids, base, ops).Ok?
    requires forall id :: id in base ==> DistinctIn(ids, base[id])
    requires forall i :: 0 <= i < |ops| && (ops[i].DraftCreate? || ops[i].DraftsMerge?) ==>
      DistinctIn(ids, DraftConcept(ops[i].draft))
    ensures forall id :: id in Run(ids, base, ops).value ==> DistinctIn(ids, Run(ids, base, ops).value[id])
  {
    if ops != [] {
      var n := |ops| - 1;
      RunStaysDistinct(ids, base, ops[..n]);
      var before := Run(ids, base, ops[..n]).value;
      var op := ops[n];
      if !op.FixtureOnly? && !op.DraftCreate? && !op.DraftsMerge? {
        ChangeStaysDistinct(ids, before[op.conceptId], op);
      }
    }
  }

  // ---- an addition and its removal ---------------------------------------------------------------

  /** `remove` takes back what `add` adds. */
  predicate Undoes(add: Operation, remove: Operation) {
    match add
    case PhraseAdd(id, phrase) => remove == PhraseRemove(id, phrase)
    case RelatedAdd(id, relatedId) => remove == RelatedRemove(id, relatedId)
    case AnchorAdd(id, locator, _) => remove == AnchorRemove(id, locator)
    case _ => false
  }

  lemma LastGoes<T>(list: seq<T>, x: T)
    ensures Without(list + [x], |list|) == list
  {
  }

  lemma {:induction false} ChangeUndone(ids: Identities, c: Concept, add: Operation, remove: Operation)
    requires Undoes(add, remove) && Change(ids, c, add).Ok?
    ensures Change(ids, Change(ids, c, add).value, remove) == Ok(c)
  {
    match add
    case PhraseAdd(_, phrase) =>
      PhraseFoundLast(ids, c.lexicon, phrase, 0);
      LastGoes(c.lexicon, phrase);
    case RelatedAdd(_, id) =>
      RelatedFoundLast(c.related, id, 0);
      LastGoes(c.related, id);
    case AnchorAdd(_, locator, weight) =>
      var added := Anchor(locator, [EDITORIAL], Some(weight));
      AnchorFoundLast(ids, c.anchors, added, 0);
      LastGoes(c.anchors, added);
  }

  predicate ChangesConcept(op: Operation) {
    !op.FixtureOnly? && !op.DraftCreate? && !op.DraftsMerge?
  }

  lemma {:induction false} StepChanges(ids: Identities, ontology: Ontology, op: Operation)
    requires ChangesConcept(op) && op.conceptId in ontology
    ensures Step(ids, ontology, op) == match Change(ids, ontology[op.conceptId], op)
                                       case Ok(changed) => Ok(ontology[op.conceptId := changed])
                                       case Thrown(error) => Thrown(error)
  {
  }

  lemma PutBack<K, V>(m: map<K, V>, k: K, v: V)
    requires k in m
    ensures m[k := v][k := m[k]] == m
  {
  }

  lemma UndoesConcept(add: Operation, remove: Operation)
    requires Undoes(add, remove)
    ensures ChangesConcept(add) && ChangesConcept(remove) && remove.conceptId == add.conceptId
  {
  }

  /** Adding a phrase, a related edge or an anchor and then removing it restores the ontology. */
  lemma {:induction false} AddThenRemoveRestores(ids: Identities, ontology: Ontology, add: Operation, remove: Operation)
    requires Undoes(add, remove) && Step(ids, ontology, add).Ok?
    ensures Step(ids, Step(ids, ontology, add).value, remove) == Ok(ontology)
  {
    UndoesConcept(add, remove);
    var id := add.conceptId;
    assert id in ontology;
    StepChanges(ids, ontology, add);
    var changed := Change(ids, ontology[id], add).value;
    ChangeUndone(ids, ontology[id], add, remove);
    StepChanges(ids, ontology[id := changed], remove);
    PutBack(ontology, id, changed);
  }

  lemma {:induction false} PhraseFoundLast(ids: Identities, lexicon: seq<Str>, phrase: Str, from: nat)
    requires from <= |lexicon| && PhraseIndex(ids, lexicon, ids.phrase(phrase), from) == |lexicon|
    ensures PhraseIndex(ids, lexicon + [phrase], ids.phrase(phrase), from) == |lexicon|
    decreases |lexicon| - from
  {
    if from < |lexicon| { PhraseFoundLast(ids, lexicon, phrase, from + 1); }
  }

  lemma {:induction false} RelatedFoundLast(related: seq<Str>, id: Str, from: nat)
    requires from <= |related| && RelatedIndex(related, id, from) == |related|
    ensures RelatedIndex(related + [id], id, from) == |related|
    decreases |related| - from
  {
    if from < |related| { RelatedFoundLast(related, id, from + 1); }
  }

  lemma {:induction false} AnchorFoundLast(ids: Identities, anchors: seq<Anchor>, added: Anchor, from: nat)
    requires from <= |anchors| && ids.anchor(added.ref).Some?
    requires AnchorIndex(ids, anchors, ids.anchor(added.ref).value, from) == Ok(|anchors|)
    ensures AnchorIndex(ids, anchors + [added], ids.anchor(added.ref).value, from) == Ok(|anchors|)
    decreases |anchors| - from
  {
    if from < |anchors| { AnchorFoundLast(ids, anchors, added, from + 1); }
  }
}
