/**
 * What each reviewed operation does to the ontology, said without the interpreter's searches: when
 * it is refused and why, and every field of what it leaves.
 */
module ProposalTheorems {
  import opened CodeUnits
  import opened Outcomes
  import opened Proposal

  // ---- finding -------------------------------------------------------------------------------------

  /** Position `i` is the first whose phrase has this identity. */
  predicate FirstPhrase(ids: Identities, lexicon: seq<Str>, identity: Str, i: int) {
    0 <= i < |lexicon| && ids.phrase(lexicon[i]) == identity
    && forall k :: 0 <= k < i ==> ids.phrase(lexicon[k]) != identity
  }

  predicate NoPhrase(ids: Identities, lexicon: seq<Str>, identity: Str) {
    forall k :: 0 <= k < |lexicon| ==> ids.phrase(lexicon[k]) != identity
  }

  /** Position `i` is the first whose anchor has this identity, and every anchor before it resolves. */
  predicate FirstAnchor(ids: Identities, anchors: seq<Anchor>, identity: Str, i: int) {
    0 <= i < |anchors| && ids.anchor(anchors[i].ref) == Some(identity)
    && forall k :: 0 <= k < i ==> ids.anchor(anchors[k].ref).Some? && ids.anchor(anchors[k].ref) != Some(identity)
  }

  /** Every anchor resolves, to some other identity. */
  predicate NoAnchor(ids: Identities, anchors: seq<Anchor>, identity: Str) {
    forall k :: 0 <= k < |anchors| ==> ids.anchor(anchors[k].ref).Some? && ids.anchor(anchors[k].ref) != Some(identity)
  }

  predicate FirstRelated(related: seq<Str>, id: Str, i: int) {
    0 <= i < |related| && related[i] == id && forall k :: 0 <= k < i ==> related[k] != id
  }

  lemma {:induction false} AnchorSearch(ids: Identities, anchors: seq<Anchor>, identity: Str, from: nat, i: nat)
    requires from <= i <= |anchors|
    requires forall k :: from <= k < i ==>
      ids.anchor(anchors[k].ref).Some? && ids.anchor(anchors[k].ref) != Some(identity)
    requires i < |anchors| ==> ids.anchor(anchors[i].ref) == Some(identity)
    ensures AnchorIndex(ids, anchors, identity, from) == Ok(i)
    decreases i - from
  {
    if from < i { AnchorSearch(ids, anchors, identity, from + 1, i); }
  }

  /** The search ends at the first match, at the end, or throws at an anchor that does not resolve. */
  lemma AnchorsSearched(ids: Identities, anchors: seq<Anchor>, identity: Str)
    ensures var r := AnchorIndex(ids, anchors, identity, 0);
      && (forall i :: FirstAnchor(ids, anchors, identity, i) <==> r == Ok(i) && 0 <= i < |anchors|)
      && (NoAnchor(ids, anchors, identity) <==> r == Ok(|anchors|))
  {
    forall i ensures FirstAnchor(ids, anchors, identity, i)
                <==> AnchorIndex(ids, anchors, identity, 0) == Ok(i) && 0 <= i < |anchors|
    {
      if FirstAnchor(ids, anchors, identity, i) { AnchorSearch(ids, anchors, identity, 0, i); }
    }
    if NoAnchor(ids, anchors, identity) { AnchorSearch(ids, anchors, identity, 0, |anchors|); }
  }

  // ---- one operation each --------------------------------------------------------------------------

  /** The step changes one concept, or is refused with this error. */
  predicate Changes(ids: Identities, ontology: Ontology, op: Operation, c: Concept) {
    ChangesConcept(op) && op.conceptId in ontology && Step(ids, ontology, op) == Ok(ontology[op.conceptId := c])
  }

  predicate Refuses(ids: Identities, ontology: Ontology, op: Operation, error: Failure) {
    Step(ids, ontology, op) == Thrown(error)
  }

  /** A phrase joins the end of the lexicon unless one of its identity is there. */
  lemma PhraseAddSpells(ids: Identities, ontology: Ontology, op: Operation)
    requires op.PhraseAdd? && op.conceptId in ontology
    ensures var c := ontology[op.conceptId];
      if NoPhrase(ids, c.lexicon, ids.phrase(op.phrase))
      then Changes(ids, ontology, op, Concept(c.title, c.lexicon + [op.phrase], c.anchors, c.related, c.topics))
      else Refuses(ids, ontology, op, InvalidProposal)
  {
    StepChanges(ids, ontology, op);
  }

  /** The first phrase of the identity leaves the lexicon; without one the removal is refused. */
  lemma PhraseRemoveSpells(ids: Identities, ontology: Ontology, op: Operation)
    requires op.PhraseRemove? && op.conceptId in ontology
    ensures var c := ontology[op.conceptId];
      && (forall i :: FirstPhrase(ids, c.lexicon, ids.phrase(op.phrase), i) ==>
            Changes(ids, ontology, op,
                    Concept(c.title, c.lexicon[..i] + c.lexicon[i + 1..], c.anchors, c.related, c.topics)))
      && (NoPhrase(ids, c.lexicon, ids.phrase(op.phrase)) ==> Refuses(ids, ontology, op, InvalidProposal))
  {
    StepChanges(ids, ontology, op);
  }

  /** An editorial anchor joins the end unless one of its identity is there or something does not resolve. */
  lemma AnchorAddSpells(ids: Identities, ontology: Ontology, op: Operation)
    requires op.AnchorAdd? && op.conceptId in ontology
    ensures var c := ontology[op.conceptId];
      if ids.anchor(op.locator).Some? && NoAnchor(ids, c.anchors, ids.anchor(op.locator).value)
      then Changes(ids, ontology, op,
                   Concept(c.title, c.lexicon, c.anchors + [Anchor(op.locator, [Lit("editorial")], Some(op.weight))],
                           c.related, c.topics))
      else Refuses(ids, ontology, op, InvalidProposal)
  {
    StepChanges(ids, ontology, op);
    var c := ontology[op.conceptId];
    if ids.anchor(op.locator).Some? { AnchorsSearched(ids, c.anchors, ids.anchor(op.locator).value); }
  }

  /** The first anchor of the identity leaves if the editors are its only source. */
  lemma AnchorRemoveSpells(ids: Identities, ontology: Ontology, op: Operation)
    requires op.AnchorRemove? && op.conceptId in ontology
    ensures var c := ontology[op.conceptId];
      && (ids.anchor(op.locator).None? ==> Refuses(ids, ontology, op, InvalidProposal))
      && (ids.anchor(op.locator).Some? ==>
            && (forall i :: FirstAnchor(ids, c.anchors, ids.anchor(op.locator).value, i) ==>
                  if c.anchors[i].sources == [Lit("editorial")]
                  then Changes(ids, ontology, op,
                               Concept(c.title, c.lexicon, c.anchors[..i] + c.anchors[i + 1..], c.related, c.topics))
                  else Refuses(ids, ontology, op, ProvenanceFailed))
            && ((forall i :: !FirstAnchor(ids, c.anchors, ids.anchor(op.locator).value, i)) ==>
                  Refuses(ids, ontology, op, InvalidProposal)))
  {
    StepChanges(ids, ontology, op);
    var c := ontology[op.conceptId];
    if ids.anchor(op.locator).Some? {
      AnchorsSearched(ids, c.anchors, ids.anchor(op.locator).value);
      var r := AnchorIndex(ids, c.anchors, ids.anchor(op.locator).value, 0);
      if r.Ok? && r.value < |c.anchors| { assert FirstAnchor(ids, c.anchors, ids.anchor(op.locator).value, r.value); }
    }
  }

  /** The anchor is still as it was reviewed: only the editors vouch for it, with this weight. */
  predicate AsReviewed(anchor: Anchor, weight: real) {
    anchor.sources == [Lit("editorial")] && (match anchor.weight case None => 1.0 case Some(w) => w) == weight
  }

  /** Why an adjustment of the anchor at position `i` is refused, if it is. */
  function AdjustRefusal(ids: Identities, c: Concept, i: nat, op: Operation): Option<Failure>
    requires op.AnchorAdjust? && i < |c.anchors| && ids.anchor(op.nextLocator).Some?
  {
    var current, next := ids.anchor(op.locator), ids.anchor(op.nextLocator).value;
    if c.anchors[i].sources != [Lit("editorial")] then Some(ProvenanceFailed)
    else if !AsReviewed(c.anchors[i], op.weight) then Some(SourcePreconditionFailed)
    else if current != Some(next) && !NoAnchor(ids, c.anchors, next) then Some(InvalidProposal)
    else None
  }

  lemma AdjustChanges(ids: Identities, c: Concept, op: Operation, i: nat)
    requires op.AnchorAdjust? && ids.anchor(op.locator).Some? && ids.anchor(op.nextLocator).Some?
    requires FirstAnchor(ids, c.anchors, ids.anchor(op.locator).value, i)
    ensures AdjustAnchor(ids, c, op.locator, op.weight, op.nextLocator, op.nextWeight)
         == match AdjustRefusal(ids, c, i, op)
            case Some(error) => Thrown(error)
            case None =>
              Ok(Concept(c.title, c.lexicon,
                         c.anchors[i := Anchor(op.nextLocator, [Lit("editorial")], Some(op.nextWeight))],
                         c.related, c.topics))
  {
    AnchorsSearched(ids, c.anchors, ids.anchor(op.locator).value);
    AnchorsSearched(ids, c.anchors, ids.anchor(op.nextLocator).value);
  }

  /**
   * The first anchor of the reviewed identity takes the next locator and the next weight, in its place
   * and with its source, unless something does not resolve, the editors are not its only source, its
   * weight is not the reviewed one, or another anchor has the next identity.
   */
  lemma AnchorAdjustSpells(ids: Identities, ontology: Ontology, op: Operation)
    requires op.AnchorAdjust? && op.conceptId in ontology
    ensures var c := ontology[op.conceptId];
      && (ids.anchor(op.locator).None? || ids.anchor(op.nextLocator).None? ==>
            Refuses(ids, ontology, op, InvalidProposal))
      && (ids.anchor(op.locator).Some? && ids.anchor(op.nextLocator).Some? ==>
            && (forall i: nat :: FirstAnchor(ids, c.anchors, ids.anchor(op.locator).value, i) ==>
                  match AdjustRefusal(ids, c, i, op)
                  case Some(error) => Refuses(ids, ontology, op, error)
                  case None =>
                    Changes(ids, ontology, op,
                            Concept(c.title, c.lexicon,
                                    c.anchors[i := Anchor(op.nextLocator, [Lit("editorial")], Some(op.nextWeight))],
                                    c.related, c.topics)))
            && ((forall i: nat :: !FirstAnchor(ids, c.anchors, ids.anchor(op.locator).value, i)) ==>
                  Refuses(ids, ontology, op, InvalidProposal)))
  {
    StepChanges(ids, ontology, op);
    var c := ontology[op.conceptId];
    if ids.anchor(op.locator).Some? && ids.anchor(op.nextLocator).Some? {
      AnchorsSearched(ids, c.anchors, ids.anchor(op.locator).value);
      forall i: nat | FirstAnchor(ids, c.anchors, ids.anchor(op.locator).value, i)
        ensures AdjustAnchor(ids, c, op.locator, op.weight, op.nextLocator, op.nextWeight)
             == match AdjustRefusal(ids, c, i, op)
                case Some(error) => Thrown(error)
                case None =>
                  Ok(Concept(c.title, c.lexicon,
                             c.anchors[i := Anchor(op.nextLocator, [Lit("editorial")], Some(op.nextWeight))],
                             c.related, c.topics))
      {
        AdjustChanges(ids, c, op, i);
      }
      var r := AnchorIndex(ids, c.anchors, ids.anchor(op.locator).value, 0);
      if r.Ok? && r.value < |c.anchors| { assert FirstAnchor(ids, c.anchors, ids.anchor(op.locator).value, r.value); }
    }
  }

  /** A related edge joins the end unless it is there; the first one leaves, or the removal is refused. */
  lemma RelatedSpells(ids: Identities, ontology: Ontology, op: Operation)
    requires (op.RelatedAdd? || op.RelatedRemove?) && op.conceptId in ontology
    ensures var c := ontology[op.conceptId];
      && (op.RelatedAdd? ==>
            if op.relatedId !in c.related
            then Changes(ids, ontology, op,
                         Concept(c.title, c.lexicon, c.anchors, c.related + [op.relatedId], c.topics))
            else Refuses(ids, ontology, op, InvalidProposal))
      && (op.RelatedRemove? ==>
            && (forall i :: FirstRelated(c.related, op.relatedId, i) ==>
                  Changes(ids, ontology, op,
                          Concept(c.title, c.lexicon, c.anchors, c.related[..i] + c.related[i + 1..], c.topics)))
            && (op.relatedId !in c.related ==> Refuses(ids, ontology, op, InvalidProposal)))
  {
    StepChanges(ids, ontology, op);
  }

  /** A draft becomes a concept of its own fields, editorial anchors and no topics, unless its id is taken. */
  lemma DraftSpells(ids: Identities, ontology: Ontology, op: Operation) returns (anchors: seq<Anchor>)
    requires op.DraftCreate? || op.DraftsMerge?
    ensures |anchors| == |op.draft.anchors|
    ensures forall k :: 0 <= k < |anchors| ==>
      anchors[k] == Anchor(op.draft.anchors[k].locator, [Lit("editorial")], Some(op.draft.anchors[k].weight))
    ensures op.draft.id in ontology ==> Refuses(ids, ontology, op, InvalidProposal)
    ensures op.draft.id !in ontology ==>
      Step(ids, ontology, op)
      == Ok(ontology[op.draft.id := Concept(op.draft.title, op.draft.lexicon, anchors, op.draft.related, [])])
  {
    anchors := DraftAnchors(op.draft.anchors);
  }

  /** Fixtures change nothing; an operation on an unknown concept is refused. */
  lemma OthersSpell(ids: Identities, ontology: Ontology, op: Operation)
    ensures op.FixtureOnly? ==> Step(ids, ontology, op) == Ok(ontology)
    ensures ChangesConcept(op) && op.conceptId !in ontology ==> Refuses(ids, ontology, op, InvalidProposal)
  {
  }

  /** The operations run one after the other, and the first refusal is the answer. */
  lemma {:induction false} RunIsStepwise(ids: Identities, base: Ontology, ops: seq<Operation>)
    returns (states: seq<Ontology>)
    ensures 1 <= |states| <= |ops| + 1 && states[0] == base
    ensures forall i :: 0 <= i < |states| - 1 ==> Step(ids, states[i], ops[i]) == Ok(states[i + 1])
    ensures if |states| == |ops| + 1 then Run(ids, base, ops) == Ok(states[|ops|])
            else Step(ids, states[|states| - 1], ops[|states| - 1]).Thrown?
                 && Run(ids, base, ops) == Thrown(Step(ids, states[|states| - 1], ops[|states| - 1]).error)
  {
    if ops == [] {
      states := [base];
    } else {
      var n := |ops| - 1;
      var before := RunIsStepwise(ids, base, ops[..n]);
      if |before| == n + 1 {
        var last := Step(ids, before[n], ops[n]);
        states := if last.Ok? then before + [last.value] else before;
      } else {
        states := before;
      }
    }
  }
}
