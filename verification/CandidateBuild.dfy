/** A candidate layer from a proposal: interpret the operations, compile, predict, mutate, check. */
module CandidateBuild {
  import opened CodeUnits
  import opened CandidateLayer
  import opened ConceptCompiler
  import opened HashFeed
  import opened LayerRecords
  import opened Outcomes
  import opened OwnedRows
  import P = Proposal

  datatype Refusal = Refused(reason: P.Failure) | Failed(check: CandidateLayer.Failure)

  lemma TopicsAreNotEditorial()
    ensures TOPICS != P.EDITORIAL
  {
    assert |TOPICS| == 16 && |P.EDITORIAL| == 9;
  }

  /** No operation list brings a topic anchor, so the compiled candidate takes its own from the base. */
  lemma ProposalBringsNoTopics(c: Readings, ids: P.Identities, base: P.Ontology, ops: seq<P.Operation>)
    requires P.Run(ids, base, ops).Ok?
    ensures BringsNoTopics(Compiled(c, base), Compiled(c, P.Run(ids, base, ops).value))
  {
    var candidate := Compiled(c, P.Run(ids, base, ops).value);
    forall a | a in candidate.anchors && IsTopic(a) ensures a in Compiled(c, base).anchors {
      TopicsAreNotEditorial();
      ProposalAddsNoSource(c, ids, base, ops, a);
    }
  }

  /** The ontology the operations lead to; the base where they fail. */
  ghost function Proposed(ids: P.Identities, base: P.Ontology, ops: seq<P.Operation>): P.Ontology {
    var run := P.Run(ids, base, ops);
    if run.Ok? then run.value else base
  }

  /** Compiling the base, interpreting the operations and compiling the result all succeed. */
  ghost predicate Accepted(c: Readings, ids: P.Identities, base: P.Ontology, ops: seq<P.Operation>) {
    Sound(c, base) && P.Run(ids, base, ops).Ok? && Sound(c, Proposed(ids, base, ops))
  }

  /** The identity of the proposed candidate, computed from the base database alone. */
  ghost predicate PredictedFor(world: World, c: Readings, ids: P.Identities, db: Database, base: P.Ontology,
                               ops: seq<P.Operation>, identity: Str)
    reads db
  {
    Predicted(world, db, Compiled(c, Proposed(ids, base, ops)), identity)
  }

  /** The compiled base and the compiled candidate, or a refusal. */
  method CompileBoth(c: Readings, ids: P.Identities, base: P.Ontology, ops: seq<P.Operation>)
    returns (result: Outcome<(Ontology, Ontology), P.Failure>)
    ensures result.Ok? <==> Accepted(c, ids, base, ops)
    ensures result.Ok? ==> result.value == (Compiled(c, base), Compiled(c, Proposed(ids, base, ops)))
    ensures result.Ok? ==> BringsNoTopics(result.value.0, result.value.1)
  {
    var compiledBase := CompileConcepts(c, base);
    if compiledBase.Thrown? { return Thrown(compiledBase.error); }
    var applied := P.ApplyProposal(ids, base, ops);
    if applied.Thrown? { return Thrown(applied.error); }
    var candidate := CompileConcepts(c, applied.value);
    if candidate.Thrown? { return Thrown(candidate.error); }
    ProposalBringsNoTopics(c, ids, base, ops);
    result := Ok((compiledBase.value, candidate.value));
  }

  /** The digest the build compares owned rows by. */
  function RowDigest(world: World): Owned -> Str {
    (rows: Owned) => OwnedDigest(world.sha256, rows)
  }

  /** Why the prediction refuses what the proposal compiles to, if it does. */
  ghost function RefusalOf(world: World, c: Readings, ids: P.Identities, db: Database, base: P.Ontology,
                           ops: seq<P.Operation>, descriptorLayer: Str): Option<CandidateLayer.Failure>
    reads db
  {
    CandidateLayer.Refusal(world, RowDigest(world), db, Compiled(c, base), Compiled(c, Proposed(ids, base, ops)),
                           descriptorLayer)
  }

  lemma RowDigestDigests(world: World)
    ensures Digests(RowDigest(world))
  {
    forall a, b | SameRows(a, b) ensures RowDigest(world)(a) == RowDigest(world)(b) {
      DigestForgetsOrder(world.sha256, a, b);
    }
  }

  /** The hash confuses none of the texts hashed for the compiled base and for the installed one. */
  ghost predicate BaseIsTold(world: World, db: Database, base: Ontology)
    reads db
  {
    NoCollision(world.sha256, StreamsOf(CompiledRows(base, db.untouched.present)), StreamsOf(Installed(db)))
  }

  lemma RowDigestTells(world: World, db: Database, base: Ontology)
    requires BaseIsTold(world, db, base)
    ensures Tells(RowDigest(world), CompiledRows(base, db.untouched.present), Installed(db))
  {
    DigestTells(world.sha256, CompiledRows(base, db.untouched.present), Installed(db));
  }

  /** The layer of a compiled candidate, with the digest of rows the program uses. */
  method BuildCompiled(world: World, db: Database, base: Ontology, candidate: Ontology, descriptorLayer: Str)
    returns (result: Outcome<Str, CandidateLayer.Failure>)
    requires Orders(world) && db.untouched.Keyed() && BringsNoTopics(base, candidate)
    modifies db`concepts, db`lexicon, db`anchors, db`related, db`meta, db`spelling
    ensures result != Thrown(MetaDiffers) && result != Thrown(SpellingDiffers)
    ensures old(BaseIsTold(world, db, base)) ==> result != Thrown(InstalledRowsDiffer)
    ensures result.Ok? ==> LAYER in db.meta && db.meta[LAYER] == result.value
    ensures result.Ok? ==> old(Predicted(world, db, candidate, result.value))
    ensures result.Ok? || result == Thrown(InstalledRowsDiffer) ==>
      old(CandidateLayer.Refusal(world, RowDigest(world), db, base, candidate, descriptorLayer)).None?
    ensures result.Thrown? && result.error != InstalledRowsDiffer ==>
      old(CandidateLayer.Refusal(world, RowDigest(world), db, base, candidate, descriptorLayer)) == Some(result.error)
  {
    RowDigestDigests(world);
    if BaseIsTold(world, db, base) { RowDigestTells(world, db, base); }
    result := BuildLayers(world, RowDigest(world), db, base, candidate, descriptorLayer);
  }

  /**
   * The layer of a candidate: unless the hash confuses texts of the base itself, none of the three
   * checks after the mutation can fail for any proposal, and what is stored was predicted from the
   * base alone.
   */
  method BuildProposed(world: World, c: Readings, ids: P.Identities, db: Database, base: P.Ontology,
                       ops: seq<P.Operation>, descriptorLayer: Str)
    returns (result: Outcome<Str, Refusal>)
    requires Orders(world) && db.untouched.Keyed()
    modifies db`concepts, db`lexicon, db`anchors, db`related, db`meta, db`spelling
    ensures result != Thrown(Failed(MetaDiffers)) && result != Thrown(Failed(SpellingDiffers))
    ensures old(BaseIsTold(world, db, Compiled(c, base))) ==> result != Thrown(Failed(InstalledRowsDiffer))
    ensures result.Ok? ==> LAYER in db.meta && db.meta[LAYER] == result.value
    ensures result.Ok? ==> old(PredictedFor(world, c, ids, db, base, ops, result.value))
    ensures result.Thrown? && result.error.Refused? <==> !Accepted(c, ids, base, ops)
    ensures result.Ok? || result == Thrown(Failed(InstalledRowsDiffer)) ==>
      old(RefusalOf(world, c, ids, db, base, ops, descriptorLayer)).None?
    ensures result.Thrown? && result.error.Failed? && result.error.check != InstalledRowsDiffer ==>
      old(RefusalOf(world, c, ids, db, base, ops, descriptorLayer)) == Some(result.error.check)
  {
    var both := CompileBoth(c, ids, base, ops);
    if both.Thrown? { return Thrown(Refused(both.error)); }
    var (compiledBase, candidate) := both.value;
    var built := BuildCompiled(world, db, compiledBase, candidate, descriptorLayer);
    result := match built case Ok(identity) => Ok(identity) case Thrown(check) => Thrown(Failed(check));
  }
}
