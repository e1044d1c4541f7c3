/** What every run of the cache protocol keeps: when publication is safe, and what a reclaim deletes. */
module CacheSafety {
  import opened CacheProtocol
  import opened Outcomes

  // ---- steps that concern somebody else -------------------------------------------------------

  /** The step of a build that has started and does not die of it. */
  predicate Moves(e: Event) {
    !e.Tick? && !e.Start? && !e.Crash?
  }

  lemma StepFrame(checks: Checks, s: State, e: Event)
    requires Enabled(checks, s, e) && Moves(e)
    ensures Frame(s, After(checks, s, e), e.p)
  {
  }

  lemma FrameSpares(s: State, r: State, p: Operation, q: Operation)
    requires Frame(s, r, p) && q != p
    ensures q in r.phases <==> q in s.phases
    ensures q in s.phases ==> r.phases[q] == s.phases[q]
  {
  }

  /** A step moves only the phase of the operation that takes it. */
  lemma OthersStay(checks: Checks, s: State, e: Event, q: Operation)
    requires Enabled(checks, s, e) && (e.Tick? || q != e.p)
    ensures q in After(checks, s, e).phases <==> q in s.phases
    ensures q in s.phases ==> After(checks, s, e).phases[q] == s.phases[q]
    ensures q in After(checks, s, e).dead <==> q in s.dead
  {
    if Moves(e) {
      StepFrame(checks, s, e);
      FrameSpares(s, After(checks, s, e), e.p, q);
    }
  }

  /** The base never changes, time never goes back and nobody rises from the dead. */
  lemma StepIsMonotone(checks: Checks, s: State, e: Event)
    requires Enabled(checks, s, e)
    ensures After(checks, s, e).base == s.base
    ensures s.now <= After(checks, s, e).now && s.dead <= After(checks, s, e).dead
    ensures s.phases.Keys <= After(checks, s, e).phases.Keys
  {
    if Moves(e) { StepFrame(checks, s, e); }
  }

  lemma {:induction false} BaseStays(checks: Checks, states: seq<State>, events: seq<Event>, i: nat)
    requires IsRun(checks, states, events) && i < |states|
    ensures states[i].base == states[0].base
  {
    if i > 0 {
      BaseStays(checks, states, events, i - 1);
      StepIsMonotone(checks, states[i - 1], events[i - 1]);
    }
  }

  // ---- what was observed ----------------------------------------------------------------------

  /** What `p` remembers seeing is what it remembered before, or a reclaimable lock in its place. */
  predicate SeenFollows(s: State, r: State, p: Operation)
    requires p in s.phases && p in r.phases
  {
    SeenBy(r.phases[p]).Some? ==>
      || SeenBy(r.phases[p]) == SeenBy(s.phases[p])
      || (SeenBy(r.phases[p]) == s.lock && Reclaimable(s, s.lock.value))
  }

  lemma ReclaimSees(s: State, p: Operation, reclaim: ReclaimStep)
    requires p in s.phases && CanReclaim(s, p, reclaim)
    ensures SeenFollows(s, AfterReclaim(s, p, reclaim), p)
  {
  }

  lemma LookSees(s: State, p: Operation, look: LookStep)
    requires p in s.phases && CanLook(s, p, look)
    ensures SeenFollows(s, AfterLook(s, p, look), p)
  {
  }

  lemma SweepSees(s: State, p: Operation, sweep: SweepStep)
    requires p in s.phases && CanSweep(s, p, sweep)
    ensures SeenFollows(s, AfterSweep(s, p, sweep), p)
  {
  }

  lemma TakingForgets(s: State, p: Operation, take: TakeStep)
    requires p in s.phases && CanTake(s, p, take)
    ensures SeenBy(AfterTake(s, p, take).phases[p]).None? && !Vetting(AfterTake(s, p, take).phases[p])
  {
  }

  lemma FillingForgets(s: State, p: Operation, fill: FillStep)
    requires p in s.phases && CanFill(s, p, fill)
    ensures SeenBy(AfterFill(s, p, fill).phases[p]).None? && !Vetting(AfterFill(s, p, fill).phases[p])
  {
  }

  lemma FinishingForgets(checks: Checks, s: State, p: Operation, finish: FinishStep)
    requires p in s.phases && CanFinish(checks, s, p, finish)
    ensures SeenBy(AfterFinish(checks, s, p, finish).phases[p]).None?
  {
  }

  lemma SettlingForgets(checks: Checks, s: State, p: Operation, settle: SettleStep)
    requires p in s.phases && CanSettle(checks, s, p, settle)
    ensures SeenBy(AfterSettle(checks, s, p, settle).phases[p]).None?
    ensures !Vetting(AfterSettle(checks, s, p, settle).phases[p])
  {
  }

  /** Only looking and reclaiming lead to a phase that remembers a lock; only finishing to a checked one. */
  lemma OthersForget(checks: Checks, s: State, e: Event)
    requires Enabled(checks, s, e) && Moves(e) && !e.Look? && !e.Reclaim? && !e.Sweep?
    ensures e.p in After(checks, s, e).phases && SeenBy(After(checks, s, e).phases[e.p]).None?
    ensures !e.Finish? ==> !Vetting(After(checks, s, e).phases[e.p])
  {
    match e
    case Take(p, take) => TakingForgets(s, p, take);
    case Fill(p, fill) => FillingForgets(s, p, fill);
    case Finish(p, finish) => FinishingForgets(checks, s, p, finish);
    case Settle(p, settle) => SettlingForgets(checks, s, p, settle);
  }

  lemma OwnSeen(checks: Checks, s: State, e: Event)
    requires Enabled(checks, s, e) && !e.Tick? && e.p in s.phases
    ensures e.p in After(checks, s, e).phases && SeenFollows(s, After(checks, s, e), e.p)
  {
    match e
    case Crash(_) =>
    case Look(p, look) => LookSees(s, p, look);
    case Reclaim(p, reclaim) => ReclaimSees(s, p, reclaim);
    case Sweep(p, sweep) => SweepSees(s, p, sweep);
    case _ => OthersForget(checks, s, e);
  }

  predicate SeenOk(s: State, q: Operation)
    requires q in s.phases
  {
    SeenBy(s.phases[q]).Some? ==> Reclaimable(s, SeenBy(s.phases[q]).value)
  }

  ghost predicate SeenInv(s: State) {
    forall q {:trigger SeenOk(s, q)} :: q in s.phases ==> SeenOk(s, q)
  }

  lemma SeenStep(checks: Checks, s: State, e: Event)
    requires Enabled(checks, s, e) && SeenInv(s)
    ensures SeenInv(After(checks, s, e))
  {
    var s' := After(checks, s, e);
    StepIsMonotone(checks, s, e);
    forall q | q in s'.phases ensures SeenOk(s', q) {
      if e.Tick? || q != e.p {
        OthersStay(checks, s, e, q);
        assert SeenOk(s, q);
      } else if q in s.phases {
        assert SeenOk(s, q);
        OwnSeen(checks, s, e);
      }
    }
  }

  // ---- claims -----------------------------------------------------------------------------------

  /** The claim is there; what a sweep or a drop handles is ownerless, unobserved or the observed owner's. */
  predicate ClaimOk(s: State, q: Operation)
    requires q in s.phases
  {
    var phase := s.phases[q];
    ClaimOf(phase).Some? ==>
      && phase.claim in s.claims
      && (phase.Sweeping? || phase.Wiping? || phase.Dropping? ==>
            || s.claims[phase.claim].owner.None? || phase.seen.owner.None?
            || s.claims[phase.claim].owner == phase.seen.owner)
      && (phase.Sweeping? || phase.Wiping? ==> s.claims[phase.claim].owner == Some(phase.target))
  }

  predicate Apart(s: State, q: Operation, r: Operation)
    requires q in s.phases && r in s.phases
  {
    q != r && ClaimOf(s.phases[q]).Some? ==> ClaimOf(s.phases[q]) != ClaimOf(s.phases[r])
  }

  ghost predicate ClaimInv(s: State) {
    && (forall q {:trigger ClaimOk(s, q)} :: q in s.phases ==> ClaimOk(s, q))
    && (forall q, r {:trigger Apart(s, q, r)} :: q in s.phases && r in s.phases ==> Apart(s, q, r))
  }

  lemma ReclaimKeepsClaim(s: State, p: Operation, reclaim: ReclaimStep, c: nat)
    requires p in s.phases && CanReclaim(s, p, reclaim) && c in s.claims && ClaimOf(s.phases[p]) != Some(c)
    ensures c in AfterReclaim(s, p, reclaim).claims && AfterReclaim(s, p, reclaim).claims[c] == s.claims[c]
  {
  }

  /** Claims change only under the operation that names them. */
  lemma ClaimsStay(checks: Checks, s: State, e: Event, c: nat)
    requires Enabled(checks, s, e) && c in s.claims
    requires e.Tick? || e.p !in s.phases || ClaimOf(s.phases[e.p]) != Some(c)
    ensures c in After(checks, s, e).claims && After(checks, s, e).claims[c] == s.claims[c]
  {
    if e.Reclaim? { ReclaimKeepsClaim(s, e.p, e.reclaim, c); }
  }

  /** Only a reclaim or a sweep leads to a phase that names a claim. */
  lemma ClaimsAreReclaimed(checks: Checks, s: State, e: Event)
    requires Enabled(checks, s, e) && Moves(e) && !e.Reclaim? && !e.Sweep?
    ensures e.p in After(checks, s, e).phases && ClaimOf(After(checks, s, e).phases[e.p]).None?
  {
    if !e.Look? { OthersForget(checks, s, e); }
  }

  /** The claim named afterwards is the one named before, or a fresh one. */
  predicate ClaimFollows(s: State, r: State, p: Operation)
    requires p in s.phases && p in r.phases
  {
    ClaimOk(r, p)
    && (ClaimOf(r.phases[p]).Some? ==>
          ClaimOf(r.phases[p]) == ClaimOf(s.phases[p]) || ClaimOf(r.phases[p]).value !in s.claims)
  }

  lemma ReclaimFollows(s: State, p: Operation, reclaim: ReclaimStep)
    requires p in s.phases && CanReclaim(s, p, reclaim) && ClaimOk(s, p)
    ensures ClaimFollows(s, AfterReclaim(s, p, reclaim), p)
  {
  }

  lemma SweepFollows(s: State, p: Operation, sweep: SweepStep)
    requires p in s.phases && CanSweep(s, p, sweep) && ClaimOk(s, p)
    ensures ClaimFollows(s, AfterSweep(s, p, sweep), p)
  {
  }

  lemma OwnClaim(checks: Checks, s: State, e: Event)
    requires Enabled(checks, s, e) && !e.Tick? && e.p in s.phases && ClaimOk(s, e.p)
    ensures e.p in After(checks, s, e).phases && ClaimFollows(s, After(checks, s, e), e.p)
  {
    match e
    case Crash(_) =>
    case Reclaim(p, reclaim) => ReclaimFollows(s, p, reclaim);
    case Sweep(p, sweep) => SweepFollows(s, p, sweep);
    case _ => ClaimsAreReclaimed(checks, s, e);
  }

  lemma OtherClaim(checks: Checks, s: State, e: Event, q: Operation)
    requires Enabled(checks, s, e) && ClaimInv(s) && q in s.phases && (e.Tick? || q != e.p)
    ensures q in After(checks, s, e).phases && After(checks, s, e).phases[q] == s.phases[q]
    ensures ClaimOf(s.phases[q]).Some? ==>
      var c := s.phases[q].claim;
      c in s.claims && c in After(checks, s, e).claims && After(checks, s, e).claims[c] == s.claims[c]
  {
    OthersStay(checks, s, e, q);
    assert ClaimOk(s, q);
    if ClaimOf(s.phases[q]).Some? {
      assert e.Tick? || e.p !in s.phases || Apart(s, q, e.p);
      ClaimsStay(checks, s, e, s.phases[q].claim);
    }
  }

  lemma ApartStep(checks: Checks, s: State, e: Event, q: Operation, r: Operation)
    requires Enabled(checks, s, e) && ClaimInv(s) && q != r
    requires q in After(checks, s, e).phases && r in After(checks, s, e).phases
    ensures Apart(After(checks, s, e), q, r)
  {
    if e.Tick? || (q != e.p && r != e.p) {
      OthersStay(checks, s, e, q);
      OthersStay(checks, s, e, r);
      assert Apart(s, q, r);
    } else {
      var other := if q == e.p then r else q;
      OthersStay(checks, s, e, other);
      assert ClaimOk(s, other);
      if e.p in s.phases {
        assert ClaimOk(s, e.p) && Apart(s, other, e.p);
        OwnClaim(checks, s, e);
      }
    }
  }

  lemma ClaimStep(checks: Checks, s: State, e: Event)
    requires Enabled(checks, s, e) && ClaimInv(s)
    ensures ClaimInv(After(checks, s, e))
  {
    var s' := After(checks, s, e);
    forall q | q in s'.phases ensures ClaimOk(s', q) {
      if e.Tick? || q != e.p {
        OthersStay(checks, s, e, q);
        OtherClaim(checks, s, e, q);
        assert ClaimOk(s, q);
      } else if q in s.phases {
        assert ClaimOk(s, q);
        OwnClaim(checks, s, e);
      }
    }
    forall q, r | q in s'.phases && r in s'.phases ensures Apart(s', q, r) {
      if q != r { ApartStep(checks, s, e, q, r); }
    }
  }

  ghost predicate Honest(s: State) {
    SeenInv(s) && ClaimInv(s)
  }

  lemma {:induction false} RunIsHonest(checks: Checks, states: seq<State>, events: seq<Event>, i: nat)
    requires IsRun(checks, states, events) && i < |states|
    ensures Honest(states[i])
  {
    if i > 0 {
      RunIsHonest(checks, states, events, i - 1);
      SeenStep(checks, states[i - 1], events[i - 1]);
      ClaimStep(checks, states[i - 1], events[i - 1]);
    }
  }

  // ---- what a sweep can reach -------------------------------------------------------------------

  lemma SweepSpares(s: State, p: Operation, sweep: SweepStep, q: Operation)
    requires p in s.phases && CanSweep(s, p, sweep) && q in s.staging && TargetOf(s.phases[p]) != Some(q)
    ensures q in AfterSweep(s, p, sweep).staging && AfterSweep(s, p, sweep).staging[q] == s.staging[q]
  {
  }

  lemma StagingIsOwn(checks: Checks, s: State, e: Event)
    requires Enabled(checks, s, e) && Moves(e) && !e.Sweep?
    ensures OwnStaging(s, After(checks, s, e), e.p)
  {
  }

  lemma OwnStagingSpares(s: State, r: State, p: Operation, q: Operation)
    requires OwnStaging(s, r, p) && q != p
    ensures q in r.staging <==> q in s.staging
    ensures q in s.staging ==> r.staging[q] == s.staging[q]
  {
  }

  /** A staging directory changes only under its own build and under a sweep that targets it. */
  lemma StagingStays(checks: Checks, s: State, e: Event, q: Operation)
    requires Enabled(checks, s, e) && q in s.staging && (e.Tick? || q != e.p)
    requires e.Sweep? ==> e.p in s.phases && TargetOf(s.phases[e.p]) != Some(q)
    ensures q in After(checks, s, e).staging && After(checks, s, e).staging[q] == s.staging[q]
  {
    if e.Sweep? {
      SweepSpares(s, e.p, e.sweep, q);
    } else if Moves(e) {
      StagingIsOwn(checks, s, e);
      OwnStagingSpares(s, After(checks, s, e), e.p, q);
    }
  }

  /** A sweep only takes away. */
  predicate Less(s: State, r: State, q: Operation) {
    q in r.staging ==>
      && q in s.staging
      && (r.staging[q].database == s.staging[q].database || r.staging[q].database.None?)
      && (r.staging[q].descriptor == s.staging[q].descriptor || r.staging[q].descriptor.None?)
  }

  lemma SweepTakesAway(s: State, p: Operation, sweep: SweepStep, q: Operation)
    requires p in s.phases && CanSweep(s, p, sweep)
    ensures Less(s, AfterSweep(s, p, sweep), q)
  {
  }

  lemma OthersTakeAway(checks: Checks, s: State, e: Event, q: Operation)
    requires Enabled(checks, s, e) && (e.Tick? || q != e.p)
    ensures Less(s, After(checks, s, e), q)
  {
    if e.Sweep? {
      SweepTakesAway(s, e.p, e.sweep, q);
    } else if Moves(e) {
      StagingIsOwn(checks, s, e);
      OwnStagingSpares(s, After(checks, s, e), e.p, q);
    }
  }

  // ---- a build nobody tampers with publishes what it checked --------------------------------------

  /** A directory that passed every check of the build that published it. */
  predicate Vets(checks: Checks, p: Operation, d: Dir) {
    d.marker.None? && d.database.Some? && d.descriptor.Some? && checks.passes(p, d.database.value, d.descriptor.value)
  }

  /** What a living build has checked is still what it staged. */
  predicate VettedOk(checks: Checks, s: State, q: Operation)
    requires q in s.phases
  {
    var phase := s.phases[q];
    q !in s.dead && Vetting(phase) ==>
      && q in s.staging
      && s.staging[q].database == Some(phase.database) && s.staging[q].descriptor == Some(phase.descriptor)
      && checks.passes(q, phase.database, phase.descriptor)
      && (phase.Ready? ==> s.staging[q].marker.None?)
  }

  lemma FinishVets(checks: Checks, s: State, p: Operation, finish: FinishStep)
    requires s.Lives(p) && CanFinish(checks, s, p, finish) && VettedOk(checks, s, p)
    ensures VettedOk(checks, AfterFinish(checks, s, p, finish), p)
  {
  }

  /** Only checking leads to a checked phase. */
  lemma OthersDoNotVet(checks: Checks, s: State, e: Event)
    requires Enabled(checks, s, e) && Moves(e) && !e.Finish?
    ensures e.p in After(checks, s, e).phases && !Vetting(After(checks, s, e).phases[e.p])
  {
    if !e.Look? && !e.Reclaim? && !e.Sweep? { OthersForget(checks, s, e); }
  }

  lemma OwnVetted(checks: Checks, s: State, e: Event)
    requires Enabled(checks, s, e) && !e.Tick? && e.p in s.phases && VettedOk(checks, s, e.p)
    ensures e.p in After(checks, s, e).phases && VettedOk(checks, After(checks, s, e), e.p)
  {
    match e
    case Crash(_) =>
    case Finish(p, finish) => FinishVets(checks, s, p, finish);
    case _ => OthersDoNotVet(checks, s, e);
  }

  lemma SweepLeavesVetted(checks: Checks, s: State, p: Operation, sweep: SweepStep, q: Operation)
    requires s.Lives(p) && CanSweep(s, p, sweep) && q in s.phases && q != p
    requires VettedOk(checks, s, q) && !Tampers(s, Event.Sweep(p, sweep), q)
    ensures q in AfterSweep(s, p, sweep).phases && VettedOk(checks, AfterSweep(s, p, sweep), q)
  {
  }

  /** A step that does not tamper with a checked build leaves it as it was checked. */
  lemma VettedStep(checks: Checks, s: State, e: Event, q: Operation)
    requires Enabled(checks, s, e) && q in s.phases && VettedOk(checks, s, q) && !Tampers(s, e, q)
    ensures q in After(checks, s, e).phases && VettedOk(checks, After(checks, s, e), q)
  {
    if !e.Tick? && q == e.p {
      OwnVetted(checks, s, e);
    } else if e.Sweep? {
      SweepLeavesVetted(checks, s, e.p, e.sweep, q);
    } else {
      OthersStay(checks, s, e, q);
      if q !in s.dead && Vetting(s.phases[q]) { StagingStays(checks, s, e, q); }
    }
  }

  /** A tampered build is past its checks for good and its staging directory stays incomplete. */
  predicate Damaged(s: State, q: Operation) {
    && q in s.phases
    && (var phase := s.phases[q];
        || (Vetting(phase) && (q in s.staging ==> s.staging[q].database.None? || s.staging[q].descriptor.None?))
        || phase.Wrecking? || phase.Releasing? || phase.Unlocking? || phase == Leaving(false) || phase.Done?)
  }

  lemma TamperingDamages(checks: Checks, s: State, e: Event, q: Operation)
    requires Enabled(checks, s, e) && Tampers(s, e, q)
    ensures Damaged(After(checks, s, e), q)
  {
  }

  lemma FinishStaysDamaged(checks: Checks, s: State, p: Operation, finish: FinishStep)
    requires Damaged(s, p) && CanFinish(checks, s, p, finish)
    ensures Damaged(AfterFinish(checks, s, p, finish), p)
  {
  }

  lemma OwnDamaged(checks: Checks, s: State, e: Event)
    requires Enabled(checks, s, e) && !e.Tick? && Damaged(s, e.p)
    ensures Damaged(After(checks, s, e), e.p)
  {
    if e.Finish? { FinishStaysDamaged(checks, s, e.p, e.finish); }
  }

  lemma DamagedStep(checks: Checks, s: State, e: Event, q: Operation)
    requires Enabled(checks, s, e) && Damaged(s, q)
    ensures Damaged(After(checks, s, e), q)
  {
    if !e.Tick? && q == e.p {
      OwnDamaged(checks, s, e);
    } else {
      OthersStay(checks, s, e, q);
      OthersTakeAway(checks, s, e, q);
    }
  }

  /** Some step before `i` tampered with `q`. */
  ghost predicate Tampered(states: seq<State>, events: seq<Event>, i: nat, q: Operation)
    requires i <= |events| < |states|
  {
    exists j {:trigger Tampers(states[j], events[j], q)} :: 0 <= j < i && Tampers(states[j], events[j], q)
  }

  lemma {:induction false} RunVets(checks: Checks, states: seq<State>, events: seq<Event>, i: nat, q: Operation)
    requires IsRun(checks, states, events) && i <= |events|
    ensures Tampered(states, events, i, q) ==> Damaged(states[i], q)
    ensures !Tampered(states, events, i, q) && q in states[i].phases ==> VettedOk(checks, states[i], q)
  {
    if i > 0 {
      RunVets(checks, states, events, i - 1, q);
      var s, e := states[i - 1], events[i - 1];
      if Tampers(s, e, q) {
        TamperingDamages(checks, s, e, q);
      } else if Tampered(states, events, i - 1, q) {
        DamagedStep(checks, s, e, q);
      } else {
        assert !Tampered(states, events, i, q);
        if q in s.phases { VettedStep(checks, s, e, q); } else { BornUnvetted(checks, s, e, q); }
      }
    }
  }

  lemma BornUnvetted(checks: Checks, s: State, e: Event, q: Operation)
    requires Enabled(checks, s, e) && q !in s.phases
    ensures q in After(checks, s, e).phases ==> After(checks, s, e).phases[q].Seeking?
  {
    if e.Tick? || q != e.p { OthersStay(checks, s, e, q); }
  }

  // ---- publication --------------------------------------------------------------------------------

  ghost predicate PublishedOk(checks: Checks, s: State) {
    s.published.Some? ==> exists p :: Vets(checks, p, s.published.value)
  }

  lemma PublishMoves(checks: Checks, s: State, e: Event)
    requires Enabled(checks, s, e) && Publishes(e)
    ensures s.Lives(e.p) && s.phases[e.p].Ready? && e.p in s.staging
    ensures After(checks, s, e).published == Some(s.staging[e.p])
  {
  }

  /** A publication passes its checks exactly when nobody tampered with its build before. */
  lemma PublicationVetsExactly(checks: Checks, states: seq<State>, events: seq<Event>, i: nat)
    requires IsRun(checks, states, events) && i < |events| && Publishes(events[i])
    ensures states[i + 1].published.Some?
    ensures PublishedOk(checks, states[i + 1]) <==> !Tampered(states, events, i, events[i].p)
  {
    var s, p := states[i], events[i].p;
    RunVets(checks, states, events, i, p);
    PublishMoves(checks, s, events[i]);
    if !Tampered(states, events, i, p) {
      assert VettedOk(checks, s, p);
      assert Vets(checks, p, s.staging[p]);
    }
  }

  lemma SettlingKeepsPublished(checks: Checks, s: State, p: Operation, settle: SettleStep)
    requires p in s.phases && CanSettle(checks, s, p, settle) && !settle.Publish? && !settle.Quarantine?
    ensures AfterSettle(checks, s, p, settle).published == s.published
  {
  }

  /**
   * What a step may do to the published path: nothing, put a whole staged directory where there was
   * nothing but an empty one, or move the whole directory into quarantine. It never writes inside.
   */
  lemma PublishStep(checks: Checks, s: State, e: Event)
    requires Enabled(checks, s, e)
    ensures var r := After(checks, s, e);
      || r.published == s.published
      || (Publishes(e) && (s.published.None? || s.published == Some(EMPTY)) && e.p in s.staging
          && r.published == Some(s.staging[e.p]) && r.staging == s.staging - {e.p})
      || (s.published.Some? && r.published.None? && r.quarantined == s.quarantined + [s.published.value])
  {
    if e.Settle? && !Publishes(e) && !e.settle.Quarantine? { SettlingKeepsPublished(checks, s, e.p, e.settle); }
  }

  lemma {:induction false} VettedPublicationsSuffice(checks: Checks, states: seq<State>, events: seq<Event>, i: nat)
    requires IsRun(checks, states, events) && i < |states|
    requires forall j :: 0 <= j < |events| && Publishes(events[j]) ==> !Tampered(states, events, j, events[j].p)
    ensures PublishedOk(checks, states[i])
  {
    if i > 0 {
      VettedPublicationsSuffice(checks, states, events, i - 1);
      if Publishes(events[i - 1]) {
        PublicationVetsExactly(checks, states, events, i - 1);
      } else {
        PublishStep(checks, states[i - 1], events[i - 1]);
      }
    }
  }

  /**
   * Publication safety: through a whole run, however many builds there are and wherever they crash,
   * the published path is absent or holds a pair that passed every check of its publisher. This is
   * so exactly when no sweep tampered with a build that went on to publish.
   */
  lemma PublicationIsSafeExactly(checks: Checks, states: seq<State>, events: seq<Event>)
    requires IsRun(checks, states, events)
    ensures (forall i :: 0 <= i < |states| ==> PublishedOk(checks, states[i]))
       <==> (forall j :: 0 <= j < |events| && Publishes(events[j]) ==> !Tampered(states, events, j, events[j].p))
  {
    if forall i :: 0 <= i < |states| ==> PublishedOk(checks, states[i]) {
      forall j | 0 <= j < |events| && Publishes(events[j]) ensures !Tampered(states, events, j, events[j].p) {
        PublicationVetsExactly(checks, states, events, j);
        assert PublishedOk(checks, states[j + 1]);
      }
    } else {
      var i :| 0 <= i < |states| && !PublishedOk(checks, states[i]);
      if forall j :: 0 <= j < |events| && Publishes(events[j]) ==> !Tampered(states, events, j, events[j].p) {
        VettedPublicationsSuffice(checks, states, events, i);
      }
    }
  }

  // ---- runs without blind claims ------------------------------------------------------------------

  /** Who saw no owner holds no owned lock. */
  predicate ClearOk(s: State, q: Operation)
    requires q in s.phases
  {
    var phase := s.phases[q];
    ClaimOf(phase).Some? && phase.claim in s.claims && phase.seen.owner.None? ==> s.claims[phase.claim].owner.None?
  }

  ghost predicate ClearInv(s: State) {
    forall q {:trigger ClearOk(s, q)} :: q in s.phases ==> ClearOk(s, q)
  }

  lemma ReclaimStaysClear(s: State, p: Operation, reclaim: ReclaimStep)
    requires p in s.phases && CanReclaim(s, p, reclaim) && ClaimOk(s, p) && ClearOk(s, p)
    requires !Blind(s, Event.Reclaim(p, reclaim))
    ensures ClearOk(AfterReclaim(s, p, reclaim), p)
  {
  }

  lemma OwnClear(checks: Checks, s: State, e: Event)
    requires Enabled(checks, s, e) && !e.Tick? && e.p in s.phases
    requires ClaimOk(s, e.p) && ClearOk(s, e.p) && !Blind(s, e)
    ensures e.p in After(checks, s, e).phases && ClearOk(After(checks, s, e), e.p)
  {
    match e
    case Crash(_) =>
    case Reclaim(p, reclaim) => ReclaimStaysClear(s, p, reclaim);
    case Sweep(_, _) =>
    case _ => ClaimsAreReclaimed(checks, s, e);
  }

  lemma ClearStep(checks: Checks, s: State, e: Event)
    requires Enabled(checks, s, e) && ClaimInv(s) && ClearInv(s) && !Blind(s, e)
    ensures ClearInv(After(checks, s, e))
  {
    var s' := After(checks, s, e);
    forall q | q in s'.phases ensures ClearOk(s', q) {
      if e.Tick? || q != e.p {
        OthersStay(checks, s, e, q);
        OtherClaim(checks, s, e, q);
        assert ClearOk(s, q);
      } else if q in s.phases {
        assert ClaimOk(s, q) && ClearOk(s, q);
        OwnClear(checks, s, e);
      }
    }
  }

  lemma {:induction false} RunIsClear(checks: Checks, states: seq<State>, events: seq<Event>, i: nat)
    requires IsRun(checks, states, events) && i < |states|
    requires forall k :: 0 <= k < |events| ==> !Blind(states[k], events[k])
    ensures Honest(states[i]) && ClearInv(states[i])
  {
    RunIsHonest(checks, states, events, i);
    if i > 0 {
      RunIsClear(checks, states, events, i - 1);
      ClearStep(checks, states[i - 1], events[i - 1]);
    }
  }

  /** Without blind claims a sweep only ever targets the dead. */
  lemma TargetsAreDead(s: State, q: Operation)
    requires q in s.phases && SeenOk(s, q) && ClaimOk(s, q) && ClearOk(s, q)
    ensures TargetOf(s.phases[q]).Some? ==> TargetOf(s.phases[q]).value in s.dead
  {
  }

  /** A run without blind claims is safe at every state. */
  lemma PublicationIsSafe(checks: Checks, states: seq<State>, events: seq<Event>, i: nat)
    requires IsRun(checks, states, events) && i < |states|
    requires forall k :: 0 <= k < |events| ==> !Blind(states[k], events[k])
    ensures PublishedOk(checks, states[i])
    ensures forall j, q :: 0 <= j < |events| ==> !Tampers(states[j], events[j], q)
  {
    forall j, q | 0 <= j < |events| ensures !Tampers(states[j], events[j], q) {
      RunIsClear(checks, states, events, j);
      if events[j].Sweep? && events[j].p in states[j].phases {
        var p := events[j].p;
        assert SeenOk(states[j], p) && ClaimOk(states[j], p) && ClearOk(states[j], p);
        TargetsAreDead(states[j], p);
      }
    }
    VettedPublicationsSuffice(checks, states, events, i);
  }

  // ---- runs in which no unnamed lock grows old -------------------------------------------------------

  predicate SeenNamed(s: State, q: Operation)
    requires q in s.phases
  {
    SeenBy(s.phases[q]).Some? ==> SeenBy(s.phases[q]).value.owner.Some?
  }

  ghost predicate NamedInv(s: State) {
    forall q {:trigger SeenNamed(s, q)} :: q in s.phases ==> SeenNamed(s, q)
  }

  lemma NamedStep(checks: Checks, s: State, e: Event)
    requires Enabled(checks, s, e) && NamedInv(s) && !Forsaken(s)
    ensures NamedInv(After(checks, s, e))
  {
    var s' := After(checks, s, e);
    forall q | q in s'.phases ensures SeenNamed(s', q) {
      if e.Tick? || q != e.p {
        OthersStay(checks, s, e, q);
        assert SeenNamed(s, q);
      } else if q in s.phases {
        assert SeenNamed(s, q);
        OwnSeen(checks, s, e);
      }
    }
  }

  lemma {:induction false} RunSeesNames(checks: Checks, states: seq<State>, events: seq<Event>, i: nat)
    requires IsRun(checks, states, events) && i < |states|
    requires forall k :: 0 <= k < |states| ==> !Forsaken(states[k])
    ensures NamedInv(states[i])
  {
    if i > 0 {
      RunSeesNames(checks, states, events, i - 1);
      NamedStep(checks, states[i - 1], events[i - 1]);
    }
  }

  /**
   * No claim is blind while no lock directory stays unnamed for a minute, be it that its maker died
   * or paused before naming it, or that whoever removed it died or paused halfway.
   */
  lemma NamedLocksAreNeverBlind(checks: Checks, states: seq<State>, events: seq<Event>, i: nat)
    requires IsRun(checks, states, events) && i < |events|
    requires forall k :: 0 <= k < |states| ==> !Forsaken(states[k])
    ensures !Blind(states[i], events[i])
  {
    RunSeesNames(checks, states, events, i);
    if Claims(events[i]) && events[i].p in states[i].phases { assert SeenNamed(states[i], events[i].p); }
  }

  // ---- what a reclaim deletes ------------------------------------------------------------------------

  /** At step `j` operation `q` moved this lock, having seen that one, to the claim it names at `i`. */
  predicate Moved(states: seq<State>, events: seq<Event>, i: nat, q: Operation, j: nat)
    requires j < i <= |events| < |states| && q in states[i].phases && ClaimOf(states[i].phases[q]).Some?
  {
    var phase := states[i].phases[q];
    && phase.claim in states[i].claims
    && events[j] == Event.Reclaim(q, Claim(phase.claim))
    && states[j].lock == Some(states[i].claims[phase.claim])
    && q in states[j].phases && states[j].phases[q] == Observed(phase.seen)
  }

  ghost predicate Origin(states: seq<State>, events: seq<Event>, i: nat, q: Operation)
    requires i <= |events| < |states|
  {
    q in states[i].phases && ClaimOf(states[i].phases[q]).Some? ==>
      exists j :: 0 <= j < i && Moved(states, events, i, q, j)
  }

  lemma ReclaimKeepsOrigin(s: State, p: Operation, reclaim: ReclaimStep)
    requires p in s.phases && CanReclaim(s, p, reclaim) && !reclaim.Claim?
    ensures var r := AfterReclaim(s, p, reclaim); ClaimOf(r.phases[p]).Some? ==>
      && ClaimOf(r.phases[p]) == ClaimOf(s.phases[p]) && r.phases[p].seen == s.phases[p].seen
      && r.phases[p].claim in s.claims && r.claims == s.claims
  {
  }

  lemma OwnOrigin(checks: Checks, s: State, e: Event)
    requires Enabled(checks, s, e) && !e.Tick? && e.p in s.phases && !Claims(e) && ClaimOk(s, e.p)
    ensures var r := After(checks, s, e); e.p in r.phases && (ClaimOf(r.phases[e.p]).Some? ==>
      && ClaimOf(r.phases[e.p]) == ClaimOf(s.phases[e.p]) && r.phases[e.p].seen == s.phases[e.p].seen
      && r.phases[e.p].claim in s.claims && r.claims == s.claims)
  {
    match e
    case Crash(_) =>
    case Reclaim(p, reclaim) => ReclaimKeepsOrigin(s, p, reclaim);
    case Sweep(_, _) =>
    case _ => ClaimsAreReclaimed(checks, s, e);
  }

  lemma OriginStays(states: seq<State>, events: seq<Event>, i: nat, q: Operation)
    requires 0 < i <= |events| < |states| && Origin(states, events, i - 1, q)
    requires q in states[i - 1].phases && q in states[i].phases
    requires ClaimOf(states[i].phases[q]).Some? ==>
      var phase := states[i].phases[q];
      && ClaimOf(states[i - 1].phases[q]) == Some(phase.claim) && states[i - 1].phases[q].seen == phase.seen
      && phase.claim in states[i - 1].claims && phase.claim in states[i].claims
      && states[i].claims[phase.claim] == states[i - 1].claims[phase.claim]
    ensures Origin(states, events, i, q)
  {
    if ClaimOf(states[i].phases[q]).Some? {
      var j :| 0 <= j < i - 1 && Moved(states, events, i - 1, q, j);
      assert Moved(states, events, i, q, j);
    }
  }

  lemma {:induction false} RunHasOrigins(checks: Checks, states: seq<State>, events: seq<Event>, i: nat, q: Operation)
    requires IsRun(checks, states, events) && i <= |events|
    ensures Origin(states, events, i, q)
  {
    if i > 0 && q in states[i].phases {
      RunHasOrigins(checks, states, events, i - 1, q);
      RunIsHonest(checks, states, events, i - 1);
      var s, e := states[i - 1], events[i - 1];
      if q !in s.phases {
        BornUnvetted(checks, s, e, q);
      } else if e.Tick? || q != e.p {
        OtherClaim(checks, s, e, q);
        OriginStays(states, events, i, q);
      } else if Claims(e) {
        assert Moved(states, events, i, q, i - 1);
      } else {
        assert ClaimOk(s, q);
        OwnOrigin(checks, s, e);
        OriginStays(states, events, i, q);
      }
    }
  }

  /**
   * What a reclaim deletes, in every run: the very lock its claim moved aside, after seeing a lock
   * that was stale and whose owner, if any, was dead. So it deletes the lock it saw exactly when
   * that one was still at the lock path, and one that a living build was using exactly when the
   * claim was blind and the lock named a living build, or interrupted the making or removing of an
   * unnamed one.
   */
  lemma ReclaimDeletes(checks: Checks, states: seq<State>, events: seq<Event>, i: nat) returns (j: nat)
    requires IsRun(checks, states, events) && i < |events| && Drops(events[i])
    ensures events[i].p in states[i].phases && states[i].phases[events[i].p].Dropping?
    ensures j < i && Moved(states, events, i, events[i].p, j)
    ensures states[i + 1].claims == states[i].claims - {states[i].phases[events[i].p].claim}
    ensures states[i + 1].lock == states[i].lock
    ensures var seen := states[i].phases[events[i].p].seen;
      && seen.touched + 60_000 <= states[j].now
      && (seen.owner.Some? ==> seen.owner.value in states[j].dead && seen.created + 60_000 <= states[j].now)
    ensures var seen := states[i].phases[events[i].p].seen; var deleted := Deleted(states[i], events[i]);
      && Reclaimable(states[j], seen) && Reclaimable(states[i], seen)
      && (deleted == seen <==> states[j].lock == Some(seen))
      && (InUse(states[j], deleted) <==>
            || Interrupts(states[j], events[j])
            || (Blind(states[j], events[j]) && states[j].Lives(deleted.owner.value)))
      && (deleted.owner == seen.owner <==> !Mismatched(states[j], events[j]))
      && (deleted.owner == seen.owner <==> (deleted.owner.Some? <==> seen.owner.Some?))
      && (deleted.owner.Some? && seen.owner.None? <==> Blind(states[j], events[j]))
      && (deleted.owner.Some? && seen.owner.Some? ==> deleted.owner.value in states[i].dead)
  {
    RunIsHonest(checks, states, events, i);
    var s, p := states[i], events[i].p;
    assert SeenOk(s, p) && ClaimOk(s, p);
    RunHasOrigins(checks, states, events, i, p);
    j :| 0 <= j < i && Moved(states, events, i, p, j);
    RunIsHonest(checks, states, events, j);
    assert SeenOk(states[j], p);
    ClaimedInUse(states[j], events[j], s.phases[p].seen, Deleted(s, events[i]));
  }

  /** The lock a reclaimer is about to delete. */
  function Deleted(s: State, e: Event): Lock
    requires Drops(e) && e.p in s.phases && s.phases[e.p].Dropping? && s.phases[e.p].claim in s.claims
  {
    s.claims[s.phases[e.p].claim]
  }

  /** A claim of a lock that may be deleted takes it from somebody living only when blind or interrupting. */
  lemma ClaimedInUse(s: State, e: Event, seen: Lock, lock: Lock)
    requires Claims(e) && s.lock == Some(lock) && e.p in s.phases && s.phases[e.p] == Observed(seen)
    requires Reclaimable(s, seen) && (lock.owner.None? || seen.owner.None? || lock.owner == seen.owner)
    ensures Blind(s, e) ==> lock.owner.Some?
    ensures InUse(s, lock) <==> Interrupts(s, e) || (Blind(s, e) && s.Lives(lock.owner.value))
  {
  }

  /** The lock picked up does not name whom the reclaimer saw. */
  predicate PickedUpAnother(s: State, q: Operation)
    requires q in s.phases
  {
    var phase := s.phases[q];
    (phase.Claimed? || phase.Restoring?) && phase.claim in s.claims && phase.seen.owner.Some?
    && s.claims[phase.claim].owner != phase.seen.owner
  }

  lemma ReclaimReturns(s: State, p: Operation, reclaim: ReclaimStep)
    requires p in s.phases && CanReclaim(s, p, reclaim) && PickedUpAnother(s, p)
    ensures var r := AfterReclaim(s, p, reclaim); var c := s.phases[p].claim;
      || (c in r.claims && r.claims[c] == s.claims[c]
          && (r.phases[p].Dropping? <==> reclaim.KeepClaim? && s.claims[c].owner.None?)
          && (r.phases[p].Dropping? || r.phases[p].Restoring? || r.phases[p].Seeking?))
      || (reclaim.Restore? && r.lock == Some(s.claims[c]) && r.phases[p].Seeking?)
  {
  }

  /**
   * Whatever step comes next, a lock picked up by mistake is put back or kept in its claim directory
   * and no sweep follows. It is let go to be deleted exactly when it is unnamed and the reclaimer
   * gives up waiting for the lock path.
   */
  lemma MistakenClaimSurvives(checks: Checks, s: State, e: Event, q: Operation)
    requires Enabled(checks, s, e) && Honest(s) && q in s.phases && PickedUpAnother(s, q)
    ensures q in After(checks, s, e).phases
    ensures var r := After(checks, s, e); var c := s.phases[q].claim;
      || (c in r.claims && r.claims[c] == s.claims[c])
      || (r.lock == Some(s.claims[c]) && e == Event.Reclaim(q, Restore))
    ensures var phase := After(checks, s, e).phases[q];
      && !phase.Sweeping? && !phase.Wiping?
      && (phase.Dropping? <==> e == Event.Reclaim(q, KeepClaim) && s.claims[s.phases[q].claim].owner.None?)
      && (phase.Dropping? ==> s.lock.Some?)
  {
    if e.Tick? || q != e.p {
      OtherClaim(checks, s, e, q);
    } else if e.Reclaim? {
      ReclaimReturns(s, q, e.reclaim);
    } else {
      assert e.Crash?;
    }
  }

  // ---- claims nobody works on -----------------------------------------------------------------------

  /** The claim directory is there, and whoever named it is dead or has moved on. */
  ghost predicate Abandoned(s: State, c: nat) {
    c in s.claims && forall q {:trigger s.Lives(q)} :: s.Lives(q) ==> ClaimOf(s.phases[q]) != Some(c)
  }

  lemma AbandonedStep(checks: Checks, s: State, e: Event, c: nat)
    requires Enabled(checks, s, e) && Honest(s) && Abandoned(s, c)
    ensures Abandoned(After(checks, s, e), c) && After(checks, s, e).claims[c] == s.claims[c]
  {
    var s' := After(checks, s, e);
    assert !e.Tick? && !e.Start? ==> s.Lives(e.p);
    ClaimsStay(checks, s, e, c);
    forall q | s'.Lives(q) ensures ClaimOf(s'.phases[q]) != Some(c) {
      if e.Tick? || q != e.p {
        OthersStay(checks, s, e, q);
        assert s.Lives(q);
      } else if q in s.phases {
        assert ClaimOk(s, q);
        OwnClaim(checks, s, e);
      }
    }
  }

  lemma LookEntersAlone(s: State, p: Operation, look: LookStep)
    requires p in s.phases && CanLook(s, p, look) && s.claims != map[] && !Critical(s.phases[p])
    ensures !Critical(AfterLook(s, p, look).phases[p])
  {
  }

  /** With a claim directory in sight nobody enters the critical section. */
  lemma NobodyEnters(checks: Checks, s: State, e: Event, q: Operation)
    requires Enabled(checks, s, e) && s.claims != map[] && (q in s.phases ==> !Critical(s.phases[q]))
    ensures q in After(checks, s, e).phases ==> !Critical(After(checks, s, e).phases[q])
  {
    if e.Tick? || q != e.p {
      OthersStay(checks, s, e, q);
    } else if e.Look? {
      LookEntersAlone(s, q, e.look);
    }
  }

  /**
   * A crash between moving a lock aside and deleting it closes the cache key: the claim directory
   * stays for good, and no build that has not acquired the lock yet ever does.
   */
  lemma {:induction false} AbandonedClaimClosesTheKey(checks: Checks, states: seq<State>, events: seq<Event>,
                                                      i: nat, k: nat, c: nat, q: Operation)
    requires IsRun(checks, states, events) && i <= k < |states| && Abandoned(states[i], c)
    ensures Abandoned(states[k], c) && states[k].claims[c] == states[i].claims[c]
    ensures (q in states[i].phases ==> !Critical(states[i].phases[q])) ==>
            (q in states[k].phases ==> !Critical(states[k].phases[q]))
  {
    if i < k {
      AbandonedClaimClosesTheKey(checks, states, events, i, k - 1, c, q);
      RunIsHonest(checks, states, events, k - 1);
      AbandonedStep(checks, states[k - 1], events[k - 1], c);
      if q in states[k - 1].phases ==> !Critical(states[k - 1].phases[q]) {
        NobodyEnters(checks, states[k - 1], events[k - 1], q);
      }
    }
  }

  /** Such a crash does abandon its claim. */
  lemma CrashAbandons(checks: Checks, s: State, p: Operation)
    requires Honest(s) && Enabled(checks, s, Crash(p)) && ClaimOf(s.phases[p]).Some?
    ensures Abandoned(After(checks, s, Crash(p)), s.phases[p].claim)
  {
    var r := After(checks, s, Crash(p));
    assert ClaimOk(s, p);
    forall q | r.Lives(q) ensures ClaimOf(r.phases[q]) != Some(s.phases[p].claim) {
      assert Apart(s, p, q);
    }
  }
}
