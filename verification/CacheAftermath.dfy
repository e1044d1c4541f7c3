/**
 * What builds leave behind: the lock is given back, staging directories vanish, what was published
 * stays or is quarantined, and a build that nobody disturbs does exactly what it is for.
 */
module CacheAftermath {
  import opened CacheExclusion
  import opened CacheProtocol
  import opened CacheSafety
  import opened Outcomes

  // ---- whom a lock names --------------------------------------------------------------------------

  /** The lock names nobody, somebody dead, or a build that has not removed its record yet. */
  predicate NamesHolder(s: State, lock: Lock) {
    lock.owner.Some? ==>
      lock.owner.value in s.phases && (lock.owner.value in s.dead || Holding(s.phases[lock.owner.value]))
  }

  /** A claimed lock names nobody or somebody dead. */
  predicate NamesDead(s: State, c: nat)
    requires c in s.claims
  {
    s.claims[c].owner.Some? ==> s.claims[c].owner.value in s.phases && s.claims[c].owner.value in s.dead
  }

  ghost predicate NameInv(s: State) {
    && (s.lock.Some? ==> NamesHolder(s, s.lock.value))
    && (forall c {:trigger NamesDead(s, c)} :: c in s.claims ==> NamesDead(s, c))
  }

  /** Whoever the lock names goes on holding it, or removes its own record. */
  lemma TakingKeepsName(s: State, p: Operation, take: TakeStep)
    requires s.Lives(p) && CanTake(s, p, take) && (s.lock.Some? ==> NamesHolder(s, s.lock.value))
    ensures var r := AfterTake(s, p, take); r.lock.Some? ==> NamesHolder(r, r.lock.value)
  {
  }

  lemma LookingKeepsName(s: State, p: Operation, look: LookStep)
    requires s.Lives(p) && CanLook(s, p, look) && (s.lock.Some? ==> NamesHolder(s, s.lock.value))
    ensures var r := AfterLook(s, p, look); r.lock.Some? ==> NamesHolder(r, r.lock.value)
  {
  }

  lemma FillingKeepsName(s: State, p: Operation, fill: FillStep)
    requires s.Lives(p) && CanFill(s, p, fill) && (s.lock.Some? ==> NamesHolder(s, s.lock.value))
    ensures var r := AfterFill(s, p, fill); r.lock.Some? ==> NamesHolder(r, r.lock.value)
  {
  }

  lemma FinishingKeepsName(checks: Checks, s: State, p: Operation, finish: FinishStep)
    requires s.Lives(p) && CanFinish(checks, s, p, finish) && (s.lock.Some? ==> NamesHolder(s, s.lock.value))
    ensures var r := AfterFinish(checks, s, p, finish); r.lock.Some? ==> NamesHolder(r, r.lock.value)
  {
  }

  lemma SettlingKeepsName(checks: Checks, s: State, p: Operation, settle: SettleStep)
    requires s.Lives(p) && CanSettle(checks, s, p, settle) && (s.lock.Some? ==> NamesHolder(s, s.lock.value))
    ensures var r := AfterSettle(checks, s, p, settle); r.lock.Some? ==> NamesHolder(r, r.lock.value)
  {
  }

  lemma SweepingKeepsName(s: State, p: Operation, sweep: SweepStep)
    requires s.Lives(p) && CanSweep(s, p, sweep) && (s.lock.Some? ==> NamesHolder(s, s.lock.value))
    ensures var r := AfterSweep(s, p, sweep); r.lock.Some? ==> NamesHolder(r, r.lock.value)
  {
  }

  /** A claim that robs nobody moves aside a lock that names no living build. */
  lemma ReclaimingKeepsNames(s: State, p: Operation, reclaim: ReclaimStep)
    requires s.Lives(p) && CanReclaim(s, p, reclaim) && NameInv(s) && !Robs(s, Event.Reclaim(p, reclaim))
    ensures var r := AfterReclaim(s, p, reclaim);
      (r.lock.Some? ==> NamesHolder(r, r.lock.value)) && forall c :: c in r.claims ==> NamesDead(r, c)
  {
    var r := AfterReclaim(s, p, reclaim);
    assert ClaimOf(s.phases[p]).Some? && s.phases[p].claim in s.claims ==> NamesDead(s, s.phases[p].claim);
    forall c | c in r.claims ensures NamesDead(r, c) {
      if c in s.claims { assert NamesDead(s, c); }
    }
  }

  lemma OthersKeepClaims(checks: Checks, s: State, e: Event)
    requires Enabled(checks, s, e) && !e.Reclaim?
    ensures After(checks, s, e).claims == s.claims
  {
  }

  lemma NameStep(checks: Checks, s: State, e: Event)
    requires Enabled(checks, s, e) && NameInv(s) && !Robs(s, e)
    ensures NameInv(After(checks, s, e))
  {
    var r := After(checks, s, e);
    if e.Reclaim? {
      ReclaimingKeepsNames(s, e.p, e.reclaim);
    } else {
      OthersKeepClaims(checks, s, e);
      StepIsMonotone(checks, s, e);
      forall c | c in r.claims ensures NamesDead(r, c) { assert NamesDead(s, c); }
      match e
      case Start(_) =>
      case Tick(_) =>
      case Crash(_) =>
      case Look(p, look) => LookingKeepsName(s, p, look);
      case Take(p, take) => TakingKeepsName(s, p, take);
      case Sweep(p, sweep) => SweepingKeepsName(s, p, sweep);
      case Fill(p, fill) => FillingKeepsName(s, p, fill);
      case Finish(p, finish) => FinishingKeepsName(checks, s, p, finish);
      case Settle(p, settle) => SettlingKeepsName(checks, s, p, settle);
    }
  }

  lemma {:induction false} RunNames(checks: Checks, states: seq<State>, events: seq<Event>, i: nat)
    requires IsRun(checks, states, events) && i < |states|
    requires forall k :: 0 <= k < i ==> !Robs(states[k], events[k])
    ensures NameInv(states[i])
  {
    if i > 0 {
      RunNames(checks, states, events, i - 1);
      NameStep(checks, states[i - 1], events[i - 1]);
    }
  }

  /** The phases from writing the owner record up to the removal of it. */
  predicate BeforeStripping(phase: Phase) {
    match phase
    case Created | Yielding | Locked | Verifying | Quarantining | Preparing | Made | Marked | Copied => true
    case Mutated | Described | Checked(_, _) | Ready(_, _) | Wrecking | Releasing | Unlocking => true
    case _ => false
  }

  /**
   * The lock is given back: in every run, until a reclaimer robs somebody, the lock names a living
   * build exactly while that build is between writing its record and removing it, and no claim
   * directory names a living build. So a build that is done is named nowhere.
   */
  lemma LocksAreGivenBack(checks: Checks, states: seq<State>, events: seq<Event>, i: nat, q: Operation)
    requires IsRun(checks, states, events) && i < |states|
    requires forall k :: 0 <= k < i ==> !Robs(states[k], events[k])
    requires states[i].Lives(q)
    ensures states[i].lock.Some? && states[i].lock.value.owner == Some(q) <==> BeforeStripping(states[i].phases[q])
    ensures states[i].phases[q].Done? ==> !(states[i].lock.Some? && states[i].lock.value.owner == Some(q))
    ensures forall c :: c in states[i].claims ==> states[i].claims[c].owner != Some(q)
  {
    RunNames(checks, states, events, i);
    RunHolds(checks, states, events, i);
    assert HolderOk(states[i], q);
    forall c | c in states[i].claims ensures states[i].claims[c].owner != Some(q) { assert NamesDead(states[i], c); }
  }

  /**
   * A living build at its release whose lock names it cannot end but by removing the lock: its only
   * steps lead through removing its record, which leaves an unnamed lock directory, to removing
   * that directory, unless that removal fails. A lock that does not name it is left alone.
   */
  lemma ReleaseLeadsOut(checks: Checks, s: State, e: Event, p: Operation)
    requires Enabled(checks, s, e) && !e.Tick? && !e.Crash? && e.p == p && p in s.phases
    ensures p in After(checks, s, e).phases
    ensures s.phases[p] == Releasing && s.lock.Some? && s.lock.value.owner == Some(p) ==>
      After(checks, s, e) == s.(phases := s.phases[p := Unlocking])
    ensures s.phases[p] == Releasing && !(s.lock.Some? && s.lock.value.owner == Some(p)) ==>
      After(checks, s, e) == s.(phases := s.phases[p := Done])
    ensures s.phases[p] == Unlocking && s.lock.Some? && s.lock.value.owner == Some(p) ==>
      After(checks, s, e) == s.(phases := s.phases[p := Leaving(false)],
                                lock := Some(Lock(None, s.now, s.lock.value.created)))
    ensures s.phases[p] == Leaving(false) && s.Unnamed() ==>
      || After(checks, s, e) == s.(phases := s.phases[p := Done], lock := None)
      || (e == Look(p, GiveUp) && After(checks, s, e) == s.(phases := s.phases[p := Done]))
      || (e == Take(p, Strip) && After(checks, s, e) == s)
  {
    assert s.phases[p := s.phases[p]] == s.phases;
  }

  /**
   * How a build comes to its release: it published the directory it staged, hit an entry its own
   * verification accepts, has removed what it staged, or found its rejected entry gone.
   */
  lemma ReleaseReasons(checks: Checks, s: State, e: Event, p: Operation)
    requires Enabled(checks, s, e) && p in After(checks, s, e).phases && After(checks, s, e).phases[p] == Releasing
    requires p in s.phases ==> s.phases[p] != Releasing
    ensures p in s.phases
    ensures var r := After(checks, s, e);
      || (p in s.staging && (s.published.None? || s.published == Some(Dir(None, None, None)))
          && r.published == Some(s.staging[p]) && p !in r.staging)
      || (s.published.Some? && checks.verifies(p, s.published.value) && r == s.(phases := r.phases))
      || (s.phases[p] == Wrecking && p !in r.staging && r.published == s.published)
      || (s.phases[p] == Quarantining && s.published.None? && r == s.(phases := r.phases))
  {
    if e.Tick? || e.p != p {
      OthersStay(checks, s, e, p);
    } else if Moves(e) && !e.Finish? && !e.Settle? {
      NoOthersRelease(checks, s, e);
    }
  }

  lemma NoOthersRelease(checks: Checks, s: State, e: Event)
    requires Enabled(checks, s, e) && Moves(e) && !e.Finish? && !e.Settle?
    ensures e.p in After(checks, s, e).phases && After(checks, s, e).phases[e.p] != Releasing
  {
  }

  // ---- what may happen to a lock ------------------------------------------------------------------

  /** The one way each new lock comes about. */
  predicate LockMade(s: State, r: State, e: Event) {
    || (s.lock.None? && r.lock == Some(Lock(None, s.now, s.now)))
    || (s.Unnamed() && e.Take? && r.lock == Some(Lock(Some(e.p), s.now, s.now)))
    || (s.lock.None? && e.Reclaim? && e.p in s.phases && ClaimOf(s.phases[e.p]).Some?
        && s.phases[e.p].claim in s.claims
        && r.lock == Some(s.claims[s.phases[e.p].claim]) && r.claims == s.claims - {s.phases[e.p].claim})
  }

  /** The one way each lock goes away, or loses its record. */
  predicate LockLost(s: State, r: State, e: Event) {
    || (s.lock.Some? && s.lock.value.owner.Some? && e.Take? && r.lock == Some(Lock(None, s.now, s.lock.value.created)))
    || (s.Unnamed() && e.Take? && r.lock.None? && r.claims == s.claims)
    || (s.lock.Some? && Claims(e) && r.lock.None? && e.reclaim.claim !in s.claims
        && r.claims == s.claims[e.reclaim.claim := s.lock.value])
  }

  /**
   * What a step may do to the lock path: make an unnamed lock where there was none, name an unnamed
   * one after the build that takes the step, put back the very lock a claim moved aside, take a
   * record away, remove an unnamed lock, or move the whole lock to a fresh claim. No record is ever
   * written over, and a named lock is never removed where it stands.
   */
  lemma LockStep(checks: Checks, s: State, e: Event)
    requires Enabled(checks, s, e)
    ensures var r := After(checks, s, e); r.lock == s.lock || LockMade(s, r, e) || LockLost(s, r, e)
  {
    if !MovesLock(e) { LockStays(checks, s, e); }
  }

  /** What a step may do to the claims: add one, put one back at the free lock path, or drop one's own. */
  lemma ClaimsStep(checks: Checks, s: State, e: Event)
    requires Enabled(checks, s, e)
    ensures var r := After(checks, s, e);
      || r.claims == s.claims
      || (Claims(e) && LockLost(s, r, e))
      || (e.Reclaim? && e.p in s.phases && ClaimOf(s.phases[e.p]).Some?
          && s.phases[e.p].claim in s.claims && r.claims == s.claims - {s.phases[e.p].claim}
          && (r.lock == s.lock || (s.lock.None? && r.lock == Some(s.claims[s.phases[e.p].claim]))))
  {
    if !e.Reclaim? { OthersKeepClaims(checks, s, e); }
  }

  // ---- staging directories vanish -----------------------------------------------------------------

  /** The phases in which a build has a staging directory of its own. */
  predicate Stages(phase: Phase) {
    match phase
    case Made | Marked | Copied | Mutated | Described | Checked(_, _) | Ready(_, _) | Wrecking => true
    case _ => false
  }

  predicate StagedOk(s: State, q: Operation) {
    q in s.staging ==> q in s.phases && (q in s.dead || Stages(s.phases[q]))
  }

  ghost predicate StagedInv(s: State) {
    forall q {:trigger StagedOk(s, q)} :: StagedOk(s, q)
  }

  lemma FillingStages(s: State, p: Operation, fill: FillStep)
    requires s.Lives(p) && CanFill(s, p, fill)
    ensures StagedOk(AfterFill(s, p, fill), p)
  {
  }

  lemma FinishingStages(checks: Checks, s: State, p: Operation, finish: FinishStep)
    requires s.Lives(p) && CanFinish(checks, s, p, finish) && StagedOk(s, p)
    ensures StagedOk(AfterFinish(checks, s, p, finish), p)
  {
  }

  lemma SettlingStages(checks: Checks, s: State, p: Operation, settle: SettleStep)
    requires s.Lives(p) && CanSettle(checks, s, p, settle) && StagedOk(s, p)
    ensures StagedOk(AfterSettle(checks, s, p, settle), p)
  {
  }

  lemma OwnStaged(checks: Checks, s: State, e: Event)
    requires Enabled(checks, s, e) && !e.Tick? && e.p in s.phases && StagedOk(s, e.p)
    ensures StagedOk(After(checks, s, e), e.p)
  {
    match e
    case Fill(p, fill) => FillingStages(s, p, fill);
    case Finish(p, finish) => FinishingStages(checks, s, p, finish);
    case Settle(p, settle) => SettlingStages(checks, s, p, settle);
    case _ =>
  }

  lemma StagedStep(checks: Checks, s: State, e: Event, q: Operation)
    requires Enabled(checks, s, e) && StagedInv(s)
    ensures StagedOk(After(checks, s, e), q)
  {
    assert StagedOk(s, q);
    if e.Tick? || q != e.p {
      OthersStay(checks, s, e, q);
      OthersTakeAway(checks, s, e, q);
    } else if q in s.phases {
      OwnStaged(checks, s, e);
    }
  }

  /**
   * In every run a living build has a staging directory at most between making it and publishing it
   * or giving it up: nothing is left over from a build that ended, unless it died.
   */
  lemma {:induction false} StagingIsTransient(checks: Checks, states: seq<State>, events: seq<Event>, i: nat)
    requires IsRun(checks, states, events) && i < |states|
    ensures StagedInv(states[i])
    ensures forall q :: q in states[i].staging && q !in states[i].dead ==>
      q in states[i].phases && Stages(states[i].phases[q])
  {
    if i > 0 {
      StagingIsTransient(checks, states, events, i - 1);
      forall q ensures StagedOk(states[i], q) { StagedStep(checks, states[i - 1], events[i - 1], q); }
    }
    forall q | q in states[i].staging && q !in states[i].dead
      ensures q in states[i].phases && Stages(states[i].phases[q])
    {
      assert StagedOk(states[i], q);
    }
  }

  // ---- nothing published is lost ------------------------------------------------------------------

  lemma QuarantineStep(checks: Checks, s: State, e: Event)
    requires Enabled(checks, s, e)
    ensures var r := After(checks, s, e);
      || (r.published == s.published && r.quarantined == s.quarantined)
      || (Publishes(e) && r.quarantined == s.quarantined)
      || (s.published.Some? && r.published.None? && r.quarantined == s.quarantined + [s.published.value])
  {
    if e.Settle? && !Publishes(e) && !e.settle.Quarantine? { SettlingKeepsPublished(checks, s, e.p, e.settle); }
  }

  /** The directory is at the published path, or has joined those that were quarantined by then. */
  predicate KeptSince(s: State, d: Dir, past: seq<Dir>) {
    past <= s.quarantined && (s.published == Some(d) || d in s.quarantined[|past|..])
  }

  lemma KeptStep(checks: Checks, s: State, e: Event, d: Dir, past: seq<Dir>)
    requires Enabled(checks, s, e) && KeptSince(s, d, past) && d != EMPTY
    ensures KeptSince(After(checks, s, e), d, past)
  {
    PublishStep(checks, s, e);
    QuarantineStep(checks, s, e);
    var r := After(checks, s, e);
    if r.quarantined != s.quarantined {
      assert r.quarantined[|past|..] == s.quarantined[|past|..] + [s.published.value];
    }
  }

  lemma {:induction false} NextKeeps(checks: Checks, states: seq<State>, events: seq<Event>, k: nat, d: Dir, past: seq<Dir>)
    requires IsRun(checks, states, events) && k < |events| && KeptSince(states[k], d, past) && d != EMPTY
    ensures KeptSince(states[k + 1], d, past)
  {
    KeptStep(checks, states[k], events[k], d, past);
  }

  lemma {:induction false} RunKeeps(checks: Checks, states: seq<State>, events: seq<Event>, i: nat, k: nat,
                                    d: Dir, past: seq<Dir>)
    requires IsRun(checks, states, events) && i <= k < |states| && KeptSince(states[i], d, past) && d != EMPTY
    ensures KeptSince(states[k], d, past)
    decreases k
  {
    if i < k {
      RunKeeps(checks, states, events, i, k - 1, d, past);
      NextKeeps(checks, states, events, k - 1, d, past);
    }
  }

  /**
   * What was ever published is still there, whole: at the published path or in quarantine, where
   * nothing is ever removed or reordered. Only an empty directory may be replaced.
   */
  lemma NothingPublishedIsLost(checks: Checks, states: seq<State>, events: seq<Event>, i: nat, k: nat, d: Dir)
    requires IsRun(checks, states, events) && i <= k < |states|
    requires states[i].published == Some(d) && d != Dir(None, None, None)
    ensures states[i].quarantined <= states[k].quarantined
    ensures states[k].published == Some(d) || d in states[k].quarantined[|states[i].quarantined|..]
  {
    RunKeeps(checks, states, events, i, k, d, states[i].quarantined);
  }

  // ---- only marked staging directories are swept -----------------------------------------------------

  /** At step `j` operation `q` found the target's own marker in the staging directory it then wipes. */
  predicate FoundMarker(states: seq<State>, events: seq<Event>, q: Operation, target: Operation, j: nat)
    requires j < |events| < |states|
  {
    && events[j] == Event.Sweep(q, BeginSweep)
    && q in states[j].phases && states[j].phases[q].Sweeping? && states[j].phases[q].target == target
    && target in states[j].staging && states[j].staging[target].marker == Some(target)
  }

  lemma WipingContinues(checks: Checks, s: State, e: Event, q: Operation)
    requires Enabled(checks, s, e) && q in After(checks, s, e).phases && After(checks, s, e).phases[q].Wiping?
    ensures q in s.phases
    ensures (e == Event.Sweep(q, BeginSweep) && s.phases[q].Sweeping?
             && s.phases[q].target == After(checks, s, e).phases[q].target)
         || (s.phases[q] == After(checks, s, e).phases[q])
  {
    if e.Tick? || q != e.p {
      OthersStay(checks, s, e, q);
    } else if Moves(e) && !e.Sweep? && !e.Reclaim? {
      ClaimsAreReclaimed(checks, s, e);
    }
  }

  lemma {:induction false} WiperFoundMarker(checks: Checks, states: seq<State>, events: seq<Event>, i: nat,
                                            q: Operation)
    returns (j: nat)
    requires IsRun(checks, states, events) && i < |states| && q in states[i].phases && states[i].phases[q].Wiping?
    ensures j < i && FoundMarker(states, events, q, states[i].phases[q].target, j)
    decreases i
  {
    WipingContinues(checks, states[i - 1], events[i - 1], q);
    if states[i - 1].phases[q] == states[i].phases[q] {
      j := WiperFoundMarker(checks, states, events, i - 1, q);
    } else {
      j := i - 1;
    }
  }

  /**
   * Whoever takes a file out of another build's staging directory, or removes it, holds the claimed
   * lock of that build and found that build's own marker in the directory.
   */
  lemma OnlyMarkedStagingIsSwept(checks: Checks, states: seq<State>, events: seq<Event>, i: nat, target: Operation)
    returns (j: nat)
    requires IsRun(checks, states, events) && i < |events| && !events[i].Tick? && events[i].p != target
    requires target in states[i].staging
    requires target !in states[i + 1].staging || states[i + 1].staging[target] != states[i].staging[target]
    ensures j < i && FoundMarker(states, events, events[i].p, target, j)
    ensures exists c :: c in states[i].claims && states[i].claims[c].owner == Some(target)
  {
    var s, p := states[i], events[i].p;
    if !(events[i].Sweep? && p in s.phases && TargetOf(s.phases[p]) == Some(target)) {
      StagingStays(checks, s, events[i], target);
    }
    assert s.phases[p].Wiping?;
    j := WiperFoundMarker(checks, states, events, i, p);
    RunIsHonest(checks, states, events, i);
    assert ClaimOk(s, p);
  }

  // ---- a key that a claim closes -----------------------------------------------------------------------

  /** Not started, waiting, or ended. */
  predicate Outside(s: State, q: Operation) {
    q in s.phases ==> s.phases[q].Seeking? || s.phases[q].Done?
  }

  lemma NobodyApproaches(checks: Checks, s: State, e: Event, q: Operation)
    requires Enabled(checks, s, e) && s.claims != map[] && Outside(s, q)
    ensures Outside(After(checks, s, e), q)
  {
    if e.Tick? || q != e.p { OthersStay(checks, s, e, q); }
  }

  /** Behind an abandoned claim a build that has not gone for the lock yet waits until it gives up. */
  lemma {:induction false} AbandonedClaimKeepsOut(checks: Checks, states: seq<State>, events: seq<Event>,
                                                  i: nat, k: nat, c: nat, q: Operation)
    requires IsRun(checks, states, events) && i <= k < |states| && Abandoned(states[i], c) && Outside(states[i], q)
    ensures Outside(states[k], q)
  {
    if i < k {
      AbandonedClaimKeepsOut(checks, states, events, i, k - 1, c, q);
      AbandonedClaimClosesTheKey(checks, states, events, i, k - 1, c, q);
      NobodyApproaches(checks, states[k - 1], events[k - 1], q);
    }
  }
}
