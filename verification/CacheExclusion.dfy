/** When at most one living build is between acquire and release. */
module CacheExclusion {
  import opened CacheProtocol
  import opened CacheSafety
  import opened Outcomes

  predicate Busy(phase: Phase) {
    Holding(phase) || Tending(phase)
  }

  /** A holder's lock names it; a build between two calls on the lock path finds its lock unnamed. */
  predicate HolderOk(s: State, q: Operation)
    requires q in s.phases
  {
    q !in s.dead ==>
      && (Holding(s.phases[q]) ==> s.lock.Some? && s.lock.value.owner == Some(q))
      && (Tending(s.phases[q]) ==> s.Unnamed())
  }

  predicate AloneOk(s: State, q: Operation, r: Operation)
    requires q in s.phases && r in s.phases
  {
    s.Lives(q) && s.Lives(r) && Tending(s.phases[q]) && Tending(s.phases[r]) ==> q == r
  }

  /** Every holder is the one the lock names, and at most one living build tends an unnamed lock. */
  ghost predicate HolderInv(s: State) {
    && (forall q {:trigger HolderOk(s, q)} :: q in s.phases ==> HolderOk(s, q))
    && (forall q, r {:trigger AloneOk(s, q, r)} :: q in s.phases && r in s.phases ==> AloneOk(s, q, r))
  }

  // ---- who moves the lock -------------------------------------------------------------------------

  predicate MovesLock(e: Event) {
    e.Take? || (e.Reclaim? && (e.reclaim.Claim? || e.reclaim.Restore?))
  }

  lemma LockStays(checks: Checks, s: State, e: Event)
    requires Enabled(checks, s, e) && !MovesLock(e)
    ensures After(checks, s, e).lock == s.lock
  {
  }

  /** Nobody else is busy with the lock path when a build makes, names, strips or removes a lock. */
  lemma TakerIsAlone(s: State, p: Operation, take: TakeStep, q: Operation)
    requires s.Lives(p) && CanTake(s, p, take) && q in s.phases && q != p
    requires HolderOk(s, p) && HolderOk(s, q) && AloneOk(s, p, q)
    ensures q in s.dead || !Busy(s.phases[q])
  {
  }

  /** Nor when a reclaimer moves a lock aside without robbing anybody, or puts one back. */
  lemma ReclaimerIsAlone(s: State, p: Operation, reclaim: ReclaimStep, q: Operation)
    requires s.Lives(p) && CanReclaim(s, p, reclaim) && (reclaim.Claim? || reclaim.Restore?) && q in s.phases
    requires !Robs(s, Event.Reclaim(p, reclaim)) && HolderOk(s, q)
    ensures q in s.dead || !Busy(s.phases[q])
  {
  }

  /** Whoever moves the lock without robbing shows that no other living build is busy with it. */
  lemma HeldLockIsLeft(checks: Checks, s: State, e: Event, q: Operation)
    requires Enabled(checks, s, e) && HolderInv(s) && !Robs(s, e) && MovesLock(e)
    requires q in s.phases && q != e.p
    ensures q in s.dead || !Busy(s.phases[q])
  {
    assert HolderOk(s, q) && HolderOk(s, e.p) && AloneOk(s, e.p, q);
    if e.Take? { TakerIsAlone(s, e.p, e.take, q); } else { ReclaimerIsAlone(s, e.p, e.reclaim, q); }
  }

  // ---- holders ------------------------------------------------------------------------------------

  lemma TakingHolds(s: State, p: Operation, take: TakeStep)
    requires s.Lives(p) && CanTake(s, p, take) && HolderOk(s, p)
    ensures HolderOk(AfterTake(s, p, take), p)
  {
  }

  lemma LookStartsNothing(s: State, p: Operation, look: LookStep)
    requires p in s.phases && CanLook(s, p, look)
    ensures Holding(AfterLook(s, p, look).phases[p]) ==> Holding(s.phases[p])
    ensures !Tending(AfterLook(s, p, look).phases[p])
  {
  }

  lemma ReclaimsStartNothing(s: State, p: Operation, reclaim: ReclaimStep)
    requires p in s.phases && CanReclaim(s, p, reclaim)
    ensures !Busy(AfterReclaim(s, p, reclaim).phases[p])
  {
  }

  lemma SettlingStartsNothing(checks: Checks, s: State, p: Operation, settle: SettleStep)
    requires p in s.phases && CanSettle(checks, s, p, settle)
    ensures Holding(AfterSettle(checks, s, p, settle).phases[p]) ==> Holding(s.phases[p])
    ensures !Tending(AfterSettle(checks, s, p, settle).phases[p])
  {
  }

  /** Only making a lock starts anything. */
  lemma BusyContinues(checks: Checks, s: State, e: Event)
    requires Enabled(checks, s, e) && !e.Tick? && e.p in s.phases && !e.Take?
    ensures e.p in After(checks, s, e).phases
    ensures Holding(After(checks, s, e).phases[e.p]) ==> Holding(s.phases[e.p])
    ensures Tending(After(checks, s, e).phases[e.p]) ==> Tending(s.phases[e.p])
    ensures Claims(e) || (e.Reclaim? && e.reclaim.Restore?) ==> !Busy(After(checks, s, e).phases[e.p])
  {
    match e
    case Look(p, look) => LookStartsNothing(s, p, look);
    case Reclaim(p, reclaim) => ReclaimsStartNothing(s, p, reclaim);
    case Settle(p, settle) => SettlingStartsNothing(checks, s, p, settle);
    case _ =>
  }

  lemma OwnHolder(checks: Checks, s: State, e: Event)
    requires Enabled(checks, s, e) && !e.Tick? && e.p in s.phases && HolderOk(s, e.p)
    ensures e.p in After(checks, s, e).phases && HolderOk(After(checks, s, e), e.p)
  {
    if e.Take? {
      TakingHolds(s, e.p, e.take);
    } else {
      BusyContinues(checks, s, e);
      if !MovesLock(e) {
        LockStays(checks, s, e);
        LivesBefore(checks, s, e);
      }
    }
  }

  lemma LivesBefore(checks: Checks, s: State, e: Event)
    requires Enabled(checks, s, e) && !e.Tick? && e.p in s.phases
    ensures e.p !in s.dead
  {
  }

  lemma OtherHolder(checks: Checks, s: State, e: Event, q: Operation)
    requires Enabled(checks, s, e) && HolderInv(s) && !Robs(s, e)
    requires q in s.phases && (e.Tick? || q != e.p)
    ensures q in After(checks, s, e).phases && HolderOk(After(checks, s, e), q)
  {
    OthersStay(checks, s, e, q);
    assert HolderOk(s, q);
    if MovesLock(e) {
      HeldLockIsLeft(checks, s, e, q);
    } else {
      LockStays(checks, s, e);
    }
  }

  lemma AloneStep(checks: Checks, s: State, e: Event, q: Operation, r: Operation)
    requires Enabled(checks, s, e) && HolderInv(s) && !Robs(s, e)
    requires q in After(checks, s, e).phases && r in After(checks, s, e).phases && q != r
    ensures AloneOk(After(checks, s, e), q, r)
  {
    if e.Tick? || (q != e.p && r != e.p) {
      OthersStay(checks, s, e, q);
      OthersStay(checks, s, e, r);
      assert AloneOk(s, q, r);
    } else {
      var other := if q == e.p then r else q;
      OthersStay(checks, s, e, other);
      if e.Take? {
        HeldLockIsLeft(checks, s, e, other);
      } else if e.p in s.phases {
        BusyContinues(checks, s, e);
        LivesBefore(checks, s, e);
        assert AloneOk(s, q, r);
      }
    }
  }

  lemma HolderStep(checks: Checks, s: State, e: Event)
    requires Enabled(checks, s, e) && HolderInv(s) && !Robs(s, e)
    ensures HolderInv(After(checks, s, e))
  {
    var s' := After(checks, s, e);
    forall q | q in s'.phases ensures HolderOk(s', q) {
      if e.Tick? || q != e.p {
        OthersStay(checks, s, e, q);
        OtherHolder(checks, s, e, q);
      } else if q in s.phases {
        assert HolderOk(s, q);
        OwnHolder(checks, s, e);
      }
    }
    forall q, r | q in s'.phases && r in s'.phases ensures AloneOk(s', q, r) {
      if q != r { AloneStep(checks, s, e, q, r); }
    }
  }

  // ---- exactly when the lock is respected ---------------------------------------------------------------

  lemma ClaimTakesAway(s: State, p: Operation, reclaim: ReclaimStep)
    requires p in s.phases && CanReclaim(s, p, reclaim) && reclaim.Claim?
    ensures AfterReclaim(s, p, reclaim).lock.None? && !Busy(s.phases[p])
  {
  }

  lemma RobbedHolder(checks: Checks, s: State, e: Event, q: Operation)
    requires Enabled(checks, s, e) && Claims(e) && s.Lives(q) && Busy(s.phases[q])
    ensures !HolderInv(After(checks, s, e))
  {
    ClaimTakesAway(s, e.p, e.reclaim);
    OthersStay(checks, s, e, q);
    assert !HolderOk(After(checks, s, e), q);
  }

  /** A robbery leaves somebody without the lock. */
  lemma RobberyBreaks(checks: Checks, s: State, e: Event)
    requires Enabled(checks, s, e) && Robs(s, e)
    ensures !HolderInv(After(checks, s, e))
  {
    match s.lock.value.owner
    case Some(q) => RobbedHolder(checks, s, e, q);
    case None =>
      var q :| s.Lives(q) && Tending(s.phases[q]);
      RobbedHolder(checks, s, e, q);
  }

  lemma {:induction false} RunHolds(checks: Checks, states: seq<State>, events: seq<Event>, i: nat)
    requires IsRun(checks, states, events) && i < |states|
    requires forall k :: 0 <= k < i ==> !Robs(states[k], events[k])
    ensures HolderInv(states[i])
  {
    if i > 0 {
      RunHolds(checks, states, events, i - 1);
      HolderStep(checks, states[i - 1], events[i - 1]);
    }
  }

  /**
   * Up to any point of any run, every living build between naming its lock and removing the name is
   * the one the lock names, and at most one living build is between two calls on an unnamed lock,
   * exactly when no reclaimer robbed anybody before.
   */
  lemma LocksAreRespectedExactly(checks: Checks, states: seq<State>, events: seq<Event>, i: nat)
    requires IsRun(checks, states, events) && i < |states|
    ensures (forall k :: 0 <= k <= i ==> HolderInv(states[k])) <==> (forall k :: 0 <= k < i ==> !Robs(states[k], events[k]))
  {
    if forall k :: 0 <= k <= i ==> HolderInv(states[k]) {
      forall k | 0 <= k < i ensures !Robs(states[k], events[k]) {
        if Robs(states[k], events[k]) { RobberyBreaks(checks, states[k], events[k]); }
        assert HolderInv(states[k + 1]);
      }
    }
    if forall k :: 0 <= k < i ==> !Robs(states[k], events[k]) {
      forall k | 0 <= k <= i ensures HolderInv(states[k]) { RunHolds(checks, states, events, k); }
    }
  }

  /** Until a reclaimer robs somebody, at most one living build is between acquire and release. */
  lemma MutualExclusion(checks: Checks, states: seq<State>, events: seq<Event>, i: nat, p: Operation, q: Operation)
    requires IsRun(checks, states, events) && i < |states|
    requires forall k :: 0 <= k < i ==> !Robs(states[k], events[k])
    requires states[i].Lives(p) && Critical(states[i].phases[p])
    requires states[i].Lives(q) && Critical(states[i].phases[q])
    ensures p == q
  {
    RunHolds(checks, states, events, i);
    assert HolderOk(states[i], p) && HolderOk(states[i], q);
  }

  /**
   * Only a stale claim robs: one that picks up a lock of somebody else than it saw, or an unnamed
   * lock that a living build is just making or removing.
   */
  lemma OnlyStaleClaimsRob(checks: Checks, states: seq<State>, events: seq<Event>, i: nat)
    requires IsRun(checks, states, events) && i < |events|
    ensures Robs(states[i], events[i]) ==> Mismatched(states[i], events[i]) || Interrupts(states[i], events[i])
  {
    RunIsHonest(checks, states, events, i);
    if Claims(events[i]) { assert SeenOk(states[i], events[i].p); }
  }

  /** A run without stale claims keeps its builds apart. */
  lemma MutualExclusionWithoutStaleClaims(checks: Checks, states: seq<State>, events: seq<Event>, i: nat,
                                          p: Operation, q: Operation)
    requires IsRun(checks, states, events) && i < |states|
    requires forall k :: 0 <= k < |events| ==> !Mismatched(states[k], events[k]) && !Interrupts(states[k], events[k])
    requires states[i].Lives(p) && Critical(states[i].phases[p])
    requires states[i].Lives(q) && Critical(states[i].phases[q])
    ensures p == q
  {
    forall k | 0 <= k < i ensures !Robs(states[k], events[k]) { OnlyStaleClaimsRob(checks, states, events, k); }
    MutualExclusion(checks, states, events, i, p, q);
  }
}
