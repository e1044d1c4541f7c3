/**
 * What builds achieve when nobody disturbs them, call by call: acquiring, filling and publishing,
 * hitting, replacing a damaged entry, failing, yielding, and reclaiming the lock of a dead build.
 */
module CacheScripts {
  import opened CacheProtocol
  import opened Outcomes

  /** The state after these events, if each of them may happen when its turn comes. */
  function Play(checks: Checks, s: State, events: seq<Event>): Option<State> {
    if events == [] then Some(s)
    else
      match Play(checks, s, events[..|events| - 1])
      case None => None
      case Some(m) =>
        if Enabled(checks, m, events[|events| - 1]) then Some(After(checks, m, events[|events| - 1])) else None
  }

  /** The script runs through and ends in `r`. */
  predicate Plays(checks: Checks, s: State, events: seq<Event>, r: State) {
    Play(checks, s, events) == Some(r)
  }

  /** Event `e` of operation `p` leads from `m` to `r`. */
  predicate Leads(checks: Checks, m: State, e: Event, r: State) {
    Enabled(checks, m, e) && After(checks, m, e) == r
  }

  lemma One(checks: Checks, s: State, e: Event, r: State)
    requires Leads(checks, s, e, r)
    ensures Plays(checks, s, [e], r)
  {
    assert [e][..0] == [];
  }

  lemma {:induction false} Joined(checks: Checks, s: State, first: seq<Event>, m: State, more: seq<Event>)
    requires Plays(checks, s, first, m)
    ensures Play(checks, s, first + more) == Play(checks, m, more)
  {
    if more == [] {
      assert first + more == first;
    } else {
      Joined(checks, s, first, m, more[..|more| - 1]);
      assert (first + more)[..|first + more| - 1] == first + more[..|more| - 1];
    }
  }

  lemma Then(checks: Checks, s: State, first: seq<Event>, m: State, more: seq<Event>, r: State)
    requires Plays(checks, s, first, m) && Plays(checks, m, more, r)
    ensures Plays(checks, s, first + more, r)
  {
    Joined(checks, s, first, m, more);
  }

  /** What operation `p` has come to, the rest being as in `s`. */
  function At(s: State, p: Operation, phase: Phase): State {
    s.(phases := s.phases[p := phase])
  }

  lemma AtTwice(s: State, p: Operation, first: Phase, second: Phase)
    ensures At(At(s, p, first), p, second) == At(s, p, second)
  {
    assert s.phases[p := first][p := second] == s.phases[p := second];
  }

  // ---- taking the lock --------------------------------------------------------------------------

  function Locking(s: State, owner: Option<Operation>): State {
    s.(lock := Some(Lock(owner, s.now, s.now)))
  }

  lemma Approaches(checks: Checks, s: State, p: Operation)
    requires p !in s.phases && p !in s.dead && s.claims == map[]
    ensures Plays(checks, s, [Start(p), Look(p, SeeNoClaims)], At(s, p, Creating))
  {
    One(checks, s, Start(p), At(s, p, Seeking));
    AtTwice(s, p, Seeking, Creating);
    One(checks, At(s, p, Seeking), Look(p, SeeNoClaims), At(s, p, Creating));
    Then(checks, s, [Start(p)], At(s, p, Seeking), [Look(p, SeeNoClaims)], At(s, p, Creating));
  }

  lemma MakesLock(checks: Checks, s: State, p: Operation)
    requires p !in s.dead && s.lock.None?
    ensures Plays(checks, At(s, p, Creating), [Take(p, Make), Take(p, Name)], Locking(At(s, p, Created), Some(p)))
  {
    var unnamed := Locking(At(s, p, Making), None);
    AtTwice(s, p, Creating, Making);
    One(checks, At(s, p, Creating), Take(p, Make), unnamed);
    AtTwice(s, p, Making, Created);
    One(checks, unnamed, Take(p, Name), Locking(At(s, p, Created), Some(p)));
    Then(checks, At(s, p, Creating), [Take(p, Make)], unnamed, [Take(p, Name)], Locking(At(s, p, Created), Some(p)));
  }

  lemma LooksAgain(checks: Checks, s: State, p: Operation)
    requires p !in s.dead && s.claims == map[]
    ensures Plays(checks, Locking(At(s, p, Created), Some(p)), [Look(p, LookAgain)], Locking(At(s, p, Locked), Some(p)))
  {
    AtTwice(s, p, Created, Locked);
    One(checks, Locking(At(s, p, Created), Some(p)), Look(p, LookAgain), Locking(At(s, p, Locked), Some(p)));
  }

  /** A build that finds no claim directory and a free lock path holds the cache four calls later. */
  lemma AcquiringHolds(checks: Checks, s: State, p: Operation)
    requires p !in s.phases && p !in s.dead && s.lock.None? && s.claims == map[]
    ensures Plays(checks, s,
                  [Start(p), Look(p, SeeNoClaims), Take(p, Make), Take(p, Name), Look(p, LookAgain)],
                  s.(lock := Some(Lock(Some(p), s.now, s.now)), phases := s.phases[p := Locked]))
  {
    Approaches(checks, s, p);
    MakesLock(checks, s, p);
    LooksAgain(checks, s, p);
    Then(checks, s, [Start(p), Look(p, SeeNoClaims)], At(s, p, Creating), [Take(p, Make), Take(p, Name)],
         Locking(At(s, p, Created), Some(p)));
    Then(checks, s, [Start(p), Look(p, SeeNoClaims)] + [Take(p, Make), Take(p, Name)],
         Locking(At(s, p, Created), Some(p)), [Look(p, LookAgain)], Locking(At(s, p, Locked), Some(p)));
    assert [Start(p), Look(p, SeeNoClaims)] + [Take(p, Make), Take(p, Name)] + [Look(p, LookAgain)]
        == [Start(p), Look(p, SeeNoClaims), Take(p, Make), Take(p, Name), Look(p, LookAgain)];
  }

  /** A build that sees a claim directory after naming its lock removes the lock and waits again. */
  lemma YieldingFrees(checks: Checks, s: State, p: Operation)
    requires p !in s.dead && s.claims != map[]
    ensures Plays(checks, Locking(At(s, p, Created), Some(p)), [Look(p, LookAgain), Take(p, Strip), Take(p, Remove)],
                  s.(lock := None, phases := s.phases[p := Seeking]))
  {
    var named, yielding := Locking(At(s, p, Created), Some(p)), Locking(At(s, p, Yielding), Some(p));
    AtTwice(s, p, Created, Yielding);
    One(checks, named, Look(p, LookAgain), yielding);
    RemovalFrees(checks, yielding, p, true);
    Then(checks, named, [Look(p, LookAgain)], yielding, [Take(p, Strip), Take(p, Remove)], Gone(yielding, p, Seeking));
    AtTwice(s, p, Yielding, Seeking);
    assert [Look(p, LookAgain)] + [Take(p, Strip), Take(p, Remove)]
        == [Look(p, LookAgain), Take(p, Strip), Take(p, Remove)];
  }

  /** A build that cannot write its record removes the directory it made and ends. */
  lemma FailingToNameFrees(checks: Checks, s: State, p: Operation)
    requires p !in s.dead
    ensures Plays(checks, Locking(At(s, p, Making), None), [Take(p, NameFails), Take(p, Strip), Take(p, Remove)],
                  s.(lock := None, phases := s.phases[p := Done]))
  {
    var unnamed, scrapping := Locking(At(s, p, Making), None), Locking(At(s, p, Scrapping), None);
    AtTwice(s, p, Making, Scrapping);
    One(checks, unnamed, Take(p, NameFails), scrapping);
    RemovalFrees(checks, scrapping, p, false);
    Then(checks, unnamed, [Take(p, NameFails)], scrapping, [Take(p, Strip), Take(p, Remove)], Gone(scrapping, p, Done));
    AtTwice(s, p, Scrapping, Done);
    assert [Take(p, NameFails)] + [Take(p, Strip), Take(p, Remove)]
        == [Take(p, NameFails), Take(p, Strip), Take(p, Remove)];
  }

  function Gone(s: State, p: Operation, phase: Phase): State {
    s.(lock := None, phases := s.phases[p := phase])
  }

  /** Removing the lock directory takes two calls; afterwards the path is free. */
  lemma RemovalFrees(checks: Checks, s: State, p: Operation, again: bool)
    requires s.Lives(p) && s.lock.Some?
    requires if again then s.phases[p] == Yielding else s.phases[p] == Scrapping || s.phases[p] == Unlocking
    ensures Plays(checks, s, [Take(p, Strip), Take(p, Remove)], Gone(s, p, if again then Seeking else Done))
  {
    var bare := Lock(None, if s.lock.value.owner.None? then s.lock.value.touched else s.now, s.lock.value.created);
    var stripped := At(s, p, Leaving(again)).(lock := Some(bare));
    One(checks, s, Take(p, Strip), stripped);
    AtTwice(s, p, Leaving(again), if again then Seeking else Done);
    One(checks, stripped, Take(p, Remove), Gone(s, p, if again then Seeking else Done));
    Then(checks, s, [Take(p, Strip)], stripped, [Take(p, Remove)], Gone(s, p, if again then Seeking else Done));
  }

  /** A build at its release whose lock still names it frees the lock path and ends. */
  lemma ReleasingFrees(checks: Checks, s: State, p: Operation)
    requires s.Lives(p) && s.phases[p] == Releasing && s.lock.Some? && s.lock.value.owner == Some(p)
    ensures Plays(checks, s, [Settle(p, Release), Take(p, Strip), Take(p, Remove)],
                  s.(lock := None, phases := s.phases[p := Done]))
  {
    One(checks, s, Settle(p, Release), At(s, p, Unlocking));
    RemovalFrees(checks, At(s, p, Unlocking), p, false);
    Then(checks, s, [Settle(p, Release)], At(s, p, Unlocking), [Take(p, Strip), Take(p, Remove)],
         Gone(At(s, p, Unlocking), p, Done));
    AtTwice(s, p, Unlocking, Done);
    assert [Settle(p, Release)] + [Take(p, Strip), Take(p, Remove)]
        == [Settle(p, Release), Take(p, Strip), Take(p, Remove)];
  }

  // ---- filling a staging directory ----------------------------------------------------------------

  function Staged(s: State, p: Operation, dir: Dir, phase: Phase): State {
    s.(staging := s.staging[p := dir], phases := s.phases[p := phase])
  }

  lemma StagedTwice(s: State, p: Operation, first: Dir, phase: Phase, second: Dir, next: Phase)
    ensures Staged(Staged(s, p, first, phase), p, second, next) == Staged(s, p, second, next)
  {
    assert s.phases[p := phase][p := next] == s.phases[p := next];
    assert s.staging[p := first][p := second] == s.staging[p := second];
  }

  /** The next call of a build on its own staging directory. */
  lemma Restages(checks: Checks, s: State, p: Operation, e: Event, first: Dir, phase: Phase, second: Dir, next: Phase)
    requires Enabled(checks, Staged(s, p, first, phase), e)
    requires After(checks, Staged(s, p, first, phase), e) == Staged(Staged(s, p, first, phase), p, second, next)
    ensures Plays(checks, Staged(s, p, first, phase), [e], Staged(s, p, second, next))
  {
    StagedTwice(s, p, first, phase, second, next);
    One(checks, Staged(s, p, first, phase), e, Staged(s, p, second, next));
  }

  lemma MarksStaging(checks: Checks, s: State, p: Operation)
    requires p !in s.dead && p !in s.staging
    ensures Plays(checks, At(s, p, Preparing), [Fill(p, MakeStaging), Fill(p, WriteMarker)],
                  Staged(s, p, Dir(Some(p), None, None), Marked))
  {
    AtTwice(s, p, Preparing, Made);
    One(checks, At(s, p, Preparing), Fill(p, MakeStaging), Staged(s, p, EMPTY, Made));
    Restages(checks, s, p, Fill(p, WriteMarker), EMPTY, Made, Dir(Some(p), None, None), Marked);
    Then(checks, At(s, p, Preparing), [Fill(p, MakeStaging)], Staged(s, p, EMPTY, Made), [Fill(p, WriteMarker)],
         Staged(s, p, Dir(Some(p), None, None), Marked));
  }

  /** A copy of the base lies in a directory that carries its build's marker. */
  lemma FillingCopies(checks: Checks, s: State, p: Operation)
    requires p !in s.dead && p !in s.staging
    ensures Plays(checks, At(s, p, Preparing), [Fill(p, MakeStaging), Fill(p, WriteMarker), Fill(p, CopyBase)],
                  Staged(s, p, Dir(Some(p), Some(s.base), None), Copied))
  {
    var marked, copied := Dir(Some(p), None, None), Dir(Some(p), Some(s.base), None);
    MarksStaging(checks, s, p);
    Restages(checks, s, p, Fill(p, CopyBase), marked, Marked, copied, Copied);
    Then(checks, At(s, p, Preparing), [Fill(p, MakeStaging), Fill(p, WriteMarker)], Staged(s, p, marked, Marked),
         [Fill(p, CopyBase)], Staged(s, p, copied, Copied));
    assert [Fill(p, MakeStaging), Fill(p, WriteMarker)] + [Fill(p, CopyBase)]
        == [Fill(p, MakeStaging), Fill(p, WriteMarker), Fill(p, CopyBase)];
  }

  /** The copy is changed and described. */
  lemma MutatingDescribes(checks: Checks, s: State, p: Operation, copy: Bytes, bytes: Bytes, descriptor: Bytes)
    requires p !in s.dead
    ensures Plays(checks, Staged(s, p, Dir(Some(p), Some(copy), None), Copied),
                  [Fill(p, Mutate(bytes)), Fill(p, Describe(descriptor))],
                  Staged(s, p, Dir(Some(p), Some(bytes), Some(descriptor)), Described))
  {
    var copied, mutated := Dir(Some(p), Some(copy), None), Dir(Some(p), Some(bytes), None);
    var described := Dir(Some(p), Some(bytes), Some(descriptor));
    Restages(checks, s, p, Fill(p, Mutate(bytes)), copied, Copied, mutated, Mutated);
    Restages(checks, s, p, Fill(p, Describe(descriptor)), mutated, Mutated, described, Described);
    Then(checks, Staged(s, p, copied, Copied), [Fill(p, Mutate(bytes))], Staged(s, p, mutated, Mutated),
         [Fill(p, Describe(descriptor))], Staged(s, p, described, Described));
  }

  /** What passes the checks loses its marker and keeps everything else. */
  lemma CheckingUnmarks(checks: Checks, s: State, p: Operation, bytes: Bytes, descriptor: Bytes)
    requires p !in s.dead && checks.passes(p, bytes, descriptor)
    ensures Plays(checks, Staged(s, p, Dir(Some(p), Some(bytes), Some(descriptor)), Described),
                  [Finish(p, Check), Finish(p, Unmark)],
                  Staged(s, p, Dir(None, Some(bytes), Some(descriptor)), Ready(bytes, descriptor)))
  {
    var marked, clean := Dir(Some(p), Some(bytes), Some(descriptor)), Dir(None, Some(bytes), Some(descriptor));
    var checked, ready := Phase.Checked(bytes, descriptor), Phase.Ready(bytes, descriptor);
    assert Staged(s, p, marked, checked) == Staged(s, p, marked, Described).Go(p, checked) by {
      AtTwice(s, p, Described, checked);
    }
    One(checks, Staged(s, p, marked, Described), Finish(p, Check), Staged(s, p, marked, checked));
    Restages(checks, s, p, Finish(p, Unmark), marked, checked, clean, ready);
    Then(checks, Staged(s, p, marked, Described), [Finish(p, Check)], Staged(s, p, marked, checked),
         [Finish(p, Unmark)], Staged(s, p, clean, ready));
  }

  function Shown(s: State, p: Operation, dir: Dir, phase: Phase): State {
    s.(published := Some(dir), phases := s.phases[p := phase])
  }

  lemma PublishingRenames(checks: Checks, s: State, p: Operation, dir: Dir, bytes: Bytes, descriptor: Bytes)
    requires p !in s.dead && p !in s.staging && (s.published.None? || s.published == Some(EMPTY))
    ensures Plays(checks, Staged(s, p, dir, Ready(bytes, descriptor)), [Settle(p, Publish)],
                  Shown(s, p, dir, Releasing))
  {
    var ready := Phase.Ready(bytes, descriptor);
    assert s.phases[p := ready][p := Releasing] == s.phases[p := Releasing];
    assert s.staging[p := dir] - {p} == s.staging;
    One(checks, Staged(s, p, dir, ready), Settle(p, Publish), Shown(s, p, dir, Releasing));
  }

  /** A build that prepares in peace publishes what it checked and keeps nothing in staging. */
  lemma PreparingPublishes(checks: Checks, s: State, p: Operation, bytes: Bytes, descriptor: Bytes)
    requires p !in s.dead && p !in s.staging && (s.published.None? || s.published == Some(EMPTY))
    requires checks.passes(p, bytes, descriptor)
    ensures Plays(checks, At(s, p, Preparing),
                  [Fill(p, MakeStaging), Fill(p, WriteMarker), Fill(p, CopyBase)]
                  + [Fill(p, Mutate(bytes)), Fill(p, Describe(descriptor))]
                  + [Finish(p, Check), Finish(p, Unmark)] + [Settle(p, Publish)],
                  s.(published := Some(Dir(None, Some(bytes), Some(descriptor))), phases := s.phases[p := Releasing]))
  {
    var copied, described := Dir(Some(p), Some(s.base), None), Dir(Some(p), Some(bytes), Some(descriptor));
    var clean, ready := Dir(None, Some(bytes), Some(descriptor)), Phase.Ready(bytes, descriptor);
    var filling := [Fill(p, MakeStaging), Fill(p, WriteMarker), Fill(p, CopyBase)];
    var mutating := [Fill(p, Mutate(bytes)), Fill(p, Describe(descriptor))];
    var checking := [Finish(p, Check), Finish(p, Unmark)];
    FillingCopies(checks, s, p);
    MutatingDescribes(checks, s, p, s.base, bytes, descriptor);
    CheckingUnmarks(checks, s, p, bytes, descriptor);
    PublishingRenames(checks, s, p, clean, bytes, descriptor);
    var start := At(s, p, Preparing);
    Then(checks, start, filling, Staged(s, p, copied, Copied), mutating, Staged(s, p, described, Described));
    Then(checks, start, filling + mutating, Staged(s, p, described, Described), checking, Staged(s, p, clean, ready));
    Then(checks, start, filling + mutating + checking, Staged(s, p, clean, ready), [Settle(p, Publish)],
         Shown(s, p, clean, Releasing));
  }

  // ---- whole builds ----------------------------------------------------------------------------------

  /** A build that nobody disturbs publishes what it checked, frees the lock and leaves nothing else. */
  lemma BuildCompletes(checks: Checks, s: State, p: Operation, bytes: Bytes, descriptor: Bytes)
    requires p !in s.phases && p !in s.dead && p !in s.staging && s.lock.None? && s.claims == map[]
    requires s.published.None? && checks.passes(p, bytes, descriptor)
    ensures Plays(checks, s,
                  [Start(p), Look(p, SeeNoClaims), Take(p, Make), Take(p, Name), Look(p, LookAgain)]
                  + [Settle(p, LookForHit)]
                  + ([Fill(p, MakeStaging), Fill(p, WriteMarker), Fill(p, CopyBase)]
                     + [Fill(p, Mutate(bytes)), Fill(p, Describe(descriptor))]
                     + [Finish(p, Check), Finish(p, Unmark)] + [Settle(p, Publish)])
                  + [Settle(p, Release), Take(p, Strip), Take(p, Remove)],
                  s.(published := Some(Dir(None, Some(bytes), Some(descriptor))), phases := s.phases[p := Done]))
  {
    var held := Locking(s, Some(p));
    var acquiring := [Start(p), Look(p, SeeNoClaims), Take(p, Make), Take(p, Name), Look(p, LookAgain)];
    var preparing := [Fill(p, MakeStaging), Fill(p, WriteMarker), Fill(p, CopyBase)]
                     + [Fill(p, Mutate(bytes)), Fill(p, Describe(descriptor))]
                     + [Finish(p, Check), Finish(p, Unmark)] + [Settle(p, Publish)];
    var releasing := [Settle(p, Release), Take(p, Strip), Take(p, Remove)];
    var dir := Dir(None, Some(bytes), Some(descriptor));
    AcquiringHolds(checks, s, p);
    AtTwice(held, p, Locked, Preparing);
    One(checks, At(held, p, Locked), Settle(p, LookForHit), At(held, p, Preparing));
    PreparingPublishes(checks, held, p, bytes, descriptor);
    ReleasingFrees(checks, Shown(held, p, dir, Releasing), p);
    AtTwice(s, p, Releasing, Done);
    Then(checks, s, acquiring, At(held, p, Locked), [Settle(p, LookForHit)], At(held, p, Preparing));
    Then(checks, s, acquiring + [Settle(p, LookForHit)], At(held, p, Preparing), preparing,
         Shown(held, p, dir, Releasing));
    Then(checks, s, acquiring + [Settle(p, LookForHit)] + preparing, Shown(held, p, dir, Releasing), releasing,
         s.(published := Some(dir), phases := s.phases[p := Done]));
  }

  lemma VerifiedIsHit(checks: Checks, s: State, p: Operation)
    requires p !in s.dead && s.published.Some? && checks.verifies(p, s.published.value)
    ensures Plays(checks, At(s, p, Locked), [Settle(p, LookForHit), Settle(p, SettleStep.Hit)], At(s, p, Releasing))
  {
    AtTwice(s, p, Locked, Verifying);
    One(checks, At(s, p, Locked), Settle(p, LookForHit), At(s, p, Verifying));
    AtTwice(s, p, Verifying, Releasing);
    One(checks, At(s, p, Verifying), Settle(p, SettleStep.Hit), At(s, p, Releasing));
    Then(checks, At(s, p, Locked), [Settle(p, LookForHit)], At(s, p, Verifying), [Settle(p, SettleStep.Hit)],
         At(s, p, Releasing));
  }

  /** A build that finds a published entry its verification accepts changes nothing at all. */
  lemma HitChangesNothing(checks: Checks, s: State, p: Operation)
    requires p !in s.phases && p !in s.dead && s.lock.None? && s.claims == map[]
    requires s.published.Some? && checks.verifies(p, s.published.value)
    ensures Plays(checks, s,
                  [Start(p), Look(p, SeeNoClaims), Take(p, Make), Take(p, Name), Look(p, LookAgain)]
                  + [Settle(p, LookForHit), Settle(p, SettleStep.Hit)]
                  + [Settle(p, Release), Take(p, Strip), Take(p, Remove)],
                  s.(phases := s.phases[p := Done]))
  {
    var held := Locking(s, Some(p));
    var acquiring := [Start(p), Look(p, SeeNoClaims), Take(p, Make), Take(p, Name), Look(p, LookAgain)];
    AcquiringHolds(checks, s, p);
    VerifiedIsHit(checks, held, p);
    ReleasingFrees(checks, At(held, p, Releasing), p);
    AtTwice(s, p, Releasing, Done);
    Then(checks, s, acquiring, At(held, p, Locked), [Settle(p, LookForHit), Settle(p, SettleStep.Hit)],
         At(held, p, Releasing));
    Then(checks, s, acquiring + [Settle(p, LookForHit), Settle(p, SettleStep.Hit)], At(held, p, Releasing),
         [Settle(p, Release), Take(p, Strip), Take(p, Remove)], s.(phases := s.phases[p := Done]));
  }

  /** A holder that rejects the published entry moves it into quarantine, last, and prepares its own. */
  lemma RejectedIsQuarantined(checks: Checks, s: State, p: Operation)
    requires s.Lives(p) && s.phases[p] == Locked && s.published.Some?
    ensures Plays(checks, s, [Settle(p, LookForHit), Settle(p, Reject), Settle(p, Quarantine)],
                  s.(published := None, quarantined := s.quarantined + [s.published.value],
                     phases := s.phases[p := Preparing]))
  {
    var aside := At(s, p, Preparing).(published := None, quarantined := s.quarantined + [s.published.value]);
    One(checks, s, Settle(p, LookForHit), At(s, p, Verifying));
    AtTwice(s, p, Verifying, Quarantining);
    One(checks, At(s, p, Verifying), Settle(p, Reject), At(s, p, Quarantining));
    AtTwice(s, p, Quarantining, Preparing);
    One(checks, At(s, p, Quarantining), Settle(p, Quarantine), aside);
    Then(checks, s, [Settle(p, LookForHit)], At(s, p, Verifying), [Settle(p, Reject)], At(s, p, Quarantining));
    Then(checks, s, [Settle(p, LookForHit)] + [Settle(p, Reject)], At(s, p, Quarantining), [Settle(p, Quarantine)],
         aside);
    assert [Settle(p, LookForHit)] + [Settle(p, Reject)] + [Settle(p, Quarantine)]
        == [Settle(p, LookForHit), Settle(p, Reject), Settle(p, Quarantine)];
  }

  /** A holder whose rejected entry is gone before it is moved away goes to its release. */
  lemma VanishedEntryEndsTheBuild(checks: Checks, s: State, p: Operation)
    requires s.Lives(p) && s.phases[p] == Quarantining && s.published.None?
    ensures Plays(checks, s, [Settle(p, Quarantine)], s.(phases := s.phases[p := Releasing]))
  {
    One(checks, s, Settle(p, Quarantine), At(s, p, Releasing));
  }

  /** A build that fails after filling its directory removes it, file by file, and goes to its release. */
  lemma FailingRemoves(checks: Checks, s: State, p: Operation, dir: Dir, phase: Phase)
    requires p !in s.dead && p !in s.staging
    requires phase.Made? || phase.Marked? || phase.Copied? || phase.Mutated? || phase.Described?
             || phase.Checked? || phase.Ready?
    ensures Plays(checks, Staged(s, p, dir, phase),
                  [Finish(p, Fail)]
                  + [Finish(p, WreckFile(Marker)), Finish(p, WreckFile(Database)), Finish(p, WreckFile(Descriptor))]
                  + [Finish(p, WreckEnd)],
                  s.(phases := s.phases[p := Releasing]))
  {
    var wrecking := [Finish(p, WreckFile(Marker)), Finish(p, WreckFile(Database)), Finish(p, WreckFile(Descriptor))];
    assert Staged(s, p, dir, Wrecking) == Staged(s, p, dir, phase).Go(p, Wrecking) by {
      AtTwice(s, p, phase, Wrecking);
    }
    One(checks, Staged(s, p, dir, phase), Finish(p, Fail), Staged(s, p, dir, Wrecking));
    WreckingEmpties(checks, s, p, dir);
    AtTwice(s, p, Wrecking, Releasing);
    assert s.staging[p := EMPTY] - {p} == s.staging;
    One(checks, Staged(s, p, EMPTY, Wrecking), Finish(p, WreckEnd), At(s, p, Releasing));
    Then(checks, Staged(s, p, dir, phase), [Finish(p, Fail)], Staged(s, p, dir, Wrecking), wrecking,
         Staged(s, p, EMPTY, Wrecking));
    Then(checks, Staged(s, p, dir, phase), [Finish(p, Fail)] + wrecking, Staged(s, p, EMPTY, Wrecking),
         [Finish(p, WreckEnd)], At(s, p, Releasing));
  }

  lemma WreckingEmpties(checks: Checks, s: State, p: Operation, dir: Dir)
    requires p !in s.dead
    ensures Plays(checks, Staged(s, p, dir, Wrecking),
                  [Finish(p, WreckFile(Marker)), Finish(p, WreckFile(Database)), Finish(p, WreckFile(Descriptor))],
                  Staged(s, p, EMPTY, Wrecking))
  {
    var one, two := dir.(marker := None), dir.(marker := None, database := None);
    Restages(checks, s, p, Finish(p, WreckFile(Marker)), dir, Wrecking, one, Wrecking);
    Restages(checks, s, p, Finish(p, WreckFile(Database)), one, Wrecking, two, Wrecking);
    Restages(checks, s, p, Finish(p, WreckFile(Descriptor)), two, Wrecking, EMPTY, Wrecking);
    var start := Staged(s, p, dir, Wrecking);
    Then(checks, start, [Finish(p, WreckFile(Marker))], Staged(s, p, one, Wrecking), [Finish(p, WreckFile(Database))],
         Staged(s, p, two, Wrecking));
    Then(checks, start, [Finish(p, WreckFile(Marker))] + [Finish(p, WreckFile(Database))], Staged(s, p, two, Wrecking),
         [Finish(p, WreckFile(Descriptor))], Staged(s, p, EMPTY, Wrecking));
    assert [Finish(p, WreckFile(Marker))] + [Finish(p, WreckFile(Database))] + [Finish(p, WreckFile(Descriptor))]
        == [Finish(p, WreckFile(Marker)), Finish(p, WreckFile(Database)), Finish(p, WreckFile(Descriptor))];
  }

  // ---- reclaiming ------------------------------------------------------------------------------------

  /** The lock aside in a claim directory. */
  function Aside(s: State, p: Operation, c: nat, lock: Lock, phase: Phase): State {
    s.(lock := None, claims := s.claims[c := lock], phases := s.phases[p := phase])
  }

  lemma AsideTwice(s: State, p: Operation, c: nat, lock: Lock, first: Phase, second: Phase)
    ensures Aside(s, p, c, lock, first).Go(p, second) == Aside(s, p, c, lock, second)
  {
    AtTwice(s, p, first, second);
  }

  /** A lock untouched for a minute whose owner, if it names one, made it a minute ago and died is moved aside. */
  lemma StaleIsClaimed(checks: Checks, s: State, p: Operation, c: nat, lock: Lock)
    requires s.Lives(p) && s.phases[p] == Creating && s.lock == Some(lock) && c !in s.claims
    requires lock.touched + 60_000 <= s.now
    requires lock.owner.Some? ==> lock.owner.value in s.dead && lock.created + 60_000 <= s.now
    ensures Plays(checks, s,
                  [Look(p, FindTaken), Look(p, LookStep.Observe), Reclaim(p, Claim(c)), Reclaim(p, Inspect)],
                  s.(lock := None, claims := s.claims[c := lock],
                     phases := s.phases[p := if lock.owner.None? then Dropping(lock, c)
                                             else Sweeping(lock, c, lock.owner.value)]))
  {
    var next := if lock.owner.None? then Phase.Dropping(lock, c) else Phase.Sweeping(lock, c, lock.owner.value);
    StaleIsObserved(checks, s, p, lock);
    AtTwice(s, p, Phase.Observed(lock), Phase.Claimed(lock, c));
    One(checks, At(s, p, Phase.Observed(lock)), Reclaim(p, Claim(c)), Aside(s, p, c, lock, Phase.Claimed(lock, c)));
    AsideTwice(s, p, c, lock, Phase.Claimed(lock, c), next);
    One(checks, Aside(s, p, c, lock, Phase.Claimed(lock, c)), Reclaim(p, Inspect), Aside(s, p, c, lock, next));
    Then(checks, s, [Look(p, FindTaken), Look(p, LookStep.Observe)], At(s, p, Phase.Observed(lock)),
         [Reclaim(p, Claim(c))], Aside(s, p, c, lock, Phase.Claimed(lock, c)));
    Then(checks, s, [Look(p, FindTaken), Look(p, LookStep.Observe)] + [Reclaim(p, Claim(c))],
         Aside(s, p, c, lock, Phase.Claimed(lock, c)), [Reclaim(p, Inspect)], Aside(s, p, c, lock, next));
    assert [Look(p, FindTaken), Look(p, LookStep.Observe)] + [Reclaim(p, Claim(c))] + [Reclaim(p, Inspect)]
        == [Look(p, FindTaken), Look(p, LookStep.Observe), Reclaim(p, Claim(c)), Reclaim(p, Inspect)];
  }

  lemma StaleIsObserved(checks: Checks, s: State, p: Operation, lock: Lock)
    requires s.Lives(p) && s.phases[p] == Creating && s.lock == Some(lock) && lock.touched + 60_000 <= s.now
    requires lock.owner.Some? ==> lock.owner.value in s.dead && lock.created + 60_000 <= s.now
    ensures Plays(checks, s, [Look(p, FindTaken), Look(p, LookStep.Observe)], At(s, p, Phase.Observed(lock)))
  {
    One(checks, s, Look(p, FindTaken), At(s, p, Contending));
    AtTwice(s, p, Contending, Phase.Observed(lock));
    One(checks, At(s, p, Contending), Look(p, LookStep.Observe), At(s, p, Phase.Observed(lock)));
    Then(checks, s, [Look(p, FindTaken)], At(s, p, Contending), [Look(p, LookStep.Observe)],
         At(s, p, Phase.Observed(lock)));
  }

  function Swept(s: State, p: Operation, target: Operation, dir: Dir, phase: Phase): State {
    s.(staging := s.staging[target := dir], phases := s.phases[p := phase])
  }

  lemma SweptTwice(s: State, p: Operation, target: Operation, first: Dir, phase: Phase, second: Dir, next: Phase)
    ensures Swept(Swept(s, p, target, first, phase), p, target, second, next) == Swept(s, p, target, second, next)
  {
    assert s.phases[p := phase][p := next] == s.phases[p := next];
    assert s.staging[target := first][target := second] == s.staging[target := second];
  }

  lemma Wipes(checks: Checks, s: State, p: Operation, target: Operation, dir: Dir, file: File, wiping: Phase)
    requires p !in s.dead && wiping.Wiping? && wiping.target == target
    ensures Plays(checks, Swept(s, p, target, dir, wiping), [Sweep(p, WipeFile(file))],
                  Swept(s, p, target, Removed(dir, file), wiping))
  {
    SweptTwice(s, p, target, dir, wiping, Removed(dir, file), wiping);
    One(checks, Swept(s, p, target, dir, wiping), Sweep(p, WipeFile(file)),
        Swept(s, p, target, Removed(dir, file), wiping));
  }

  lemma WipingEmpties(checks: Checks, s: State, p: Operation, target: Operation, dir: Dir, wiping: Phase)
    requires p !in s.dead && wiping.Wiping? && wiping.target == target
    ensures Plays(checks, Swept(s, p, target, dir, wiping),
                  [Sweep(p, WipeFile(Marker)), Sweep(p, WipeFile(Database)), Sweep(p, WipeFile(Descriptor))],
                  Swept(s, p, target, EMPTY, wiping))
  {
    var one, two := dir.(marker := None), dir.(marker := None, database := None);
    Wipes(checks, s, p, target, dir, Marker, wiping);
    Wipes(checks, s, p, target, one, Database, wiping);
    Wipes(checks, s, p, target, two, Descriptor, wiping);
    var start := Swept(s, p, target, dir, wiping);
    Then(checks, start, [Sweep(p, WipeFile(Marker))], Swept(s, p, target, one, wiping), [Sweep(p, WipeFile(Database))],
         Swept(s, p, target, two, wiping));
    Then(checks, start, [Sweep(p, WipeFile(Marker))] + [Sweep(p, WipeFile(Database))], Swept(s, p, target, two, wiping),
         [Sweep(p, WipeFile(Descriptor))], Swept(s, p, target, EMPTY, wiping));
    assert [Sweep(p, WipeFile(Marker))] + [Sweep(p, WipeFile(Database))] + [Sweep(p, WipeFile(Descriptor))]
        == [Sweep(p, WipeFile(Marker)), Sweep(p, WipeFile(Database)), Sweep(p, WipeFile(Descriptor))];
  }

  /** The dead owner's staging directory goes if it carries the owner's marker. */
  lemma MarkedIsSwept(checks: Checks, s: State, p: Operation, seen: Lock, c: nat, target: Operation)
    requires s.Lives(p) && p != target && s.phases[p] == Sweeping(seen, c, target)
    requires target in s.staging && s.staging[target].marker == Some(target)
    ensures Plays(checks, s,
                  [Sweep(p, BeginSweep)]
                  + [Sweep(p, WipeFile(Marker)), Sweep(p, WipeFile(Database)), Sweep(p, WipeFile(Descriptor))]
                  + [Sweep(p, WipeEnd)],
                  s.(staging := s.staging - {target}, phases := s.phases[p := Dropping(seen, c)]))
  {
    var wiping, dropping, dir := Phase.Wiping(seen, c, target), Phase.Dropping(seen, c), s.staging[target];
    var wipes := [Sweep(p, WipeFile(Marker)), Sweep(p, WipeFile(Database)), Sweep(p, WipeFile(Descriptor))];
    assert s.staging[target := dir] == s.staging;
    One(checks, s, Sweep(p, BeginSweep), Swept(s, p, target, dir, wiping));
    WipingEmpties(checks, s, p, target, dir, wiping);
    AtTwice(s, p, wiping, dropping);
    assert s.staging[target := EMPTY] - {target} == s.staging - {target};
    var r := s.(staging := s.staging - {target}, phases := s.phases[p := dropping]);
    One(checks, Swept(s, p, target, EMPTY, wiping), Sweep(p, WipeEnd), r);
    Then(checks, s, [Sweep(p, BeginSweep)], Swept(s, p, target, dir, wiping), wipes,
         Swept(s, p, target, EMPTY, wiping));
    Then(checks, s, [Sweep(p, BeginSweep)] + wipes, Swept(s, p, target, EMPTY, wiping), [Sweep(p, WipeEnd)], r);
  }

  /** A reclaimer that is done with the staging directory deletes the claim and starts over. */
  lemma DroppingFrees(checks: Checks, s: State, p: Operation, seen: Lock, c: nat)
    requires s.Lives(p) && s.phases[p] == Dropping(seen, c) && c in s.claims
    ensures Plays(checks, s, [Reclaim(p, Drop)], s.(claims := s.claims - {c}, phases := s.phases[p := Seeking]))
  {
    One(checks, s, Reclaim(p, Drop), s.(claims := s.claims - {c}, phases := s.phases[p := Seeking]));
  }

  /** A dead build's stale lock and marked staging directory are gone when a reclaim that nobody disturbs ends. */
  lemma ReclaimCompletes(checks: Checks, s: State, p: Operation, c: nat, lock: Lock, target: Operation)
    requires s.Lives(p) && s.phases[p] == Creating && s.lock == Some(lock) && c !in s.claims
    requires lock.owner == Some(target) && target in s.dead
    requires lock.touched + 60_000 <= s.now && lock.created + 60_000 <= s.now
    requires target in s.staging && s.staging[target].marker == Some(target)
    ensures Plays(checks, s,
                  [Look(p, FindTaken), Look(p, LookStep.Observe), Reclaim(p, Claim(c)), Reclaim(p, Inspect)]
                  + ([Sweep(p, BeginSweep)]
                     + [Sweep(p, WipeFile(Marker)), Sweep(p, WipeFile(Database)), Sweep(p, WipeFile(Descriptor))]
                     + [Sweep(p, WipeEnd)])
                  + [Reclaim(p, Drop)],
                  s.(lock := None, staging := s.staging - {target}, phases := s.phases[p := Seeking]))
  {
    var claiming := [Look(p, FindTaken), Look(p, LookStep.Observe), Reclaim(p, Claim(c)), Reclaim(p, Inspect)];
    var wipes := [Sweep(p, WipeFile(Marker)), Sweep(p, WipeFile(Database)), Sweep(p, WipeFile(Descriptor))];
    var sweeping, dropping := Phase.Sweeping(lock, c, target), Phase.Dropping(lock, c);
    StaleIsClaimed(checks, s, p, c, lock);
    var aside := Aside(s, p, c, lock, sweeping);
    MarkedIsSwept(checks, aside, p, lock, c, target);
    AtTwice(s, p, sweeping, dropping);
    var clean := Aside(s, p, c, lock, dropping).(staging := s.staging - {target});
    DroppingFrees(checks, clean, p, lock, c);
    AtTwice(s, p, dropping, Seeking);
    assert s.claims[c := lock] - {c} == s.claims;
    Then(checks, s, claiming, aside, [Sweep(p, BeginSweep)] + wipes + [Sweep(p, WipeEnd)], clean);
    Then(checks, s, claiming + ([Sweep(p, BeginSweep)] + wipes + [Sweep(p, WipeEnd)]), clean, [Reclaim(p, Drop)],
         s.(lock := None, staging := s.staging - {target}, phases := s.phases[p := Seeking]));
  }
}
