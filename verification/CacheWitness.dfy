/**
 * Four runs the protocol allows. A blind claim, after seeing a lock whose maker died before naming
 * it, lets a sweep tear a directory that is then published, and lets two builds hold the cache at
 * once. A claim that waited in vain for the lock path, or that saw an unnamed lock, deletes the lock
 * another build is just making.
 */
module CacheWitness {
  import opened CacheProtocol
  import opened Outcomes

  /** Some run ends here. */
  ghost predicate Reachable(checks: Checks, r: State) {
    exists states, events :: IsRun(checks, states, events) && states[|events|] == r
  }

  lemma StepOn(checks: Checks, m: State, e: Event, r: State)
    requires Reachable(checks, m) && Enabled(checks, m, e) && After(checks, m, e) == r
    ensures Reachable(checks, r)
  {
    var states, events :| IsRun(checks, states, events) && states[|events|] == m;
    var all, more := states + [r], events + [e];
    forall i | 0 <= i < |more|
      ensures Enabled(checks, all[i], more[i]) && all[i + 1] == After(checks, all[i], more[i])
    {
      if i < |events| { assert all[i] == states[i] && all[i + 1] == states[i + 1] && more[i] == events[i]; }
    }
    assert IsRun(checks, all, more) && all[|more|] == r;
  }

  function Blank(base: Bytes): State {
    State(base, 0, None, map[], map[], None, [], map[], {})
  }

  lemma Begin(checks: Checks, base: Bytes)
    ensures Reachable(checks, Blank(base))
  {
    assert IsRun(checks, [Blank(base)], []);
  }

  // ---- what builds do on their way ------------------------------------------------------------

  lemma GoTwice(s: State, q: Operation, first: Phase, second: Phase)
    ensures s.Go(q, first).Go(q, second) == s.Go(q, second)
  {
    assert s.phases[q := first][q := second] == s.phases[q := second];
  }

  /** A new build finds no claims. */
  lemma Approach(checks: Checks, m: State, q: Operation)
    requires Reachable(checks, m) && m.claims == map[] && q !in m.phases && q !in m.dead
    ensures Reachable(checks, m.Go(q, Creating))
  {
    StepOn(checks, m, Start(q), m.Go(q, Seeking));
    GoTwice(m, q, Seeking, Creating);
    StepOn(checks, m.Go(q, Seeking), Look(q, SeeNoClaims), m.Go(q, Creating));
  }

  function Owned(s: State, q: Operation): State {
    s.(lock := Some(Lock(Some(q), s.now, s.now)))
  }

  function Nameless(s: State): State {
    s.(lock := Some(Lock(None, s.now, s.now)))
  }

  /** It makes the lock directory. */
  lemma MakeLock(checks: Checks, m: State, q: Operation)
    requires Reachable(checks, m) && m.claims == map[] && q !in m.phases && q !in m.dead && m.lock.None?
    ensures Reachable(checks, Nameless(m.Go(q, Making)))
  {
    Approach(checks, m, q);
    GoTwice(m, q, Creating, Making);
    StepOn(checks, m.Go(q, Creating), Take(q, Make), Nameless(m.Go(q, Making)));
  }

  lemma NameLock(checks: Checks, m: State, q: Operation)
    requires Reachable(checks, m) && m.claims == map[] && q !in m.phases && q !in m.dead && m.lock.None?
    ensures Reachable(checks, Owned(m.Go(q, Created), q))
  {
    MakeLock(checks, m, q);
    GoTwice(m, q, Making, Created);
    StepOn(checks, Nameless(m.Go(q, Making)), Take(q, Name), Owned(m.Go(q, Created), q));
  }

  /** It names the lock, looks again and holds the cache. */
  lemma Acquire(checks: Checks, m: State, q: Operation)
    requires Reachable(checks, m) && m.claims == map[] && q !in m.phases && q !in m.dead && m.lock.None?
    ensures Reachable(checks, Owned(m.Go(q, Locked), q))
  {
    NameLock(checks, m, q);
    GoTwice(m, q, Created, Locked);
    StepOn(checks, Owned(m.Go(q, Created), q), Look(q, LookAgain), Owned(m.Go(q, Locked), q));
  }

  /** A new build finds the lock taken and stale. */
  lemma WalkUp(checks: Checks, m: State, q: Operation)
    requires Reachable(checks, m) && m.claims == map[] && q !in m.phases && q !in m.dead
    requires m.lock.Some? && Reclaimable(m, m.lock.value)
    ensures Reachable(checks, m.Go(q, Observed(m.lock.value)))
  {
    Approach(checks, m, q);
    GoTwice(m, q, Creating, Contending);
    StepOn(checks, m.Go(q, Creating), Look(q, FindTaken), m.Go(q, Contending));
    GoTwice(m, q, Contending, Observed(m.lock.value));
    StepOn(checks, m.Go(q, Contending), Look(q, Observe), m.Go(q, Observed(m.lock.value)));
  }

  /** The lock is moved aside. */
  function Aside(s: State, c: nat, lock: Lock): State {
    s.(lock := None, claims := map[c := lock])
  }

  lemma ClaimLock(checks: Checks, m: State, q: Operation, c: nat, seen: Lock, lock: Lock)
    requires Reachable(checks, m) && m.Lives(q) && m.phases[q] == Observed(seen)
    requires m.claims == map[] && m.lock == Some(lock)
    ensures Reachable(checks, Aside(m.Go(q, AfterInspect(seen, c, lock)), c, lock))
  {
    var phase := AfterInspect(seen, c, lock);
    StepOn(checks, m, Reclaim(q, Claim(c)), Aside(m.Go(q, Claimed(seen, c)), c, lock));
    GoTwice(m, q, Claimed(seen, c), phase);
    StepOn(checks, Aside(m.Go(q, Claimed(seen, c)), c, lock), Reclaim(q, Inspect), Aside(m.Go(q, phase), c, lock));
  }

  lemma DropLock(checks: Checks, m: State, q: Operation, c: nat, seen: Lock, lock: Lock)
    requires q in m.phases && q !in m.dead && m.claims == map[]
    requires Reachable(checks, Aside(m.Go(q, Dropping(seen, c)), c, lock))
    ensures Reachable(checks, m.Go(q, Seeking).(lock := None))
  {
    GoTwice(m, q, Dropping(seen, c), Seeking);
    assert map[c := lock] - {c} == map[];
    StepOn(checks, Aside(m.Go(q, Dropping(seen, c)), c, lock), Reclaim(q, Drop), m.Go(q, Seeking).(lock := None));
  }

  lemma LetGo(checks: Checks, m: State, q: Operation, c: nat, seen: Lock, lock: Lock)
    requires Reachable(checks, m) && m.Lives(q) && m.phases[q] == Observed(seen)
    requires m.claims == map[] && m.lock == Some(lock)
    requires seen.owner.None? || lock.owner == seen.owner
    ensures Reachable(checks, Aside(m.Go(q, Dropping(seen, c)), c, lock))
  {
    ClaimLock(checks, m, q, c, seen, lock);
    if lock.owner.Some? {
      var sweeping := Phase.Sweeping(seen, c, lock.owner.value);
      GoTwice(m, q, sweeping, Dropping(seen, c));
      StepOn(checks, Aside(m.Go(q, sweeping), c, lock), Sweep(q, SkipSweep),
             Aside(m.Go(q, Dropping(seen, c)), c, lock));
    }
  }

  /** A reclaim that runs through deletes the lock it picks up. */
  lemma Reclaimed(checks: Checks, m: State, q: Operation, c: nat, seen: Lock, lock: Lock)
    requires Reachable(checks, m) && m.Lives(q) && m.phases[q] == Observed(seen)
    requires m.claims == map[] && m.lock == Some(lock)
    requires seen.owner.None? || lock.owner == seen.owner
    ensures Reachable(checks, m.Go(q, Seeking).(lock := None))
  {
    LetGo(checks, m, q, c, seen, lock);
    DropLock(checks, m, q, c, seen, lock);
  }

  lemma Dies(checks: Checks, m: State, q: Operation)
    requires Reachable(checks, m) && m.Lives(q)
    ensures Reachable(checks, m.(dead := m.dead + {q}))
  {
    StepOn(checks, m, Crash(q), m.(dead := m.dead + {q}));
  }

  lemma Waits(checks: Checks, m: State, elapsed: nat)
    requires Reachable(checks, m)
    ensures Reachable(checks, m.(now := m.now + elapsed))
  {
    StepOn(checks, m, Tick(elapsed), m.(now := m.now + elapsed));
  }

  // ---- a stale lock seen by two, reclaimed by one ------------------------------------------------

  const ORPHAN: Lock := Lock(None, 0, 0)
  const WHOLE: Lock := Lock(Some(9), 0, 0)

  /** Build 9 is dead. Builds 1 and 2 saw its stale lock; build 2 reclaimed it, build 1 still remembers it. */
  function Freed(base: Bytes, lastWords: Phase, seen: Lock): State {
    State(base, STALE, None, map[], map[], None, [], map[9 := lastWords, 1 := Observed(seen), 2 := Seeking], {9})
  }

  lemma SeenByTwo(checks: Checks, base: Bytes, lastWords: Phase, seen: Lock)
    requires seen == ORPHAN || seen == WHOLE
    requires Reachable(checks, Blank(base).Go(9, lastWords).(lock := Some(seen)))
    ensures Reachable(checks, Freed(base, lastWords, seen))
  {
    var m := Blank(base).Go(9, lastWords).(lock := Some(seen));
    Dies(checks, m, 9);
    var m1 := m.(dead := {9});
    assert m1 == m.(dead := m.dead + {9});
    Waits(checks, m1, STALE);
    var m2 := m1.(now := STALE);
    WalkUp(checks, m2, 1);
    var m3 := m2.Go(1, Observed(seen));
    WalkUp(checks, m3, 2);
    Reclaimed(checks, m3.Go(2, Observed(seen)), 2, 0, seen, seen);
    GoTwice(m3, 2, Observed(seen), Seeking);
    assert map[9 := lastWords][1 := Observed(seen)][2 := Seeking]
        == map[9 := lastWords, 1 := Observed(seen), 2 := Seeking];
  }

  /** Build 9 died between making its lock and naming it. */
  lemma OrphanEpisode(checks: Checks, base: Bytes)
    ensures Reachable(checks, Freed(base, Making, ORPHAN))
  {
    Begin(checks, base);
    MakeLock(checks, Blank(base), 9);
    SeenByTwo(checks, base, Making, ORPHAN);
  }

  /** Build 9 died holding its lock. */
  lemma WholeEpisode(checks: Checks, base: Bytes)
    ensures Reachable(checks, Freed(base, Created, WHOLE))
  {
    Begin(checks, base);
    NameLock(checks, Blank(base), 9);
    SeenByTwo(checks, base, Created, WHOLE);
  }

  // ---- two holders -------------------------------------------------------------------------------

  lemma RobAndEnter(checks: Checks, m: State, c: nat, theirs: Lock)
    requires Reachable(checks, m) && m.Lives(1) && m.phases[1] == Observed(ORPHAN)
    requires m.claims == map[] && m.lock == Some(theirs) && 4 !in m.phases && 4 !in m.dead
    ensures Reachable(checks, Owned(m.Go(1, Seeking).Go(4, Locked), 4))
  {
    Reclaimed(checks, m, 1, c, ORPHAN, theirs);
    Acquire(checks, m.Go(1, Seeking).(lock := None), 4);
    assert m.Go(1, Seeking).(lock := None).Go(4, Locked) == m.Go(1, Seeking).Go(4, Locked).(lock := None);
  }

  /** With a blind claim two living builds can hold the cache at once. */
  lemma BlindClaimSharesTheCache(checks: Checks, base: Bytes) returns (r: State)
    ensures Reachable(checks, r) && r.Lives(3) && r.Lives(4)
    ensures Critical(r.phases[3]) && Critical(r.phases[4])
  {
    OrphanEpisode(checks, base);
    var m := Freed(base, Making, ORPHAN);
    Acquire(checks, m, 3);
    RobAndEnter(checks, Owned(m.Go(3, Locked), 3), 1, Lock(Some(3), STALE, STALE));
    r := Owned(Owned(m.Go(3, Locked), 3).Go(1, Seeking).Go(4, Locked), 4);
  }

  // ---- the wrong lock deleted ------------------------------------------------------------------------

  lemma PickUpYoung(checks: Checks, m: State, young: Lock) returns (s: State)
    requires Reachable(checks, m) && m.Lives(1) && m.phases[1] == Observed(WHOLE) && m.claims == map[]
    requires m.lock.None? && 4 !in m.phases && 4 !in m.dead && 8 !in m.phases && 8 !in m.dead
    requires young == Lock(None, m.now, m.now)
    ensures Reachable(checks, s) && s == Aside(m.Go(4, Creating).Go(8, Making).Go(1, Restoring(WHOLE, 1)), 1, young)
  {
    Approach(checks, m, 4);
    MakeLock(checks, m.Go(4, Creating), 8);
    var made := m.Go(4, Creating).Go(8, Making);
    ClaimLock(checks, Nameless(made), 1, 1, WHOLE, young);
    s := Aside(made.Go(1, Restoring(WHOLE, 1)), 1, young);
    assert Nameless(made).Go(1, Restoring(WHOLE, 1)) == Nameless(made.Go(1, Restoring(WHOLE, 1)));
  }

  /**
   * A reclaimer that saw the stale lock of a dead owner can be about to delete the fresh lock a
   * living build is just making: it picked that one up, and build 4 left the lock path taken.
   */
  lemma DropDeletesAnother(checks: Checks, base: Bytes) returns (s: State)
    ensures Reachable(checks, s) && Enabled(checks, s, Reclaim(1, Drop))
    ensures s.phases[1].seen.owner == Some(9) && s.claims[s.phases[1].claim].owner.None?
    ensures !Reclaimable(s, s.claims[s.phases[1].claim]) && s.Lives(8) && s.phases[8].Making?
  {
    WholeEpisode(checks, base);
    var young := Lock(None, STALE, STALE);
    var m := PickUpYoung(checks, Freed(base, Created, WHOLE), young);
    s := TakenAgain(checks, m, WHOLE, young);
  }

  /**
   * A reclaimer that saw a stale unnamed lock can be about to delete the fresh unnamed lock a living
   * build is just making; nothing tells the two apart when the claim is read again.
   */
  lemma DropDeletesAnotherUnnamed(checks: Checks, base: Bytes) returns (s: State)
    ensures Reachable(checks, s) && Enabled(checks, s, Reclaim(1, Drop))
    ensures s.phases[1].seen.owner.None? && s.claims[s.phases[1].claim].owner.None?
    ensures s.claims[s.phases[1].claim] != s.phases[1].seen && !Reclaimable(s, s.claims[s.phases[1].claim])
    ensures s.Lives(8) && s.phases[8].Making?
  {
    OrphanEpisode(checks, base);
    var m, young := Freed(base, Making, ORPHAN), Lock(None, STALE, STALE);
    MakeLock(checks, m, 8);
    LetGo(checks, Nameless(m.Go(8, Making)), 1, 1, ORPHAN, young);
    s := Aside(Nameless(m.Go(8, Making)).Go(1, Dropping(ORPHAN, 1)), 1, young);
  }

  lemma TakenAgain(checks: Checks, m: State, seen: Lock, young: Lock) returns (s: State)
    requires Reachable(checks, m) && m.Lives(1) && m.Lives(4) && young.owner.None?
    requires m.phases[1] == Restoring(seen, 1) && m.phases[4] == Creating && m.lock.None? && m.claims == map[1 := young]
    ensures Reachable(checks, s) && Enabled(checks, s, Reclaim(1, Drop))
    ensures s == m.(phases := s.phases, lock := s.lock, dead := m.dead + {4})
    ensures s.phases == m.phases[4 := Making][1 := Dropping(seen, 1)]
  {
    var m1 := Nameless(m.Go(4, Making));
    StepOn(checks, m, Take(4, Make), m1);
    Dies(checks, m1, 4);
    s := Gone(checks, m1.(dead := m1.dead + {4}), seen, young);
  }

  lemma Gone(checks: Checks, m: State, seen: Lock, young: Lock) returns (s: State)
    requires Reachable(checks, m) && m.Lives(1) && young.owner.None? && m.phases[1] == Restoring(seen, 1)
    requires m.lock.Some? && m.claims == map[1 := young]
    ensures s == m.Go(1, Dropping(seen, 1)) && Reachable(checks, s) && Enabled(checks, s, Reclaim(1, Drop))
  {
    s := m.Go(1, Dropping(seen, 1));
    StepOn(checks, m, Reclaim(1, KeepClaim), s);
  }

  // ---- a torn publication ------------------------------------------------------------------------------

  /** Build 3 holds the lock and stages. */
  function Staged(m: State, phase: Phase, dir: Dir): State {
    Owned(m.Go(3, phase), 3).(staging := map[3 := dir])
  }

  lemma PutTwice(m: State, before: Phase, dir: Dir, after: Phase, next: Dir)
    ensures Staged(m, before, dir).Put(3, next, after) == Staged(m, after, next)
  {
    GoTwice(m, 3, before, after);
    assert map[3 := dir][3 := next] == map[3 := next];
  }

  lemma FillOn(checks: Checks, m: State, before: Phase, dir: Dir, fill: FillStep, after: Phase, next: Dir)
    requires Reachable(checks, Staged(m, before, dir)) && 3 !in m.dead && CanFill(Staged(m, before, dir), 3, fill)
    requires AfterFill(Staged(m, before, dir), 3, fill) == Staged(m, before, dir).Put(3, next, after)
    ensures Reachable(checks, Staged(m, after, next))
  {
    PutTwice(m, before, dir, after, next);
    StepOn(checks, Staged(m, before, dir), Fill(3, fill), Staged(m, after, next));
  }

  lemma Prepare(checks: Checks, m: State)
    requires Reachable(checks, Owned(m.Go(3, Locked), 3)) && m.published.None? && m.staging == map[] && 3 !in m.dead
    ensures Reachable(checks, Staged(m, Made, EMPTY))
  {
    GoTwice(m, 3, Locked, Preparing);
    StepOn(checks, Owned(m.Go(3, Locked), 3), Settle(3, LookForHit), Owned(m.Go(3, Preparing), 3));
    GoTwice(m, 3, Preparing, Made);
    StepOn(checks, Owned(m.Go(3, Preparing), 3), Fill(3, MakeStaging), Staged(m, Made, EMPTY));
  }

  lemma FillDirectory(checks: Checks, m: State, db: Bytes, descriptor: Bytes)
    requires Reachable(checks, Staged(m, Made, EMPTY)) && 3 !in m.dead
    ensures Reachable(checks, Staged(m, Described, Dir(Some(3), Some(db), Some(descriptor))))
  {
    var marked, copied := Dir(Some(3), None, None), Dir(Some(3), Some(m.base), None);
    var mutated, full := Dir(Some(3), Some(db), None), Dir(Some(3), Some(db), Some(descriptor));
    FillOn(checks, m, Made, EMPTY, WriteMarker, Marked, marked);
    FillOn(checks, m, Marked, marked, CopyBase, Copied, copied);
    FillOn(checks, m, Copied, copied, Mutate(db), Mutated, mutated);
    FillOn(checks, m, Mutated, mutated, Describe(descriptor), Described, full);
  }

  lemma StageEpisode(checks: Checks, m: State, db: Bytes, descriptor: Bytes)
    requires checks.passes(3, db, descriptor) && Reachable(checks, m)
    requires m.claims == map[] && m.lock.None? && m.published.None? && m.staging == map[]
    requires 3 !in m.phases && 3 !in m.dead
    ensures Reachable(checks, Staged(m, Checked(db, descriptor), Dir(Some(3), Some(db), Some(descriptor))))
  {
    Acquire(checks, m, 3);
    Prepare(checks, m);
    FillDirectory(checks, m, db, descriptor);
    var full := Dir(Some(3), Some(db), Some(descriptor));
    GoTwice(m, 3, Described, Checked(db, descriptor));
    StepOn(checks, Staged(m, Described, full), Finish(3, Check), Staged(m, Checked(db, descriptor), full));
  }

  /** Build 1 has moved the lock of build 3 aside and stands in `phase`; build 3 stands in `mine`. */
  function Robbed(base: Bytes, phase: Phase, mine: Phase, dir: Dir): State {
    State(base, STALE, None, map[1 := Lock(Some(3), STALE, STALE)], map[3 := dir], None, [],
          map[9 := Making, 1 := phase, 2 := Seeking, 3 := mine], {9})
  }

  function Theirs(): Lock {
    Lock(Some(3), STALE, STALE)
  }

  lemma RobbedIs(base: Bytes, phase: Phase, mine: Phase, dir: Dir)
    ensures Robbed(base, phase, mine, dir)
         == Aside(Staged(Freed(base, Making, ORPHAN), mine, dir).Go(1, phase), 1, Theirs())
  {
    assert map[9 := Making, 1 := Observed(ORPHAN), 2 := Seeking][3 := mine][1 := phase]
        == map[9 := Making, 1 := phase, 2 := Seeking, 3 := mine];
  }

  lemma RobEpisode(checks: Checks, base: Bytes, db: Bytes, descriptor: Bytes, full: Dir)
    requires checks.passes(3, db, descriptor) && full == Dir(Some(3), Some(db), Some(descriptor))
    ensures Reachable(checks, Robbed(base, Phase.Sweeping(ORPHAN, 1, 3), Checked(db, descriptor), full))
  {
    OrphanEpisode(checks, base);
    var m := Freed(base, Making, ORPHAN);
    StageEpisode(checks, m, db, descriptor);
    ClaimLock(checks, Staged(m, Checked(db, descriptor), full), 1, 1, ORPHAN, Theirs());
    RobbedIs(base, Phase.Sweeping(ORPHAN, 1, 3), Checked(db, descriptor), full);
  }

  /** The sweep reads the marker of build 3 ... */
  lemma SweepBegins(checks: Checks, base: Bytes, mine: Phase, full: Dir)
    requires full.marker == Some(3) && Reachable(checks, Robbed(base, Phase.Sweeping(ORPHAN, 1, 3), mine, full))
    ensures Reachable(checks, Robbed(base, Wiping(ORPHAN, 1, 3), mine, full))
  {
    var m := Robbed(base, Phase.Sweeping(ORPHAN, 1, 3), mine, full);
    assert m.Go(1, Wiping(ORPHAN, 1, 3)) == Robbed(base, Wiping(ORPHAN, 1, 3), mine, full);
    StepOn(checks, m, Sweep(1, BeginSweep), Robbed(base, Wiping(ORPHAN, 1, 3), mine, full));
  }

  /** ... before build 3 removes it. */
  lemma MarkerGoes(checks: Checks, base: Bytes, phase: Phase, db: Bytes, descriptor: Bytes, full: Dir)
    requires Reachable(checks, Robbed(base, phase, Checked(db, descriptor), full))
    ensures Reachable(checks, Robbed(base, phase, Ready(db, descriptor), full.(marker := None)))
  {
    var m := Robbed(base, phase, Checked(db, descriptor), full);
    var r := Robbed(base, phase, Ready(db, descriptor), full.(marker := None));
    assert m.Put(3, full.(marker := None), Ready(db, descriptor)) == r;
    StepOn(checks, m, Finish(3, Unmark), r);
  }

  lemma WipeDatabase(checks: Checks, base: Bytes, mine: Phase, dir: Dir)
    requires Reachable(checks, Robbed(base, Wiping(ORPHAN, 1, 3), mine, dir))
    ensures Reachable(checks, Robbed(base, Wiping(ORPHAN, 1, 3), mine, dir.(database := None)))
  {
    var m := Robbed(base, Wiping(ORPHAN, 1, 3), mine, dir);
    var r := Robbed(base, Wiping(ORPHAN, 1, 3), mine, dir.(database := None));
    assert m.Go(1, Wiping(ORPHAN, 1, 3)).(staging := m.staging[3 := dir.(database := None)]) == r;
    StepOn(checks, m, Sweep(1, WipeFile(Database)), r);
  }

  lemma PublishAnyway(checks: Checks, base: Bytes, phase: Phase, db: Bytes, descriptor: Bytes, dir: Dir)
    returns (r: State)
    requires Reachable(checks, Robbed(base, phase, Ready(db, descriptor), dir))
    ensures Reachable(checks, r) && r.published == Some(dir)
  {
    var m := Robbed(base, phase, Ready(db, descriptor), dir);
    r := AfterSettle(checks, m, 3, Publish);
    StepOn(checks, m, Settle(3, Publish), r);
  }

  /** The sweep wipes after the last check and before the rename. */
  lemma BlindClaimBreaksPublication(checks: Checks, base: Bytes, db: Bytes, descriptor: Bytes) returns (r: State)
    requires checks.passes(3, db, descriptor)
    ensures Reachable(checks, r) && r.published == Some(Dir(None, None, Some(descriptor)))
  {
    var full := Dir(Some(3), Some(db), Some(descriptor));
    RobEpisode(checks, base, db, descriptor, full);
    SweepBegins(checks, base, Checked(db, descriptor), full);
    MarkerGoes(checks, base, Wiping(ORPHAN, 1, 3), db, descriptor, full);
    WipeDatabase(checks, base, Ready(db, descriptor), full.(marker := None));
    r := PublishAnyway(checks, base, Wiping(ORPHAN, 1, 3), db, descriptor, full.(marker := None, database := None));
  }
}
