/**
 * Concurrent builds of one cache key over a shared directory: the lock with its reclaim of dead
 * owners, and the staged publication. A step is one file-system call or one read; a crash may come
 * between any two steps. Two pairs of calls are one step: a lock's age is observed together with
 * its owner, and a restore tests that the lock path is free as it renames.
 */
module CacheProtocol {
  import opened Outcomes

  type Operation = nat
  type Bytes = nat

  const STALE: nat := 60_000

  /** A lock directory: its owner record, if it holds one, and its times. */
  datatype Lock = Lock(owner: Option<Operation>, touched: nat, created: nat)

  /** The three files a candidate directory may hold. */
  datatype Dir = Dir(marker: Option<Operation>, database: Option<Bytes>, descriptor: Option<Bytes>)

  datatype File = Marker | Database | Descriptor

  const EMPTY: Dir := Dir(None, None, None)

  function Removed(d: Dir, file: File): Dir {
    match file
    case Marker => d.(marker := None)
    case Database => d.(database := None)
    case Descriptor => d.(descriptor := None)
  }

  /** Where a build stands. `seen` is the lock a reclaimer observed, `claim` the name it moved one to. */
  datatype Phase =
    | Seeking
    | Creating
    | Making
    | Scrapping
    | Created
    | Yielding
    | Leaving(again: bool)
    | Contending
    | Observed(seen: Lock)
    | Claimed(seen: Lock, claim: nat)
    | Restoring(seen: Lock, claim: nat)
    | Sweeping(seen: Lock, claim: nat, target: Operation)
    | Wiping(seen: Lock, claim: nat, target: Operation)
    | Dropping(seen: Lock, claim: nat)
    | Locked
    | Verifying
    | Quarantining
    | Preparing
    | Made
    | Marked
    | Copied
    | Mutated
    | Described
    | Checked(database: Bytes, descriptor: Bytes)
    | Ready(database: Bytes, descriptor: Bytes)
    | Wrecking
    | Releasing
    | Unlocking
    | Done

  // ---- what a phase remembers ---------------------------------------------------------------

  function SeenBy(phase: Phase): Option<Lock> {
    if phase.Observed? || phase.Claimed? || phase.Restoring? || phase.Sweeping? || phase.Wiping? || phase.Dropping?
    then Some(phase.seen) else None
  }

  function ClaimOf(phase: Phase): Option<nat> {
    if phase.Claimed? || phase.Restoring? || phase.Sweeping? || phase.Wiping? || phase.Dropping?
    then Some(phase.claim) else None
  }

  function TargetOf(phase: Phase): Option<Operation> {
    if phase.Sweeping? || phase.Wiping? then Some(phase.target) else None
  }

  predicate BeforePublication(phase: Phase) {
    phase.Preparing? || phase.Made? || phase.Marked? || phase.Copied? || phase.Mutated? || phase.Described?
    || phase.Checked? || phase.Ready?
  }

  /** Between acquire and release. */
  predicate Critical(phase: Phase) {
    phase.Locked? || phase.Verifying? || phase.Quarantining? || BeforePublication(phase) || phase.Wrecking?
    || phase.Releasing? || phase.Unlocking?
  }

  /** From writing the owner record to removing it. */
  predicate Holding(phase: Phase) {
    phase.Created? || phase.Yielding? || Critical(phase)
  }

  /** Between making a lock directory and naming its owner, or between unnaming and removing it. */
  predicate Tending(phase: Phase) {
    phase.Making? || phase.Scrapping? || phase.Leaving?
  }

  predicate Vetting(phase: Phase) {
    phase.Checked? || phase.Ready?
  }

  // ---- the shared state ----------------------------------------------------------------------

  datatype State = State(base: Bytes, now: nat, lock: Option<Lock>, claims: map<nat, Lock>,
                         staging: map<Operation, Dir>, published: Option<Dir>, quarantined: seq<Dir>,
                         phases: map<Operation, Phase>, dead: set<Operation>)
  {
    predicate Lives(p: Operation) {
      p in phases && p !in dead
    }

    /** A lock directory without an owner record is at the lock path. */
    predicate Unnamed() {
      lock.Some? && lock.value.owner.None?
    }

    function Go(p: Operation, phase: Phase): State {
      this.(phases := phases[p := phase])
    }

    /** Goes on with this staging directory. */
    function Put(p: Operation, dir: Dir, phase: Phase): State {
      this.(phases := phases[p := phase], staging := staging[p := dir])
    }
  }

  /** The checks, left open: which pair each build accepts, before publishing and when it hits. */
  datatype Checks = Checks(passes: (Operation, Bytes, Bytes) -> bool, verifies: (Operation, Dir) -> bool)

  predicate Initial(s: State) {
    && s.lock.None? && s.claims == map[] && s.staging == map[] && s.published.None? && s.quarantined == []
    && s.phases == map[] && s.dead == {}
  }

  // ---- steps -----------------------------------------------------------------------------

  /** Looking around without touching anything. */
  datatype LookStep =
    | SeeNoClaims  // no claim directory is in sight
    | FindTaken    // the lock path is taken
    | LookAway     // nothing to reclaim
    | Observe      // a stale lock: its age and its owner
    | LookAgain    // after naming the lock, the claim directories once more
    | GiveUp       // timed out, or failed to remove the lock directory

  /** Making and removing the lock directory, one call at a time. */
  datatype TakeStep =
    | Make         // mkdir
    | Name         // the owner record, written where none is
    | NameFails    // another record is there, the directory is gone, or the write fails
    | Strip        // the removal of the lock path: what is in it first
    | Remove       // then the empty directory

  /** Moving a stale lock aside, reading its owner again, and putting it back or deleting it. */
  datatype ReclaimStep =
    | Claim(claim: nat)
    | Inspect
    | Restore
    | KeepClaim    // the lock path stayed taken
    | Drop

  /** Cleaning up behind the owner of a claimed lock. */
  datatype SweepStep =
    | SkipSweep    // no marker of this owner, or a failing removal
    | BeginSweep
    | WipeFile(file: File)
    | WipeEnd

  /** Filling one's own staging directory. */
  datatype FillStep =
    | MakeStaging
    | WriteMarker
    | CopyBase
    | Mutate(bytes: Bytes)
    | Describe(bytes: Bytes)

  /** Checking one's own staging directory, or giving it up. */
  datatype FinishStep =
    | Check
    | Unmark
    | Fail
    | WreckFile(file: File)
    | WreckEnd

  /** Hits, the rename that publishes, and the read before the release. */
  datatype SettleStep =
    | LookForHit
    | Hit
    | Reject
    | Quarantine
    | Publish
    | Release

  datatype Event =
    | Start(p: Operation)
    | Tick(elapsed: nat)
    | Crash(p: Operation)
    | Look(p: Operation, look: LookStep)
    | Take(p: Operation, take: TakeStep)
    | Reclaim(p: Operation, reclaim: ReclaimStep)
    | Sweep(p: Operation, sweep: SweepStep)
    | Fill(p: Operation, fill: FillStep)
    | Finish(p: Operation, finish: FinishStep)
    | Settle(p: Operation, settle: SettleStep)

  /** What a reclaimer demands of the lock it observes: old, and owned by nobody or by the dead. */
  predicate Reclaimable(s: State, lock: Lock) {
    && lock.touched + STALE <= s.now
    && (lock.owner.Some? ==> lock.owner.value in s.dead && lock.created + STALE <= s.now)
  }

  // ---- when a step may happen ----------------------------------------------------------------

  predicate CanLook(s: State, p: Operation, look: LookStep)
    requires p in s.phases
  {
    var phase := s.phases[p];
    match look
    case SeeNoClaims => phase.Seeking? && s.claims == map[]
    case FindTaken => phase.Creating? && s.lock.Some?
    case LookAway => phase.Contending? || phase.Observed?
    case Observe => phase.Contending? && s.lock.Some? && Reclaimable(s, s.lock.value)
    case LookAgain => phase.Created?
    case GiveUp => phase.Seeking? || phase.Creating? || phase.Contending? || phase.Leaving?
  }

  predicate CanTake(s: State, p: Operation, take: TakeStep)
    requires p in s.phases
  {
    var phase := s.phases[p];
    match take
    case Make => phase.Creating? && s.lock.None?
    case Name => phase.Making? && s.Unnamed()
    case NameFails => phase.Making?
    case Strip => phase.Scrapping? || phase.Yielding? || phase.Unlocking? || phase.Leaving?
    case Remove => phase.Leaving? && (s.lock.None? || s.Unnamed())
  }

  predicate CanReclaim(s: State, p: Operation, reclaim: ReclaimStep)
    requires p in s.phases
  {
    var phase := s.phases[p];
    match reclaim
    case Claim(claim) => phase.Observed? && s.lock.Some? && claim !in s.claims
    case Inspect => phase.Claimed? && phase.claim in s.claims
    case Restore => phase.Restoring? && s.lock.None? && phase.claim in s.claims
    case KeepClaim => phase.Restoring? && s.lock.Some? && phase.claim in s.claims
    case Drop => phase.Dropping? && phase.claim in s.claims
  }

  predicate CanSweep(s: State, p: Operation, sweep: SweepStep)
    requires p in s.phases
  {
    var phase := s.phases[p];
    match sweep
    case SkipSweep => phase.Sweeping? || phase.Wiping?
    case BeginSweep =>
      phase.Sweeping? && phase.target in s.staging && s.staging[phase.target].marker == Some(phase.target)
    case WipeFile(_) => phase.Wiping? && phase.target in s.staging
    case WipeEnd => phase.Wiping? && (phase.target in s.staging ==> s.staging[phase.target] == EMPTY)
  }

  predicate CanFill(s: State, p: Operation, fill: FillStep)
    requires p in s.phases
  {
    var phase := s.phases[p];
    match fill
    case MakeStaging => phase.Preparing? && p !in s.staging
    case WriteMarker => phase.Made? && p in s.staging
    case CopyBase => phase.Marked? && p in s.staging
    case Mutate(_) => (phase.Copied? || phase.Mutated?) && p in s.staging && s.staging[p].database.Some?
    case Describe(_) => phase.Mutated? && p in s.staging
  }

  predicate CanFinish(checks: Checks, s: State, p: Operation, finish: FinishStep)
    requires p in s.phases
  {
    var phase := s.phases[p];
    match finish
    case Check =>
      && phase.Described? && p in s.staging && s.staging[p].database.Some? && s.staging[p].descriptor.Some?
      && checks.passes(p, s.staging[p].database.value, s.staging[p].descriptor.value)
    case Unmark => phase.Checked? && p in s.staging
    case Fail => BeforePublication(phase)
    case WreckFile(_) => phase.Wrecking? && p in s.staging
    case WreckEnd => phase.Wrecking? && (p in s.staging ==> s.staging[p] == EMPTY)
  }

  predicate CanSettle(checks: Checks, s: State, p: Operation, settle: SettleStep)
    requires p in s.phases
  {
    var phase := s.phases[p];
    match settle
    case LookForHit => phase.Locked?
    case Hit => phase.Verifying? && s.published.Some? && checks.verifies(p, s.published.value)
    case Reject => phase.Verifying?
    case Quarantine => phase.Quarantining?
    case Publish => phase.Ready? && p in s.staging && (s.published.None? || s.published == Some(EMPTY))
    case Release => phase.Releasing?
  }

  /** A dead operation takes no step. */
  predicate Enabled(checks: Checks, s: State, e: Event) {
    match e
    case Start(p) => p !in s.phases && p !in s.dead
    case Tick(_) => true
    case Crash(p) => s.Lives(p)
    case Look(p, look) => s.Lives(p) && CanLook(s, p, look)
    case Take(p, take) => s.Lives(p) && CanTake(s, p, take)
    case Reclaim(p, reclaim) => s.Lives(p) && CanReclaim(s, p, reclaim)
    case Sweep(p, sweep) => s.Lives(p) && CanSweep(s, p, sweep)
    case Fill(p, fill) => s.Lives(p) && CanFill(s, p, fill)
    case Finish(p, finish) => s.Lives(p) && CanFinish(checks, s, p, finish)
    case Settle(p, settle) => s.Lives(p) && CanSettle(checks, s, p, settle)
  }

  // ---- what a step does ------------------------------------------------------------------------

  /** Only `p` moves, nobody dies, time stands still and the base is untouched. */
  predicate Frame(s: State, r: State, p: Operation) {
    && p in r.phases && r.phases == s.phases[p := r.phases[p]]
    && r.dead == s.dead && r.base == s.base && r.now == s.now
  }

  /** At most the staging directory of `p` changed. */
  predicate OwnStaging(s: State, r: State, p: Operation) {
    || r.staging == s.staging
    || r.staging == s.staging - {p}
    || (p in r.staging && r.staging == s.staging[p := r.staging[p]])
  }

  function AfterLook(s: State, p: Operation, look: LookStep): (r: State)
    requires p in s.phases && CanLook(s, p, look)
    ensures Frame(s, r, p) && r == s.(phases := r.phases)
  {
    match look
    case SeeNoClaims => s.Go(p, Creating)
    case FindTaken => s.Go(p, Contending)
    case LookAway => s.Go(p, Seeking)
    case Observe => s.Go(p, Observed(s.lock.value))
    case LookAgain => s.Go(p, if s.claims == map[] then Locked else Yielding)
    case GiveUp => s.Go(p, Done)
  }

  /** The lock path without an owner record. */
  function Stripped(s: State): Option<Lock> {
    if s.lock.None? || s.Unnamed() then s.lock else Some(Lock(None, s.now, s.lock.value.created))
  }

  function AfterTake(s: State, p: Operation, take: TakeStep): (r: State)
    requires p in s.phases && CanTake(s, p, take)
    ensures Frame(s, r, p) && r == s.(lock := r.lock, phases := r.phases)
  {
    var phase := s.phases[p];
    match take
    case Make => s.Go(p, Making).(lock := Some(Lock(None, s.now, s.now)))
    case Name => s.Go(p, Created).(lock := Some(Lock(Some(p), s.now, s.now)))
    case NameFails => s.Go(p, Scrapping)
    case Strip => s.Go(p, Leaving(phase.Yielding? || (phase.Leaving? && phase.again))).(lock := Stripped(s))
    case Remove => s.Go(p, if phase.again then Seeking else Done).(lock := None)
  }

  /** The phase a claim leads to: a match is swept, a mismatch goes back. */
  function AfterInspect(seen: Lock, claim: nat, claimed: Lock): Phase {
    if seen.owner.Some? && claimed.owner != seen.owner then Restoring(seen, claim)
    else if claimed.owner.Some? then Sweeping(seen, claim, claimed.owner.value)
    else Dropping(seen, claim)
  }

  function AfterReclaim(s: State, p: Operation, reclaim: ReclaimStep): (r: State)
    requires p in s.phases && CanReclaim(s, p, reclaim)
    ensures Frame(s, r, p) && r == s.(lock := r.lock, claims := r.claims, phases := r.phases)
  {
    var phase := s.phases[p];
    match reclaim
    case Claim(claim) =>
      s.Go(p, Claimed(phase.seen, claim)).(lock := None, claims := s.claims[claim := s.lock.value])
    case Inspect => s.Go(p, AfterInspect(phase.seen, phase.claim, s.claims[phase.claim]))
    case Restore => s.Go(p, Seeking).(lock := Some(s.claims[phase.claim]), claims := s.claims - {phase.claim})
    case KeepClaim => s.Go(p, if s.claims[phase.claim].owner.None? then Dropping(phase.seen, phase.claim) else Seeking)
    case Drop => s.Go(p, Seeking).(claims := s.claims - {phase.claim})
  }

  function AfterSweep(s: State, p: Operation, sweep: SweepStep): (r: State)
    requires p in s.phases && CanSweep(s, p, sweep)
    ensures Frame(s, r, p) && r == s.(staging := r.staging, phases := r.phases)
  {
    var phase := s.phases[p];
    match sweep
    case SkipSweep => s.Go(p, Dropping(phase.seen, phase.claim))
    case BeginSweep => s.Go(p, Wiping(phase.seen, phase.claim, phase.target))
    case WipeFile(file) =>
      s.Go(p, phase).(staging := s.staging[phase.target := Removed(s.staging[phase.target], file)])
    case WipeEnd => s.Go(p, Dropping(phase.seen, phase.claim)).(staging := s.staging - {phase.target})
  }

  function AfterFill(s: State, p: Operation, fill: FillStep): (r: State)
    requires p in s.phases && CanFill(s, p, fill)
    ensures Frame(s, r, p) && OwnStaging(s, r, p) && r == s.(staging := r.staging, phases := r.phases)
  {
    match fill
    case MakeStaging => s.Put(p, EMPTY, Made)
    case WriteMarker => s.Put(p, s.staging[p].(marker := Some(p)), Marked)
    case CopyBase => s.Put(p, s.staging[p].(database := Some(s.base)), Copied)
    case Mutate(bytes) => s.Put(p, s.staging[p].(database := Some(bytes)), Mutated)
    case Describe(bytes) => s.Put(p, s.staging[p].(descriptor := Some(bytes)), Described)
  }

  function AfterFinish(checks: Checks, s: State, p: Operation, finish: FinishStep): (r: State)
    requires p in s.phases && CanFinish(checks, s, p, finish)
    ensures Frame(s, r, p) && OwnStaging(s, r, p) && r == s.(staging := r.staging, phases := r.phases)
  {
    var phase := s.phases[p];
    match finish
    case Check => s.Go(p, Checked(s.staging[p].database.value, s.staging[p].descriptor.value))
    case Unmark => s.Put(p, s.staging[p].(marker := None), Ready(phase.database, phase.descriptor))
    case Fail => s.Go(p, Wrecking)
    case WreckFile(file) => s.Put(p, Removed(s.staging[p], file), Wrecking)
    case WreckEnd => s.Go(p, Releasing).(staging := s.staging - {p})
  }

  function AfterSettle(checks: Checks, s: State, p: Operation, settle: SettleStep): (r: State)
    requires p in s.phases && CanSettle(checks, s, p, settle)
    ensures Frame(s, r, p) && OwnStaging(s, r, p)
    ensures r == s.(staging := r.staging, published := r.published, quarantined := r.quarantined, phases := r.phases)
  {
    match settle
    case LookForHit => s.Go(p, if s.published.Some? then Verifying else Preparing)
    case Hit => s.Go(p, Releasing)
    case Reject => s.Go(p, Quarantining)
    case Quarantine =>
      if s.published.None? then s.Go(p, Releasing)
      else s.Go(p, Preparing).(published := None, quarantined := s.quarantined + [s.published.value])
    case Publish => s.Go(p, Releasing).(published := Some(s.staging[p]), staging := s.staging - {p})
    case Release => s.Go(p, if s.lock.Some? && s.lock.value.owner == Some(p) then Unlocking else Done)
  }

  function After(checks: Checks, s: State, e: Event): State
    requires Enabled(checks, s, e)
  {
    match e
    case Start(p) => s.Go(p, Seeking)
    case Tick(elapsed) => s.(now := s.now + elapsed)
    case Crash(p) => s.(dead := s.dead + {p})
    case Look(p, look) => AfterLook(s, p, look)
    case Take(p, take) => AfterTake(s, p, take)
    case Reclaim(p, reclaim) => AfterReclaim(s, p, reclaim)
    case Sweep(p, sweep) => AfterSweep(s, p, sweep)
    case Fill(p, fill) => AfterFill(s, p, fill)
    case Finish(p, finish) => AfterFinish(checks, s, p, finish)
    case Settle(p, settle) => AfterSettle(checks, s, p, settle)
  }

  // ---- runs --------------------------------------------------------------------------------

  /** `states` is a run: it starts initial and every step is enabled. */
  predicate IsRun(checks: Checks, states: seq<State>, events: seq<Event>) {
    && |states| == |events| + 1 && Initial(states[0])
    && forall i :: 0 <= i < |events| ==>
         Enabled(checks, states[i], events[i]) && states[i + 1] == After(checks, states[i], events[i])
  }

  predicate Claims(e: Event) {
    e.Reclaim? && e.reclaim.Claim?
  }

  predicate Drops(e: Event) {
    e.Reclaim? && e.reclaim.Drop?
  }

  predicate Publishes(e: Event) {
    e.Settle? && e.settle.Publish?
  }

  /** A reclaimer picks up a lock that does not name whom it observed. */
  predicate Mismatched(s: State, e: Event) {
    && Claims(e) && e.p in s.phases && s.phases[e.p].Observed? && s.lock.Some?
    && s.lock.value.owner != s.phases[e.p].seen.owner
  }

  /** A reclaimer that observed no owner picks up an owned lock. */
  predicate Blind(s: State, e: Event) {
    Mismatched(s, e) && s.phases[e.p].seen.owner.None?
  }

  /** A reclaimer picks up an unnamed lock while a living build is between two calls on one. */
  ghost predicate Interrupts(s: State, e: Event) {
    Claims(e) && s.Unnamed() && exists q :: s.Lives(q) && Tending(s.phases[q])
  }

  /** Somebody living works with this lock: the build it names, or whoever is between two calls on it. */
  ghost predicate InUse(s: State, lock: Lock) {
    if lock.owner.Some? then s.Lives(lock.owner.value) else exists q :: s.Lives(q) && Tending(s.phases[q])
  }

  /** A reclaimer moves aside a lock that a living build holds, or an unnamed one a living build tends. */
  ghost predicate Robs(s: State, e: Event) {
    && Claims(e) && s.lock.Some?
    && match s.lock.value.owner
       case Some(q) => s.Lives(q) && Holding(s.phases[q])
       case None => exists q :: s.Lives(q) && Tending(s.phases[q])
  }

  /** A sweep deletes a file of a living build that has passed its checks and not yet published. */
  predicate Tampers(s: State, e: Event, q: Operation) {
    && e.Sweep? && e.sweep.WipeFile? && !e.sweep.file.Marker?
    && e.p in s.phases && TargetOf(s.phases[e.p]) == Some(q)
    && s.Lives(q) && Vetting(s.phases[q])
  }

  /** An unnamed lock directory has become old enough to be reclaimed. */
  predicate Forsaken(s: State) {
    s.Unnamed() && s.lock.value.touched + STALE <= s.now
  }
}
