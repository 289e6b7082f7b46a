/**
 The two-file lock of the durable store: a primary lock, and a reclaim guard taken before the primary lock is created,
 reclaimed or released. Each step is one file operation of one thread; processes may crash between any two of them.
 */
module LockProtocol {
  import opened Wrappers
  import opened DurableStore

  /** A lock file: its inode stands for the owner token written into it, `written` says that the metadata is there. */
  datatype File = File(inode: nat, owner: nat, written: bool)

  /** Why a thread takes the reclaim guard. */
  datatype Purpose = Acquiring | Reclaiming | Releasing(lock: nat)

  /** What a thread does after it gave the reclaim guard back. */
  datatype Next = Enter(lock: nat) | Retry | Reclaim | ReleaseAgain(lock: nat) | Leave

  datatype PC =
    | Outside
    | OpeningGuard(purpose: Purpose)
    | WritingGuard(purpose: Purpose, guard: nat)
    | CheckingGuard(purpose: Purpose, guard: nat)
    | OpeningLock(guard: nat)
    | WritingLock(guard: nat, lock: nat)
    | LockWriteFailed(guard: nat, lock: nat)
    | RemovingUnwritten(guard: nat, lock: nat)
    | InspectingLock(guard: nat)
    | LinkingLock(guard: nat, stale: File)
    | ComparingQuarantine(guard: nat, stale: File, linked: File)
    | CheckingReclaimer(guard: nat, stale: File)
    | ComparingPrimary(guard: nat, stale: File)
    | RemovingStale(guard: nat, stale: File)
    | ReadingLock(guard: nat, lock: nat)
    | CheckingReleaser(guard: nat, lock: nat)
    | RemovingLock(guard: nat, lock: nat)
    | ReadingGuard(guard: nat, next: Next)
    | RemovingGuard(guard: nat, next: Next)
    | ReadingState(lock: nat)
    | CheckingLock(lock: nat, seen: DurableState)
    | RenamingState(lock: nat, seen: DurableState)

  datatype Thread = Thread(pid: nat, op: StoreOp, pc: PC)

  datatype State = State(alive: set<nat>, threads: map<nat, Thread>, guard: Option<File>, lock: Option<File>, nextInode: nat, file: DurableState)

  /**
   What a step finds out about time and input-output: `aged` that a file is older than the stale limit, `renewed` that a
   heartbeat touched the compared file in between, `fails` that the file operation of the step failed where the step can
   (writing metadata, and reading or writing the state), `again` that retries are left.
   */
  datatype Input = Input(aged: bool, renewed: bool, fails: bool, again: bool, writes: bool)

  predicate Live(s: State, t: nat) {
    t in s.threads && s.threads[t].pid in s.alive
  }

  predicate Dead(s: State, t: nat) {
    t in s.threads && s.threads[t].pid !in s.alive
  }

  /** No metadata, or metadata of a process that no longer runs. */
  predicate Stale(s: State, f: File) {
    !f.written || Dead(s, f.owner)
  }

  /** Where a thread goes, and the two lock files and the inode counter it leaves behind. */
  datatype Effect = Effect(pc: PC, guard: Option<File>, lock: Option<File>, nextInode: nat, file: DurableState)

  function Only(s: State, pc: PC): Effect {
    Effect(pc, s.guard, s.lock, s.nextInode, s.file)
  }

  function OwnFile(f: Option<File>, inode: nat): bool {
    f.Some? && f.value.inode == inode && f.value.written
  }

  function Written(f: Option<File>, inode: nat): Option<File> {
    if f.Some? && f.value.inode == inode then Some(f.value.(written := true)) else f
  }

  /** `acquireReclaimGuard` returned null. */
  function WithoutGuard(purpose: Purpose, x: Input): PC {
    match purpose
    case Acquiring => if x.again then OpeningGuard(Acquiring) else Outside
    case Reclaiming => if x.again then OpeningGuard(Acquiring) else Outside
    case Releasing(l) => OpeningGuard(Releasing(l))
  }

  function GuardTaken(purpose: Purpose, g: nat): PC {
    if purpose.Reclaiming? then InspectingLock(g) else CheckingGuard(purpose, g)
  }

  /** Creating, writing, checking and giving back the reclaim guard. */
  function StepGuard(s: State, t: nat, pc: PC, x: Input): Effect {
    match pc
    case OpeningGuard(purpose) =>
      if s.guard.None? then Only(s, WritingGuard(purpose, s.nextInode)).(guard := Some(File(s.nextInode, t, false)), nextInode := s.nextInode + 1)
      else if x.aged && Stale(s, s.guard.value) then Only(s, WithoutGuard(purpose, x)).(guard := None)
      else Only(s, WithoutGuard(purpose, x))
    case WritingGuard(purpose, g) =>
      if x.fails then Only(s, Outside).(guard := None)
      else Only(s, GuardTaken(purpose, g)).(guard := Written(s.guard, g))
    case CheckingGuard(purpose, g) =>
      if !OwnFile(s.guard, g) then Only(s, ReadingGuard(g, if purpose.Releasing? then ReleaseAgain(purpose.lock) else Retry))
      else if purpose.Releasing? then Only(s, ReadingLock(g, purpose.lock))
      else Only(s, OpeningLock(g))
    case ReadingGuard(g, next) =>
      Only(s, if OwnFile(s.guard, g) then RemovingGuard(g, next) else AfterGuard(next, x))
    case RemovingGuard(_, next) =>
      Only(s, AfterGuard(next, x)).(guard := None)
    case _ => Only(s, pc)
  }

  function AfterGuard(next: Next, x: Input): PC {
    match next
    case Enter(l) => ReadingState(l)
    case Retry => if x.again then OpeningGuard(Acquiring) else Outside
    case Reclaim => OpeningGuard(Reclaiming)
    case ReleaseAgain(l) => OpeningGuard(Releasing(l))
    case Leave => Outside
  }

  /** Creating the primary lock under the guard. */
  function StepAcquire(s: State, t: nat, pc: PC, x: Input): Effect {
    match pc
    case OpeningLock(g) =>
      if s.lock.Some? then Only(s, ReadingGuard(g, Reclaim))
      else Only(s, WritingLock(g, s.nextInode)).(lock := Some(File(s.nextInode, t, false)), nextInode := s.nextInode + 1)
    case WritingLock(g, l) =>
      if x.fails then Only(s, LockWriteFailed(g, l))
      else Only(s, ReadingGuard(g, Enter(l))).(lock := Written(s.lock, l))
    case LockWriteFailed(g, l) =>
      Only(s, if OwnFile(s.guard, g) then RemovingUnwritten(g, l) else ReadingGuard(g, Leave))
    case RemovingUnwritten(g, _) =>
      Only(s, ReadingGuard(g, Leave)).(lock := None)
    case _ => Only(s, pc)
  }

  /** `reclaimStaleLock` between taking and giving back the guard. */
  function StepReclaim(s: State, pc: PC, x: Input): Effect {
    match pc
    case InspectingLock(g) =>
      Only(s, if s.lock.Some? && x.aged && Stale(s, s.lock.value) then LinkingLock(g, s.lock.value) else ReadingGuard(g, Retry))
    case LinkingLock(g, stale) =>
      Only(s, if s.lock.Some? then ComparingQuarantine(g, stale, s.lock.value) else ReadingGuard(g, Retry))
    case ComparingQuarantine(g, stale, linked) =>
      Only(s, if !x.renewed && linked == stale then CheckingReclaimer(g, stale) else ReadingGuard(g, Retry))
    case CheckingReclaimer(g, stale) =>
      Only(s, if OwnFile(s.guard, g) then ComparingPrimary(g, stale) else ReadingGuard(g, Retry))
    case ComparingPrimary(g, stale) =>
      Only(s, if !x.renewed && s.lock == Some(stale) then RemovingStale(g, stale) else ReadingGuard(g, Retry))
    case RemovingStale(g, _) =>
      Only(s, ReadingGuard(g, Retry)).(lock := None)
    case _ => Only(s, pc)
  }

  /** `releaseOwnedLock` between taking and giving back the guard. */
  function StepRelease(s: State, pc: PC): Effect {
    match pc
    case ReadingLock(g, l) =>
      Only(s, if OwnFile(s.lock, l) then CheckingReleaser(g, l) else ReadingGuard(g, Leave))
    case CheckingReleaser(g, l) =>
      Only(s, if OwnFile(s.guard, g) then RemovingLock(g, l) else ReadingGuard(g, ReleaseAgain(l)))
    case RemovingLock(g, _) =>
      Only(s, ReadingGuard(g, Leave)).(lock := None)
    case _ => Only(s, pc)
  }

  /**
   The operation: read the state file, and to write, check the lock once more and rename the new file over it. Reading the
   state, writing the temporary file and renaming it may throw, and the lock is released then too. A failure to flush the
   directory after the rename is thrown as well, but the renamed file stays in place: for the files that is a success.
   */
  ghost function StepOperation(s: State, op: StoreOp, pc: PC, x: Input): Effect {
    match pc
    case ReadingState(l) =>
      Only(s, if !x.fails && (x.writes || Apply(s.file, op) != s.file) then CheckingLock(l, s.file) else OpeningGuard(Releasing(l)))
    case CheckingLock(l, seen) =>
      Only(s, if !x.fails && OwnFile(s.lock, l) then RenamingState(l, seen) else OpeningGuard(Releasing(l)))
    case RenamingState(l, seen) =>
      if x.fails then Only(s, OpeningGuard(Releasing(l))) else Only(s, OpeningGuard(Releasing(l))).(file := Apply(seen, op))
    case _ => Only(s, pc)
  }

  predicate InGuard(pc: PC) {
    pc.OpeningGuard? || pc.WritingGuard? || pc.CheckingGuard? || pc.ReadingGuard? || pc.RemovingGuard?
  }

  predicate InAcquire(pc: PC) {
    pc.OpeningLock? || pc.WritingLock? || pc.LockWriteFailed? || pc.RemovingUnwritten?
  }

  predicate InReclaim(pc: PC) {
    pc.InspectingLock? || pc.LinkingLock? || pc.ComparingQuarantine? || pc.CheckingReclaimer? || pc.ComparingPrimary? || pc.RemovingStale?
  }

  predicate InRelease(pc: PC) {
    pc.ReadingLock? || pc.CheckingReleaser? || pc.RemovingLock?
  }

  /** After a successful ownership check of the guard, until the guard is given back: the code that changes the lock. */
  predicate Guarded(pc: PC) {
    InAcquire(pc) || pc.ComparingPrimary? || pc.RemovingStale? || InRelease(pc) || pc.RemovingGuard?
  }

  /** Inside the callback that `withLock` runs. */
  predicate InOperation(pc: PC) {
    pc.ReadingState? || pc.CheckingLock? || pc.RenamingState?
  }

  ghost function EffectOf(s: State, t: nat, x: Input): Effect
    requires t in s.threads
  {
    var pc := s.threads[t].pc;
    if InGuard(pc) then StepGuard(s, t, pc, x)
    else if InAcquire(pc) then StepAcquire(s, t, pc, x)
    else if InReclaim(pc) then StepReclaim(s, pc, x)
    else if InRelease(pc) then StepRelease(s, pc)
    else if InOperation(pc) then StepOperation(s, s.threads[t].op, pc, x)
    else Only(s, pc)
  }

  function Moved(s: State, t: nat, e: Effect): State
    requires t in s.threads
  {
    s.(threads := s.threads[t := s.threads[t].(pc := e.pc)], guard := e.guard, lock := e.lock, nextInode := e.nextInode, file := e.file)
  }

  // ----- runs -----

  /** `Call` starts one locked operation in a process that runs, `Crash` ends a process with everything it was doing. */
  datatype Event = Call(t: nat, pid: nat, op: StoreOp) | Step(t: nat, x: Input) | Crash(pid: nat)

  /**
   A failed metadata write removes whatever guard file is in place. That does no harm as long as no live thread has
   checked the guard and still relies on it.
   */
  ghost predicate FailsHarmlessly(s: State, t: nat, x: Input)
    requires t in s.threads
  {
    s.threads[t].pc.WritingGuard? && x.fails ==> forall u :: Live(s, u) ==> !Guarded(s.threads[u].pc)
  }

  predicate Possible(s: State, e: Event) {
    match e
    case Call(t, pid, _) => t !in s.threads && pid in s.alive
    case Step(t, _) => Live(s, t)
    case Crash(pid) => pid in s.alive
  }

  ghost function After1(s: State, e: Event): State
    requires Possible(s, e)
  {
    match e
    case Call(t, pid, op) => s.(threads := s.threads[t := Thread(pid, op, OpeningGuard(Acquiring))])
    case Step(t, x) => Moved(s, t, EffectOf(s, t, x))
    case Crash(pid) => s.(alive := s.alive - {pid})
  }

  predicate Initial(s: State) {
    s.threads == map[] && s.guard == None && s.lock == None && s.file == EMPTY_STATE
  }

  /** A run from no lock files and an empty store, over any processes and interleaving. */
  ghost predicate Run(states: seq<State>, events: seq<Event>) {
    && |states| == |events| + 1 && Initial(states[0])
    && forall n :: 0 <= n < |events| ==> Possible(states[n], events[n]) && states[n + 1] == After1(states[n], events[n])
  }

  ghost predicate FailuresHarmless(states: seq<State>, events: seq<Event>)
    requires Run(states, events)
  {
    forall n :: 0 <= n < |events| && events[n].Step? ==> FailsHarmlessly(states[n], events[n].t, events[n].x)
  }
}
