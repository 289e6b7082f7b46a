/**
 The lock excludes: at most one live thread is inside its operation, a stale lock is removed only after its process died,
 a live owner keeps its lock, and therefore every locked read-modify-write takes effect as one atomic store operation.
 */
module LockSafety {
  import opened Wrappers
  import opened DurableStore
  import opened LockProtocol

  // ----- what a program counter says about the lock files -----

  /** The guard file this thread created. */
  function GuardOf(pc: PC): Option<nat> {
    if pc.Outside? || pc.OpeningGuard? || InOperation(pc) then None else Some(pc.guard)
  }

  /** The primary lock this thread created and has not yet tried to remove. */
  function LockOf(pc: PC): Option<nat> {
    match pc
    case OpeningGuard(p) => if p.Releasing? then Some(p.lock) else None
    case WritingGuard(p, _) => if p.Releasing? then Some(p.lock) else None
    case CheckingGuard(p, _) => if p.Releasing? then Some(p.lock) else None
    case ReadingGuard(_, next) => if next.Enter? || next.ReleaseAgain? then Some(next.lock) else None
    case RemovingGuard(_, next) => if next.Enter? || next.ReleaseAgain? then Some(next.lock) else None
    case _ => if Creating(pc) || InRelease(pc) || InOperation(pc) then Some(pc.lock) else None
  }

  /** Between creating the primary lock and writing its metadata. */
  predicate Creating(pc: PC) {
    pc.WritingLock? || pc.LockWriteFailed? || pc.RemovingUnwritten?
  }

  function StaleOf(pc: PC): Option<File> {
    if InReclaim(pc) && !pc.InspectingLock? then Some(pc.stale) else None
  }

  // ----- the invariant -----

  predicate Below(inode: Option<nat>, next: nat) {
    inode.Some? ==> inode.value < next
  }

  predicate FileFresh(s: State, f: Option<File>) {
    f.Some? ==> f.value.inode < s.nextInode && f.value.owner in s.threads
  }

  ghost predicate Fresh(s: State) {
    && FileFresh(s, s.guard) && FileFresh(s, s.lock)
    && forall t :: t in s.threads ==> Below(GuardOf(s.threads[t].pc), s.nextInode) && Below(LockOf(s.threads[t].pc), s.nextInode)
  }

  ghost predicate GuardsDistinct(s: State) {
    forall t, u :: t in s.threads && u in s.threads && t != u && GuardOf(s.threads[t].pc).Some? ==>
      GuardOf(s.threads[u].pc) != GuardOf(s.threads[t].pc)
  }

  /** The guard file in place belongs to the thread that created it. */
  ghost predicate GuardOwned(s: State) {
    s.guard.Some? ==> forall t :: t in s.threads && GuardOf(s.threads[t].pc) == Some(s.guard.value.inode) ==> s.guard.value.owner == t
  }

  ghost predicate GuardHeld(s: State) {
    forall t :: Live(s, t) && Guarded(s.threads[t].pc) ==> s.guard == Some(File(s.threads[t].pc.guard, t, true))
  }

  ghost predicate LockHeld(s: State) {
    forall t :: Live(s, t) && LockOf(s.threads[t].pc).Some? ==>
      s.lock == Some(File(LockOf(s.threads[t].pc).value, t, !Creating(s.threads[t].pc)))
  }

  /** A lock without metadata is one that its live thread is about to write or to remove. */
  predicate UnwrittenAccounted(s: State) {
    s.lock.Some? && !s.lock.value.written && Live(s, s.lock.value.owner) ==> Creating(s.threads[s.lock.value.owner].pc)
  }

  /** A snapshot taken by a reclaiming thread is of a lock whose owner is dead or of one without metadata. */
  ghost predicate SnapshotsStale(s: State) {
    forall t :: t in s.threads && StaleOf(s.threads[t].pc).Some? ==> Stale(s, StaleOf(s.threads[t].pc).value)
  }

  ghost predicate RemovalAimed(s: State) {
    forall t :: Live(s, t) && s.threads[t].pc.RemovingStale? ==> s.lock == Some(s.threads[t].pc.stale)
  }

  predicate HoldsSeen(pc: PC) {
    pc.CheckingLock? || pc.RenamingState?
  }

  /** What a live thread read is still what the state file holds. */
  ghost predicate SeenCurrent(s: State) {
    forall t :: Live(s, t) && HoldsSeen(s.threads[t].pc) ==> s.threads[t].pc.seen == s.file
  }

  ghost predicate LockInv(s: State) {
    && Fresh(s) && GuardsDistinct(s) && GuardOwned(s) && GuardHeld(s) && LockHeld(s) && UnwrittenAccounted(s)
    && SnapshotsStale(s) && RemovalAimed(s) && SeenCurrent(s)
  }

  /** Two live threads never both hold a checked guard. */
  lemma {:induction false} GuardExcludes(s: State, t: nat, u: nat)
    requires GuardHeld(s) && Live(s, t) && Live(s, u) && Guarded(s.threads[t].pc) && Guarded(s.threads[u].pc)
    ensures t == u
  {
  }

  /** Two live threads never both own the primary lock. */
  lemma {:induction false} LockExcludes(s: State, t: nat, u: nat)
    requires LockHeld(s) && Live(s, t) && Live(s, u) && LockOf(s.threads[t].pc).Some? && LockOf(s.threads[u].pc).Some?
    ensures t == u
  {
  }

  // ----- one step of one thread keeps the invariant -----

  /** The facts about one step that its preservation proofs share. */
  ghost predicate Steps(s: State, t: nat, x: Input) {
    LockInv(s) && Live(s, t) && FailsHarmlessly(s, t, x)
  }

  /** What a live thread at `pc` knows about the lock files. */
  predicate OwnFacts(guard: Option<File>, lock: Option<File>, nextInode: nat, t: nat, pc: PC) {
    && Below(GuardOf(pc), nextInode) && Below(LockOf(pc), nextInode)
    && (Guarded(pc) ==> guard == Some(File(pc.guard, t, true)))
    && (LockOf(pc).Some? ==> lock == Some(File(LockOf(pc).value, t, !Creating(pc))))
  }

  ghost predicate OwnFactsKept(s: State, t: nat, pc: PC, e: Effect) {
    && s.nextInode <= e.nextInode
    && OwnFacts(s.guard, s.lock, s.nextInode, t, pc)
    && (GuardOf(pc).Some? && s.guard.Some? && s.guard.value.inode == GuardOf(pc).value ==> s.guard.value.owner == t)
    ==> OwnFacts(e.guard, e.lock, e.nextInode, t, e.pc)
  }

  lemma {:induction false} GuardStepKeepsOwnFacts(s: State, t: nat, pc: PC, x: Input)
    requires InGuard(pc)
    ensures OwnFactsKept(s, t, pc, StepGuard(s, t, pc, x))
  {
  }

  lemma {:induction false} AcquireStepKeepsOwnFacts(s: State, t: nat, pc: PC, x: Input)
    requires InAcquire(pc)
    ensures OwnFactsKept(s, t, pc, StepAcquire(s, t, pc, x))
  {
  }

  lemma {:induction false} ReclaimStepKeepsOwnFacts(s: State, t: nat, pc: PC, x: Input)
    requires InReclaim(pc)
    ensures OwnFactsKept(s, t, pc, StepReclaim(s, pc, x))
  {
  }

  lemma {:induction false} ReleaseStepKeepsOwnFacts(s: State, t: nat, pc: PC)
    requires InRelease(pc)
    ensures OwnFactsKept(s, t, pc, StepRelease(s, pc))
  {
  }

  lemma {:induction false} OperationStepKeepsOwnFacts(s: State, t: nat, op: StoreOp, pc: PC, x: Input)
    requires InOperation(pc)
    ensures OwnFactsKept(s, t, pc, StepOperation(s, op, pc, x))
  {
  }

  /** A step keeps what the stepping thread knows. */
  lemma {:induction false} StepKeepsOwnFacts(s: State, t: nat, x: Input)
    requires Steps(s, t, x)
    ensures var e := EffectOf(s, t, x); s.nextInode <= e.nextInode && OwnFacts(e.guard, e.lock, e.nextInode, t, e.pc)
  {
    var pc := s.threads[t].pc;
    InodesGrow(s, t, x);
    assert OwnFacts(s.guard, s.lock, s.nextInode, t, pc);
    if InGuard(pc) { GuardStepKeepsOwnFacts(s, t, pc, x); }
    else if InAcquire(pc) { AcquireStepKeepsOwnFacts(s, t, pc, x); }
    else if InReclaim(pc) { ReclaimStepKeepsOwnFacts(s, t, pc, x); }
    else if InRelease(pc) { ReleaseStepKeepsOwnFacts(s, t, pc); }
    else if InOperation(pc) { OperationStepKeepsOwnFacts(s, t, s.threads[t].op, pc, x); }
  }

  lemma {:induction false} InodesGrow(s: State, t: nat, x: Input)
    requires t in s.threads
    ensures s.nextInode <= EffectOf(s, t, x).nextInode
  {
  }

  lemma {:induction false} StepKeepsFresh(s: State, t: nat, x: Input)
    requires Steps(s, t, x)
    ensures Fresh(Moved(s, t, EffectOf(s, t, x)))
  {
    InodesGrow(s, t, x);
    GuardMoves(s, t, x);
    LockShapes(s, t, x);
    StepKeepsOwnFacts(s, t, x);
  }

  /** A thread either keeps its guard file, drops it, or creates a new one. */
  lemma {:induction false} GuardOfMoves(s: State, t: nat, x: Input)
    requires t in s.threads
    ensures var e := EffectOf(s, t, x);
            GuardOf(e.pc) in {None, GuardOf(s.threads[t].pc)} ||
            (GuardOf(e.pc) == Some(s.nextInode) && e.guard == Some(File(s.nextInode, t, false)))
  {
  }

  lemma {:induction false} StepKeepsGuardsDistinct(s: State, t: nat, x: Input)
    requires Fresh(s) && GuardsDistinct(s) && t in s.threads
    ensures GuardsDistinct(Moved(s, t, EffectOf(s, t, x)))
  {
    GuardOfMoves(s, t, x);
  }

  /** The guard file in place after a step: the same, the same with metadata, none, or a new one of this thread. */
  lemma {:induction false} GuardMoves(s: State, t: nat, x: Input)
    requires t in s.threads
    ensures var e := EffectOf(s, t, x);
            || e.guard == s.guard || e.guard == None
            || (s.threads[t].pc.WritingGuard? && e.guard == Written(s.guard, s.threads[t].pc.guard))
            || (e.guard == Some(File(s.nextInode, t, false)) && GuardOf(e.pc) == Some(s.nextInode) && e.nextInode == s.nextInode + 1)
  {
  }

  lemma {:induction false} StepKeepsGuardOwned(s: State, t: nat, x: Input)
    requires Fresh(s) && GuardsDistinct(s) && GuardOwned(s) && t in s.threads
    ensures GuardOwned(Moved(s, t, EffectOf(s, t, x)))
  {
    GuardOfMoves(s, t, x);
    GuardMoves(s, t, x);
  }

  /** A live thread with a checked guard keeps it while another thread steps. */
  lemma {:induction false} OthersKeepGuard(s: State, t: nat, x: Input, u: nat)
    requires Steps(s, t, x) && Live(s, u) && u != t && Guarded(s.threads[u].pc)
    ensures EffectOf(s, t, x).guard == s.guard
  {
    assert s.guard == Some(File(s.threads[u].pc.guard, u, true));
    assert GuardOf(s.threads[t].pc) != GuardOf(s.threads[u].pc);
  }

  lemma {:induction false} StepKeepsGuardHeld(s: State, t: nat, x: Input)
    requires Steps(s, t, x)
    ensures GuardHeld(Moved(s, t, EffectOf(s, t, x)))
  {
    var m := Moved(s, t, EffectOf(s, t, x));
    forall u | Live(m, u) && Guarded(m.threads[u].pc) ensures m.guard == Some(File(m.threads[u].pc.guard, u, true)) {
      if u == t { StepKeepsOwnFacts(s, t, x); } else { OthersKeepGuard(s, t, x, u); }
    }
  }

  /** The primary lock changes only under a checked guard. */
  lemma {:induction false} LockMoves(s: State, t: nat, x: Input)
    requires t in s.threads && EffectOf(s, t, x).lock != s.lock
    ensures Guarded(s.threads[t].pc)
    ensures var pc := s.threads[t].pc;
            || (pc.OpeningLock? && s.lock.None?) || pc.RemovingStale?
            || ((Creating(pc) || InRelease(pc)) && LockOf(pc).Some?)
  {
  }

  /** A live owner keeps its lock while another thread steps. */
  lemma {:induction false} OthersKeepLock(s: State, t: nat, x: Input, u: nat)
    requires Steps(s, t, x) && Live(s, u) && u != t && LockOf(s.threads[u].pc).Some?
    ensures EffectOf(s, t, x).lock == s.lock
  {
    if EffectOf(s, t, x).lock != s.lock { LockMoves(s, t, x); }
  }

  lemma {:induction false} StepKeepsLockHeld(s: State, t: nat, x: Input)
    requires Steps(s, t, x)
    ensures LockHeld(Moved(s, t, EffectOf(s, t, x)))
  {
    var m := Moved(s, t, EffectOf(s, t, x));
    forall u | Live(m, u) && LockOf(m.threads[u].pc).Some?
      ensures m.lock == Some(File(LockOf(m.threads[u].pc).value, u, !Creating(m.threads[u].pc)))
    {
      if u == t { StepKeepsOwnFacts(s, t, x); } else { OthersKeepLock(s, t, x, u); }
    }
  }

  /** The primary lock after a step: the same, the same with metadata, none, or a new one of this thread. */
  lemma {:induction false} LockShapes(s: State, t: nat, x: Input)
    requires t in s.threads
    ensures var e, pc := EffectOf(s, t, x), s.threads[t].pc;
            || e.lock == s.lock || e.lock == None
            || (pc.WritingLock? && e.lock == Written(s.lock, pc.lock))
            || (e.lock == Some(File(s.nextInode, t, false)) && Creating(e.pc) && e.nextInode == s.nextInode + 1)
  {
  }

  lemma {:induction false} CreatingEnds(s: State, t: nat, x: Input)
    requires t in s.threads && Creating(s.threads[t].pc) && !Creating(EffectOf(s, t, x).pc)
    ensures var e, pc := EffectOf(s, t, x), s.threads[t].pc;
            e.lock == None || e.lock == Written(s.lock, pc.lock) || !OwnFile(s.guard, pc.guard)
  {
  }

  lemma {:induction false} StepKeepsUnwrittenAccounted(s: State, t: nat, x: Input)
    requires Steps(s, t, x)
    ensures UnwrittenAccounted(Moved(s, t, EffectOf(s, t, x)))
  {
    LockShapes(s, t, x);
    if Creating(s.threads[t].pc) && !Creating(EffectOf(s, t, x).pc) { CreatingEnds(s, t, x); }
    AccountedElsewhere(s, t, EffectOf(s, t, x));
  }

  lemma {:induction false} AccountedElsewhere(s: State, t: nat, e: Effect)
    requires Live(s, t) && UnwrittenAccounted(s)
    requires e.lock.Some? && !e.lock.value.written ==> e.lock == s.lock || (e.lock.value.owner == t && Creating(e.pc))
    requires Creating(s.threads[t].pc) && !Creating(e.pc) ==> e.lock.None? || e.lock.value.written || e.lock.value.owner != t
    ensures UnwrittenAccounted(Moved(s, t, e))
  {
  }

  lemma {:induction false} StepKeepsSnapshotsStale(s: State, t: nat, x: Input)
    requires Steps(s, t, x)
    ensures SnapshotsStale(Moved(s, t, EffectOf(s, t, x)))
  {
    var m := Moved(s, t, EffectOf(s, t, x));
    forall u | u in m.threads && StaleOf(m.threads[u].pc).Some? ensures Stale(m, StaleOf(m.threads[u].pc).value) {
      if u != t { assert Stale(s, StaleOf(s.threads[u].pc).value); }
      else { OwnSnapshotStale(s, t, x); }
    }
  }

  lemma {:induction false} OwnSnapshotStale(s: State, t: nat, x: Input)
    requires Steps(s, t, x) && StaleOf(EffectOf(s, t, x).pc).Some?
    ensures Stale(s, StaleOf(EffectOf(s, t, x).pc).value)
  {
    OnlyReclaimSnapshots(s, t, x);
    var pc := s.threads[t].pc;
    if StaleOf(pc).Some? { assert Stale(s, StaleOf(pc).value); }
  }

  lemma {:induction false} OnlyReclaimSnapshots(s: State, t: nat, x: Input)
    requires t in s.threads && StaleOf(EffectOf(s, t, x).pc).Some?
    ensures var pc := s.threads[t].pc;
            InReclaim(pc) && StaleOf(EffectOf(s, t, x).pc) == if pc.InspectingLock? then s.lock else StaleOf(pc)
    ensures s.threads[t].pc.InspectingLock? ==> Stale(s, s.lock.value)
  {
  }

  lemma {:induction false} OnlyComparingAims(s: State, t: nat, x: Input)
    requires t in s.threads && EffectOf(s, t, x).pc.RemovingStale?
    ensures EffectOf(s, t, x).lock == s.lock && s.lock == Some(EffectOf(s, t, x).pc.stale)
  {
  }

  lemma {:induction false} StepKeepsRemovalAimed(s: State, t: nat, x: Input)
    requires Steps(s, t, x)
    ensures RemovalAimed(Moved(s, t, EffectOf(s, t, x)))
  {
    var e := EffectOf(s, t, x);
    if e.lock != s.lock { LockMoves(s, t, x); }
    if e.pc.RemovingStale? { OnlyComparingAims(s, t, x); }
    AimsElsewhere(s, t, x, e);
  }

  lemma {:induction false} AimsElsewhere(s: State, t: nat, x: Input, e: Effect)
    requires GuardHeld(s) && RemovalAimed(s) && Live(s, t)
    requires e.lock != s.lock ==> Guarded(s.threads[t].pc)
    requires e.pc.RemovingStale? ==> e.lock == Some(e.pc.stale)
    ensures RemovalAimed(Moved(s, t, e))
  {
  }

  /** The state file changes only when the owner of the lock renames the new state over it. */
  lemma {:induction false} FileMoves(s: State, t: nat, x: Input)
    requires t in s.threads
    ensures var pc, e := s.threads[t].pc, EffectOf(s, t, x);
            e.file == if pc.RenamingState? && !x.fails then Apply(pc.seen, s.threads[t].op) else s.file
    ensures HoldsSeen(EffectOf(s, t, x).pc) ==> EffectOf(s, t, x).file == s.file && !s.threads[t].pc.RenamingState?
    ensures HoldsSeen(EffectOf(s, t, x).pc) ==>
              EffectOf(s, t, x).pc.seen == if HoldsSeen(s.threads[t].pc) then s.threads[t].pc.seen else s.file
  {
  }

  lemma {:induction false} SeenElsewhere(s: State, t: nat, e: Effect)
    requires LockHeld(s) && SeenCurrent(s) && Live(s, t)
    requires e.file != s.file ==> s.threads[t].pc.RenamingState?
    requires HoldsSeen(e.pc) ==> e.pc.seen == e.file
    ensures SeenCurrent(Moved(s, t, e))
  {
    forall u | Live(s, u) && u != t && HoldsSeen(s.threads[u].pc) ensures s.threads[u].pc.seen == e.file {
      if e.file != s.file { LockExcludes(s, t, u); }
    }
  }

  lemma {:induction false} StepKeepsSeenCurrent(s: State, t: nat, x: Input)
    requires Steps(s, t, x)
    ensures SeenCurrent(Moved(s, t, EffectOf(s, t, x)))
  {
    FileMoves(s, t, x);
    SeenElsewhere(s, t, EffectOf(s, t, x));
  }

  lemma {:induction false} StepKeepsInv(s: State, t: nat, x: Input)
    requires Steps(s, t, x)
    ensures LockInv(Moved(s, t, EffectOf(s, t, x)))
  {
    StepKeepsFresh(s, t, x);
    StepKeepsGuardsDistinct(s, t, x);
    StepKeepsGuardOwned(s, t, x);
    StepKeepsGuardHeld(s, t, x);
    StepKeepsLockHeld(s, t, x);
    StepKeepsUnwrittenAccounted(s, t, x);
    StepKeepsSnapshotsStale(s, t, x);
    StepKeepsRemovalAimed(s, t, x);
    StepKeepsSeenCurrent(s, t, x);
  }

  /** A thread that has just been called knows nothing about the lock files yet. */
  lemma {:induction false} CallKeepsInv(s: State, t: nat, pid: nat, op: StoreOp)
    requires LockInv(s) && t !in s.threads && pid in s.alive
    ensures LockInv(After1(s, Call(t, pid, op)))
  {
    var m := After1(s, Call(t, pid, op));
    CallKeepsGuards(s, t, pid, op);
    CallKeepsLock(s, t, pid, op);
    assert forall u :: u in s.threads ==> m.threads[u] == s.threads[u];
    assert SnapshotsStale(m);
  }

  lemma {:induction false} CallKeepsLock(s: State, t: nat, pid: nat, op: StoreOp)
    requires LockHeld(s) && UnwrittenAccounted(s) && RemovalAimed(s) && SeenCurrent(s) && FileFresh(s, s.lock)
    requires t !in s.threads && pid in s.alive
    ensures var m := After1(s, Call(t, pid, op)); LockHeld(m) && UnwrittenAccounted(m) && RemovalAimed(m) && SeenCurrent(m)
  {
    var m := After1(s, Call(t, pid, op));
    assert forall u :: u in s.threads ==> m.threads[u] == s.threads[u];
    assert LockOf(m.threads[t].pc).None?;
  }

  lemma {:induction false} CallKeepsGuards(s: State, t: nat, pid: nat, op: StoreOp)
    requires Fresh(s) && GuardsDistinct(s) && GuardOwned(s) && GuardHeld(s) && t !in s.threads && pid in s.alive
    ensures var m := After1(s, Call(t, pid, op)); Fresh(m) && GuardsDistinct(m) && GuardOwned(m) && GuardHeld(m)
  {
    var m := After1(s, Call(t, pid, op));
    assert GuardOf(m.threads[t].pc).None? && LockOf(m.threads[t].pc).None?;
    assert Fresh(m);
    assert GuardsDistinct(m);
    assert GuardOwned(m);
  }

  lemma {:induction false} CrashKeepsInv(s: State, pid: nat)
    requires LockInv(s) && pid in s.alive
    ensures LockInv(After1(s, Crash(pid)))
  {
    var m := After1(s, Crash(pid));
    assert forall t :: Live(m, t) ==> Live(s, t);
    assert forall f :: Stale(s, f) ==> Stale(m, f);
  }

  lemma {:induction false} EventKeepsInv(s: State, e: Event)
    requires LockInv(s) && Possible(s, e) && (e.Step? ==> FailsHarmlessly(s, e.t, e.x))
    ensures LockInv(After1(s, e))
  {
    match e {
      case Call(t, pid, op) => CallKeepsInv(s, t, pid, op);
      case Step(t, x) => StepKeepsInv(s, t, x);
      case Crash(pid) => CrashKeepsInv(s, pid);
    }
  }

  lemma {:induction false} RunKeepsInv(states: seq<State>, events: seq<Event>, n: nat)
    requires Run(states, events) && FailuresHarmless(states, events) && n < |states|
    ensures LockInv(states[n])
  {
    if n > 0 {
      RunKeepsInv(states, events, n - 1);
      EventKeepsInv(states[n - 1], events[n - 1]);
    }
  }

  // ----- exactly which failed guard writes matter -----

  /** One step keeps the invariant exactly when it is not a failed guard write under a live thread that holds a checked guard. */
  lemma {:induction false} StepKeepsInvIff(s: State, t: nat, x: Input)
    requires LockInv(s) && Live(s, t)
    ensures LockInv(Moved(s, t, EffectOf(s, t, x))) <==> FailsHarmlessly(s, t, x)
  {
    if FailsHarmlessly(s, t, x) { StepKeepsInv(s, t, x); } else { HarmfulFailureTakesGuard(s, t, x); }
  }

  lemma {:induction false} HarmfulFailureTakesGuard(s: State, t: nat, x: Input)
    requires Live(s, t) && !FailsHarmlessly(s, t, x)
    ensures !GuardHeld(Moved(s, t, EffectOf(s, t, x)))
  {
    var u :| Live(s, u) && Guarded(s.threads[u].pc);
    var m := Moved(s, t, EffectOf(s, t, x));
    assert Live(m, u) && Guarded(m.threads[u].pc) && m.guard.None?;
  }

  /**
   Over a whole run, every live thread that holds a checked guard finds it in place at all times, exactly when no guard write
   ever fails while such a thread exists.
   */
  lemma {:induction false} GuardsHeldIff(states: seq<State>, events: seq<Event>)
    requires Run(states, events)
    ensures (forall n :: 0 <= n < |states| ==> GuardHeld(states[n])) <==> FailuresHarmless(states, events)
  {
    if FailuresHarmless(states, events) {
      forall n | 0 <= n < |states| ensures GuardHeld(states[n]) { RunKeepsInv(states, events, n); }
    } else {
      var n :| 0 <= n < |events| && events[n].Step? && !FailsHarmlessly(states[n], events[n].t, events[n].x);
      HarmfulFailureTakesGuard(states[n], events[n].t, events[n].x);
      assert !GuardHeld(states[n + 1]);
    }
  }

  // ----- the theorems -----

  /** At most one live thread is inside the operation that `withLock` runs. */
  lemma {:induction false} MutualExclusion(states: seq<State>, events: seq<Event>, n: nat, t: nat, u: nat)
    requires Run(states, events) && FailuresHarmless(states, events) && n < |states|
    requires Live(states[n], t) && InOperation(states[n].threads[t].pc)
    requires Live(states[n], u) && InOperation(states[n].threads[u].pc)
    ensures t == u
  {
    RunKeepsInv(states, events, n);
    LockExcludes(states[n], t, u);
  }

  /** `reclaimStaleLock` removes the very file it inspected, and the process that created that file is dead. */
  lemma {:induction false} OnlyDeadOwnersAreReclaimed(states: seq<State>, events: seq<Event>, n: nat)
    requires Run(states, events) && FailuresHarmless(states, events) && n < |events|
    requires events[n].Step? && states[n].threads[events[n].t].pc.RemovingStale?
    ensures states[n].lock == Some(states[n].threads[events[n].t].pc.stale)
    ensures Dead(states[n], states[n].lock.value.owner)
  {
    RunKeepsInv(states, events, n);
    var s, t := states[n], events[n].t;
    var stale := s.threads[t].pc.stale;
    assert StaleOf(s.threads[t].pc) == Some(stale);
    assert Stale(s, stale);
    if Live(s, stale.owner) {
      assert Guarded(s.threads[stale.owner].pc);
      GuardExcludes(s, t, stale.owner);
    }
  }

  /** A live owner never fails with AUTHORIZATION_STORE_LOCK_LOST, and finds its own lock when it comes to release it. */
  lemma {:induction false} LiveOwnerKeepsLock(states: seq<State>, events: seq<Event>, n: nat)
    requires Run(states, events) && FailuresHarmless(states, events) && n < |events| && events[n].Step?
    ensures var pc, after := states[n].threads[events[n].t].pc, states[n + 1].threads[events[n].t].pc;
            && (pc.CheckingLock? && !events[n].x.fails ==> after == RenamingState(pc.lock, pc.seen))
            && (pc.ReadingLock? ==> after == CheckingReleaser(pc.guard, pc.lock))
  {
    RunKeepsInv(states, events, n);
    var s, t := states[n], events[n].t;
    assert LockOf(s.threads[t].pc).Some? ==> s.lock == Some(File(LockOf(s.threads[t].pc).value, t, !Creating(s.threads[t].pc)));
  }

  /** The n-th event renames a new state into place. */
  predicate Commits(states: seq<State>, events: seq<Event>, n: nat)
    requires n < |events| && n < |states|
  {
    && events[n].Step? && !events[n].x.fails
    && events[n].t in states[n].threads && states[n].threads[events[n].t].pc.RenamingState?
  }

  /** The operations whose new state was renamed into place by the first `n` events, in that order. */
  ghost function Committed(states: seq<State>, events: seq<Event>, n: nat): seq<StoreOp>
    requires Run(states, events) && n <= |events|
  {
    if n == 0 then []
    else
      var before := Committed(states, events, n - 1);
      if Commits(states, events, n - 1) then before + [states[n - 1].threads[events[n - 1].t].op] else before
  }

  /** A rename applies its operation to what the file holds at that moment; no other step changes the file. */
  lemma {:induction false} RenameIsAtomic(states: seq<State>, events: seq<Event>, n: nat)
    requires Run(states, events) && FailuresHarmless(states, events) && n < |events|
    ensures states[n + 1].file ==
            if Commits(states, events, n) then Apply(states[n].file, states[n].threads[events[n].t].op) else states[n].file
  {
    RunKeepsInv(states, events, n);
    if events[n].Step? { FileMoves(states[n], events[n].t, events[n].x); }
  }

  /** The state file always holds what the committed operations leave when they run one after another on the empty store. */
  lemma {:induction false} LockedOperationsAreAtomic(states: seq<State>, events: seq<Event>, n: nat)
    requires Run(states, events) && FailuresHarmless(states, events) && n <= |events|
    ensures states[n].file == After(Committed(states, events, n))
  {
    if n == 0 {
    } else {
      LockedOperationsAreAtomic(states, events, n - 1);
      RenameIsAtomic(states, events, n - 1);
      var before, now := Committed(states, events, n - 1), Committed(states, events, n);
      if now != before { assert now[..|now| - 1] == before; }
    }
  }

  /** From the m-th to the n-th state, thread `t` is alive and inside its operation. */
  ghost predicate InsideFrom(states: seq<State>, t: nat, m: nat, n: nat) {
    m <= n < |states| && forall k :: m <= k <= n ==> Live(states[k], t) && InOperation(states[k].threads[t].pc)
  }

  predicate Fails(events: seq<Event>, k: nat, t: nat)
    requires k < |events|
  {
    events[k].Step? && events[k].t == t && events[k].x.fails
  }

  /** What a thread inside its operation has done so far, when it read the file at the m-th state. */
  ghost predicate Progress(s: State, t: nat, op: StoreOp, read: DurableState)
    requires t in s.threads
  {
    var pc := s.threads[t].pc;
    s.file == read && s.threads[t].op == op && (HoldsSeen(pc) ==> pc.seen == read)
  }

  /** While a live thread is inside its operation nobody else changes the file. */
  lemma {:induction false} InsideKeepsFile(states: seq<State>, events: seq<Event>, t: nat, m: nat, n: nat)
    requires Run(states, events) && FailuresHarmless(states, events) && InsideFrom(states, t, m, n) && states[m].threads[t].pc.ReadingState?
    ensures Progress(states[n], t, states[m].threads[t].op, states[m].file)
  {
    if n > m {
      InsideKeepsFile(states, events, t, m, n - 1);
      InsideStep(states, events, t, n - 1);
    }
  }

  lemma {:induction false} InsideStep(states: seq<State>, events: seq<Event>, t: nat, n: nat)
    requires Run(states, events) && FailuresHarmless(states, events) && n < |events|
    requires Live(states[n], t) && InOperation(states[n].threads[t].pc) && Live(states[n + 1], t) && InOperation(states[n + 1].threads[t].pc)
    ensures states[n + 1].file == states[n].file && states[n + 1].threads[t].op == states[n].threads[t].op
    ensures HoldsSeen(states[n + 1].threads[t].pc) ==>
              states[n + 1].threads[t].pc.seen == if HoldsSeen(states[n].threads[t].pc) then states[n].threads[t].pc.seen else states[n].file
  {
    RenameIsAtomic(states, events, n);
    if Commits(states, events, n) {
      RunKeepsInv(states, events, n);
      LockExcludes(states[n], t, events[n].t);
    }
    if events[n].Step? && events[n].t == t { FileMoves(states[n], t, events[n].x); }
  }

  /**
   A whole read-modify-write is one atomic store operation: from the read to the end the file holds what was read; the end
   leaves the operation's result if it committed, and otherwise what was read. If none of its file operations failed, the
   result is there in either case, because an operation that does not write would change nothing.
   */
  lemma {:induction false} OperationIsAtomic(states: seq<State>, events: seq<Event>, t: nat, m: nat, n: nat)
    requires Run(states, events) && FailuresHarmless(states, events) && n < |events|
    requires InsideFrom(states, t, m, n) && states[m].threads[t].pc.ReadingState?
    requires events[n].Step? && events[n].t == t && !InOperation(states[n + 1].threads[t].pc)
    ensures forall k :: m <= k <= n ==> states[k].file == states[m].file
    ensures states[n + 1].file == if Commits(states, events, n) then Apply(states[m].file, states[m].threads[t].op) else states[m].file
    ensures (forall k :: m <= k <= n ==> !Fails(events, k, t)) ==> states[n + 1].file == Apply(states[m].file, states[m].threads[t].op)
  {
    forall k | m <= k <= n ensures states[k].file == states[m].file { InsideKeepsFile(states, events, t, m, k); }
    InsideKeepsFile(states, events, t, m, n);
    RenameIsAtomic(states, events, n);
    LiveOwnerKeepsLock(states, events, n);
    assert Fails(events, n, t) == events[n].x.fails;
  }

  // ----- a call takes effect at most once -----

  /** Before, inside and after the operation. */
  function Phase(pc: PC): nat {
    match pc
    case Outside => 3
    case OpeningGuard(p) => if p.Releasing? then 2 else 0
    case WritingGuard(p, _) => if p.Releasing? then 2 else 0
    case CheckingGuard(p, _) => if p.Releasing? then 2 else 0
    case ReadingGuard(_, next) => if next.ReleaseAgain? || next.Leave? then 2 else 0
    case RemovingGuard(_, next) => if next.ReleaseAgain? || next.Leave? then 2 else 0
    case _ => if InOperation(pc) then 1 else if InRelease(pc) then 2 else 0
  }

  lemma {:induction false} PhaseGrows(s: State, t: nat, x: Input)
    requires t in s.threads
    ensures Phase(s.threads[t].pc) <= Phase(EffectOf(s, t, x).pc)
    ensures s.threads[t].pc.RenamingState? ==> Phase(EffectOf(s, t, x).pc) == 2
  {
  }

  lemma {:induction false} PhaseGrowsAlong(states: seq<State>, events: seq<Event>, t: nat, m: nat, n: nat)
    requires Run(states, events) && m <= n < |states| && t in states[m].threads
    ensures t in states[n].threads && Phase(states[m].threads[t].pc) <= Phase(states[n].threads[t].pc)
    decreases n
  {
    if m < n {
      PhaseGrowsAlong(states, events, t, m, n - 1);
      assert Possible(states[n - 1], events[n - 1]) && states[n] == After1(states[n - 1], events[n - 1]);
      if events[n - 1].Step? { PhaseGrows(states[n - 1], events[n - 1].t, events[n - 1].x); }
    }
  }

  /** No call commits twice, so the committed operations are those of different calls. */
  lemma {:induction false} CallCommitsOnce(states: seq<State>, events: seq<Event>, m: nat, n: nat)
    requires Run(states, events) && m < n < |events| && Commits(states, events, m) && Commits(states, events, n)
    ensures events[m].t != events[n].t
  {
    var t := events[m].t;
    PhaseGrows(states[m], t, events[m].x);
    assert Possible(states[m], events[m]) && states[m + 1] == After1(states[m], events[m]);
    PhaseGrowsAlong(states, events, t, m + 1, n);
  }
}
