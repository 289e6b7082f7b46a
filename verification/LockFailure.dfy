/**
 Why the safety of the lock needs that no guard write fails while a live thread relies on a checked guard: a thread that
 stalls before writing its guard, loses that guard as stale and then fails to write it, removes another thread's guard.
 */
module LockFailure {
  import opened Wrappers
  import opened DurableStore
  import opened LockProtocol

  const X := Input(true, false, false, true, false)
  const FAILED := X.(fails := true)

  ghost predicate RunTo(states: seq<State>, events: seq<Event>, s: State) {
    Run(states, events) && states[|events|] == s
  }

  ghost predicate Reachable(s: State) {
    exists states, events :: RunTo(states, events, s)
  }

  lemma {:induction false} Then(s: State, e: Event)
    requires Reachable(s) && Possible(s, e)
    ensures Reachable(After1(s, e))
  {
    var states, events :| RunTo(states, events, s);
    var more, longer := states + [After1(s, e)], events + [e];
    forall n | 0 <= n < |longer| ensures Possible(more[n], longer[n]) && more[n + 1] == After1(more[n], longer[n]) {
      if n < |events| { assert more[n] == states[n] && more[n + 1] == states[n + 1]; }
    }
    assert RunTo(more, longer, After1(s, e));
  }

  /** Processes 0 and 1 run; threads 0 and 2 belong to process 0, thread 1 to process 1. */
  datatype Scene = Scene(pcs: seq<PC>, guard: Option<File>, lock: Option<File>, next: nat)

  function Pid(t: nat): nat { if t == 1 then 1 else 0 }

  function At(op: StoreOp, c: Scene): State {
    State({0, 1}, map t: nat | t < |c.pcs| :: Thread(Pid(t), op, c.pcs[t]), c.guard, c.lock, c.next, EMPTY_STATE)
  }

  lemma {:induction false} Called(op: StoreOp, c: Scene) returns (d: Scene)
    requires Reachable(At(op, c))
    ensures d == c.(pcs := c.pcs + [OpeningGuard(Acquiring)]) && Reachable(At(op, d))
  {
    d := c.(pcs := c.pcs + [OpeningGuard(Acquiring)]);
    var e := Call(|c.pcs|, Pid(|c.pcs|), op);
    Then(At(op, c), e);
    assert After1(At(op, c), e) == At(op, d);
  }

  /** One step of thread `t`, which is not the renaming of the state, to where its effect says. */
  lemma {:induction false} Steps(op: StoreOp, c: Scene, t: nat, x: Input, pc: PC, guard: Option<File>, lock: Option<File>, next: nat) returns (d: Scene)
    requires t < |c.pcs| && Reachable(At(op, c))
    requires EffectOf(At(op, c), t, x) == Effect(pc, guard, lock, next, EMPTY_STATE)
    ensures d == Scene(c.pcs[t := pc], guard, lock, next) && Reachable(At(op, d))
  {
    d := Scene(c.pcs[t := pc], guard, lock, next);
    Then(At(op, c), Step(t, x));
    assert After1(At(op, c), Step(t, x)) == At(op, d);
  }

  /** Thread 0 stalls between creating and writing its guard; thread 1 removes that guard as stale and takes its own. */
  lemma {:induction false} GuardStalls(op: StoreOp)
    ensures Reachable(At(op, Scene([WritingGuard(Acquiring, 0), CheckingGuard(Acquiring, 1)], Some(File(1, 1, true)), None, 2)))
  {
    var c := Scene([], None, None, 0);
    assert At(op, c).threads == map[];
    assert RunTo([At(op, c)], [], At(op, c));
    c := Called(op, c);
    c := Steps(op, c, 0, X, WritingGuard(Acquiring, 0), Some(File(0, 0, false)), None, 1);
    c := Called(op, c);
    c := Steps(op, c, 1, X, OpeningGuard(Acquiring), None, None, 1);
    c := Steps(op, c, 1, X, WritingGuard(Acquiring, 1), Some(File(1, 1, false)), None, 2);
    c := Steps(op, c, 1, X, CheckingGuard(Acquiring, 1), Some(File(1, 1, true)), None, 2);
    assert c == Scene([WritingGuard(Acquiring, 0), CheckingGuard(Acquiring, 1)], Some(File(1, 1, true)), None, 2);
  }

  /** Thread 1 passes its ownership check, then thread 0 fails to write and removes thread 1's guard instead of its own. */
  lemma {:induction false} GuardLost(op: StoreOp)
    ensures Reachable(At(op, Scene([Outside, OpeningLock(1), CheckingGuard(Acquiring, 2)], Some(File(2, 2, true)), None, 3)))
  {
    GuardStalls(op);
    var c := Scene([WritingGuard(Acquiring, 0), CheckingGuard(Acquiring, 1)], Some(File(1, 1, true)), None, 2);
    c := Steps(op, c, 1, X, OpeningLock(1), Some(File(1, 1, true)), None, 2);
    c := Steps(op, c, 0, FAILED, Outside, None, None, 2);
    c := Called(op, c);
    c := Steps(op, c, 2, X, WritingGuard(Acquiring, 2), Some(File(2, 2, false)), None, 3);
    c := Steps(op, c, 2, X, CheckingGuard(Acquiring, 2), Some(File(2, 2, true)), None, 3);
    assert c == Scene([Outside, OpeningLock(1), CheckingGuard(Acquiring, 2)], Some(File(2, 2, true)), None, 3);
  }

  /** Both threads hold a checked guard; thread 1 creates the lock. */
  lemma {:induction false} LockCreated(op: StoreOp)
    ensures Reachable(At(op, Scene([Outside, WritingLock(1, 3), OpeningLock(2)], Some(File(2, 2, true)), Some(File(3, 1, false)), 4)))
  {
    GuardLost(op);
    var c := Scene([Outside, OpeningLock(1), CheckingGuard(Acquiring, 2)], Some(File(2, 2, true)), None, 3);
    c := Steps(op, c, 2, X, OpeningLock(2), Some(File(2, 2, true)), None, 3);
    c := Steps(op, c, 1, X, WritingLock(1, 3), Some(File(2, 2, true)), Some(File(3, 1, false)), 4);
    assert c == Scene([Outside, WritingLock(1, 3), OpeningLock(2)], Some(File(2, 2, true)), Some(File(3, 1, false)), 4);
  }

  /** Thread 2 finds the lock there and gives its guard back. */
  lemma {:induction false} LockSeen(op: StoreOp)
    ensures Reachable(At(op, Scene([Outside, WritingLock(1, 3), OpeningGuard(Reclaiming)], None, Some(File(3, 1, false)), 4)))
  {
    LockCreated(op);
    var c := Scene([Outside, WritingLock(1, 3), OpeningLock(2)], Some(File(2, 2, true)), Some(File(3, 1, false)), 4);
    c := Steps(op, c, 2, X, ReadingGuard(2, Reclaim), Some(File(2, 2, true)), Some(File(3, 1, false)), 4);
    c := Steps(op, c, 2, X, RemovingGuard(2, Reclaim), Some(File(2, 2, true)), Some(File(3, 1, false)), 4);
    c := Steps(op, c, 2, X, OpeningGuard(Reclaiming), None, Some(File(3, 1, false)), 4);
    assert c == Scene([Outside, WritingLock(1, 3), OpeningGuard(Reclaiming)], None, Some(File(3, 1, false)), 4);
  }

  /** Thread 2 takes the guard again to reclaim. */
  lemma {:induction false} GuardReclaiming(op: StoreOp)
    ensures Reachable(At(op, Scene([Outside, WritingLock(1, 3), InspectingLock(4)], Some(File(4, 2, true)), Some(File(3, 1, false)), 5)))
  {
    LockSeen(op);
    var c := Scene([Outside, WritingLock(1, 3), OpeningGuard(Reclaiming)], None, Some(File(3, 1, false)), 4);
    c := Steps(op, c, 2, X, WritingGuard(Reclaiming, 4), Some(File(4, 2, false)), Some(File(3, 1, false)), 5);
    c := Steps(op, c, 2, X, InspectingLock(4), Some(File(4, 2, true)), Some(File(3, 1, false)), 5);
    assert c == Scene([Outside, WritingLock(1, 3), InspectingLock(4)], Some(File(4, 2, true)), Some(File(3, 1, false)), 5);
  }

  /** Thread 2 takes the guard again to reclaim: the lock without metadata counts as stale. */
  lemma {:induction false} LockInspected(op: StoreOp)
    ensures Reachable(At(op, Scene([Outside, WritingLock(1, 3), ComparingQuarantine(4, File(3, 1, false), File(3, 1, false))], Some(File(4, 2, true)), Some(File(3, 1, false)), 5)))
  {
    GuardReclaiming(op);
    var c := Scene([Outside, WritingLock(1, 3), InspectingLock(4)], Some(File(4, 2, true)), Some(File(3, 1, false)), 5);
    c := Steps(op, c, 2, X, LinkingLock(4, File(3, 1, false)), Some(File(4, 2, true)), Some(File(3, 1, false)), 5);
    c := Steps(op, c, 2, X, ComparingQuarantine(4, File(3, 1, false), File(3, 1, false)), Some(File(4, 2, true)), Some(File(3, 1, false)), 5);
    assert c == Scene([Outside, WritingLock(1, 3), ComparingQuarantine(4, File(3, 1, false), File(3, 1, false))], Some(File(4, 2, true)), Some(File(3, 1, false)), 5);
  }

  /** Thread 2 still owns its guard, and its link names the lock it inspected. */
  lemma {:induction false} QuarantineCompared(op: StoreOp)
    ensures Reachable(At(op, Scene([Outside, WritingLock(1, 3), ComparingPrimary(4, File(3, 1, false))], Some(File(4, 2, true)), Some(File(3, 1, false)), 5)))
  {
    LockInspected(op);
    var c := Scene([Outside, WritingLock(1, 3), ComparingQuarantine(4, File(3, 1, false), File(3, 1, false))], Some(File(4, 2, true)), Some(File(3, 1, false)), 5);
    c := Steps(op, c, 2, X, CheckingReclaimer(4, File(3, 1, false)), Some(File(4, 2, true)), Some(File(3, 1, false)), 5);
    c := Steps(op, c, 2, X, ComparingPrimary(4, File(3, 1, false)), Some(File(4, 2, true)), Some(File(3, 1, false)), 5);
    assert c == Scene([Outside, WritingLock(1, 3), ComparingPrimary(4, File(3, 1, false))], Some(File(4, 2, true)), Some(File(3, 1, false)), 5);
  }

  /** All comparisons succeed, and thread 2 is about to remove the lock. */
  lemma {:induction false} LockCompared(op: StoreOp)
    ensures Reachable(At(op, Scene([Outside, ReadingGuard(1, Enter(3)), RemovingStale(4, File(3, 1, false))], Some(File(4, 2, true)), Some(File(3, 1, true)), 5)))
  {
    QuarantineCompared(op);
    var c := Scene([Outside, WritingLock(1, 3), ComparingPrimary(4, File(3, 1, false))], Some(File(4, 2, true)), Some(File(3, 1, false)), 5);
    c := Steps(op, c, 2, X, RemovingStale(4, File(3, 1, false)), Some(File(4, 2, true)), Some(File(3, 1, false)), 5);
    c := Steps(op, c, 1, X, ReadingGuard(1, Enter(3)), Some(File(4, 2, true)), Some(File(3, 1, true)), 5);
    assert c == Scene([Outside, ReadingGuard(1, Enter(3)), RemovingStale(4, File(3, 1, false))], Some(File(4, 2, true)), Some(File(3, 1, true)), 5);
  }

  /** Thread 1 enters its operation; thread 2 removes thread 1's lock. */
  lemma {:induction false} LockUnlinked(op: StoreOp)
    ensures Reachable(At(op, Scene([Outside, ReadingState(3), ReadingGuard(4, Retry)], Some(File(4, 2, true)), None, 5)))
  {
    LockCompared(op);
    var c := Scene([Outside, ReadingGuard(1, Enter(3)), RemovingStale(4, File(3, 1, false))], Some(File(4, 2, true)), Some(File(3, 1, true)), 5);
    c := Steps(op, c, 1, X, ReadingState(3), Some(File(4, 2, true)), Some(File(3, 1, true)), 5);
    c := Steps(op, c, 2, X, ReadingGuard(4, Retry), Some(File(4, 2, true)), None, 5);
    assert c == Scene([Outside, ReadingState(3), ReadingGuard(4, Retry)], Some(File(4, 2, true)), None, 5);
  }

  /** Thread 2 gives its guard back and starts over. */
  lemma {:induction false} LockRemoved(op: StoreOp)
    ensures Reachable(At(op, Scene([Outside, ReadingState(3), OpeningGuard(Acquiring)], None, None, 5)))
  {
    LockUnlinked(op);
    var c := Scene([Outside, ReadingState(3), ReadingGuard(4, Retry)], Some(File(4, 2, true)), None, 5);
    c := Steps(op, c, 2, X, RemovingGuard(4, Retry), Some(File(4, 2, true)), None, 5);
    c := Steps(op, c, 2, X, OpeningGuard(Acquiring), None, None, 5);
    assert c == Scene([Outside, ReadingState(3), OpeningGuard(Acquiring)], None, None, 5);
  }

  /** Thread 2 takes a guard for the lock that is gone. */
  lemma {:induction false} GuardRetaken(op: StoreOp)
    ensures Reachable(At(op, Scene([Outside, ReadingState(3), CheckingGuard(Acquiring, 5)], Some(File(5, 2, true)), None, 6)))
  {
    LockRemoved(op);
    var c := Scene([Outside, ReadingState(3), OpeningGuard(Acquiring)], None, None, 5);
    c := Steps(op, c, 2, X, WritingGuard(Acquiring, 5), Some(File(5, 2, false)), None, 6);
    c := Steps(op, c, 2, X, CheckingGuard(Acquiring, 5), Some(File(5, 2, true)), None, 6);
    assert c == Scene([Outside, ReadingState(3), CheckingGuard(Acquiring, 5)], Some(File(5, 2, true)), None, 6);
  }

  /** Thread 2 creates a lock of its own. */
  lemma {:induction false} LockTaken(op: StoreOp)
    ensures Reachable(At(op, Scene([Outside, ReadingState(3), WritingLock(5, 6)], Some(File(5, 2, true)), Some(File(6, 2, false)), 7)))
  {
    GuardRetaken(op);
    var c := Scene([Outside, ReadingState(3), CheckingGuard(Acquiring, 5)], Some(File(5, 2, true)), None, 6);
    c := Steps(op, c, 2, X, OpeningLock(5), Some(File(5, 2, true)), None, 6);
    c := Steps(op, c, 2, X, WritingLock(5, 6), Some(File(5, 2, true)), Some(File(6, 2, false)), 7);
    assert c == Scene([Outside, ReadingState(3), WritingLock(5, 6)], Some(File(5, 2, true)), Some(File(6, 2, false)), 7);
  }

  /** Thread 2 writes its lock and finds its guard still there. */
  lemma {:induction false} LockWritten(op: StoreOp)
    ensures Reachable(At(op, Scene([Outside, ReadingState(3), RemovingGuard(5, Enter(6))], Some(File(5, 2, true)), Some(File(6, 2, true)), 7)))
  {
    LockTaken(op);
    var c := Scene([Outside, ReadingState(3), WritingLock(5, 6)], Some(File(5, 2, true)), Some(File(6, 2, false)), 7);
    c := Steps(op, c, 2, X, ReadingGuard(5, Enter(6)), Some(File(5, 2, true)), Some(File(6, 2, true)), 7);
    c := Steps(op, c, 2, X, RemovingGuard(5, Enter(6)), Some(File(5, 2, true)), Some(File(6, 2, true)), 7);
    assert c == Scene([Outside, ReadingState(3), RemovingGuard(5, Enter(6))], Some(File(5, 2, true)), Some(File(6, 2, true)), 7);
  }

  /** Thread 2 enters too. */
  lemma {:induction false} BothEnter(op: StoreOp)
    ensures Reachable(At(op, Scene([Outside, ReadingState(3), ReadingState(6)], None, Some(File(6, 2, true)), 7)))
  {
    LockWritten(op);
    var c := Scene([Outside, ReadingState(3), RemovingGuard(5, Enter(6))], Some(File(5, 2, true)), Some(File(6, 2, true)), 7);
    c := Steps(op, c, 2, X, ReadingState(6), None, Some(File(6, 2, true)), 7);
    assert c == Scene([Outside, ReadingState(3), ReadingState(6)], None, Some(File(6, 2, true)), 7);
  }

  /** Without the restriction on failed guard writes, two live threads can be inside their operations at once. */
  lemma {:induction false} WriteFailureBreaksTheLock(op: StoreOp)
    ensures exists s, t, u :: Reachable(s) && t != u && Live(s, t) && Live(s, u) && InOperation(s.threads[t].pc) && InOperation(s.threads[u].pc)
  {
    BothEnter(op);
    var s := At(op, Scene([Outside, ReadingState(3), ReadingState(6)], None, Some(File(6, 2, true)), 7));
    assert Reachable(s) && Live(s, 1) && Live(s, 2) && InOperation(s.threads[1].pc) && InOperation(s.threads[2].pc);
  }
}
