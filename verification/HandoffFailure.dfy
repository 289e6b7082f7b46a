/**
 What a FAILED history says about Circle: a concurrent submitter that loses the race for the approval records FAILED while
 the winner goes on to create the transfer, and the history stays FAILED for good. A FAILED history without operation ids
 means that Circle holds nothing exactly when the approval is unused.
 */
module HandoffFailure {
  import opened Wrappers
  import opened Records
  import opened Actors
  import opened DurableStore
  import opened DurableStoreProperties
  import opened CircleProvider
  import opened Handoff
  import opened HandoffSafety
  import opened HandoffExactlyOnce
  import Decimal
  import Text

  // ----- a FAILED end of a used approval is final in every run -----

  lemma {:induction false} AdvanceKeepsFailure(config: Config, s: System, e: Event, b: string, key: string)
    requires SystemInv(config, s) && Enabled(s, e) && FailedForGood(s.store, b, key)
    ensures var t := Next(s, config, e); t.store.History(key) == s.store.History(key) && FailedForGood(t.store, b, key)
  {
    if e.Advance? {
      var p := s.processes[e.id];
      ExecuteIsOneOperation(s.store, p, config, SubmittedBy(s, p.provider), e.x);
      var t := Execute(s.store, p, config, SubmittedBy(s, p.provider), e.x).store;
      if t != s.store {
        var op :| t == Apply(s.store, op);
        FailureStays(s.store, op, b, key);
      }
    }
  }

  /** Whatever the processes and Circle do afterwards, the store goes on saying FAILED. */
  lemma {:induction false} FailureIsFinalInRun(config: Config, states: seq<System>, events: seq<Event>, m: nat, n: nat, b: string, key: string)
    requires Run(config, states, events) && m <= n < |states| && FailedForGood(states[m].store, b, key)
    ensures states[n].store.History(key) == states[m].store.History(key) && FailedForGood(states[n].store, b, key)
    decreases n
  {
    if m < n {
      FailureIsFinalInRun(config, states, events, m, n - 1, b, key);
      RunKeepsInv(config, states, events, n - 1);
      AdvanceKeepsFailure(config, states[n - 1], events[n - 1], b, key);
    }
  }

  // ----- runs, one step at a time -----

  ghost predicate RunTo(config: Config, states: seq<System>, events: seq<Event>, s: System) {
    HonestRun(config, {}, states, events) && states[|events|] == s
  }

  /** A state that an honest run reaches. */
  ghost predicate Reached(config: Config, s: System) {
    exists states, events :: RunTo(config, states, events, s)
  }

  lemma {:induction false} RunExtends(config: Config, states: seq<System>, events: seq<Event>, e: Event)
    requires HonestRun(config, {}, states, events) && Enabled(states[|events|], e) && Honest(states[|events|], config, {}, e)
    ensures HonestRun(config, {}, states + [Next(states[|events|], config, e)], events + [e])
  {
    var more, longer := states + [Next(states[|events|], config, e)], events + [e];
    forall n | 0 <= n < |longer| ensures Enabled(more[n], longer[n]) && more[n + 1] == Next(more[n], config, longer[n]) && Honest(more[n], config, {}, longer[n]) {
      if n < |events| { assert more[n] == states[n] && more[n + 1] == states[n + 1] && longer[n] == events[n]; }
    }
  }

  lemma {:induction false} Then(config: Config, s: System, e: Event)
    requires Reached(config, s) && Enabled(s, e) && Honest(s, config, {}, e)
    ensures Reached(config, Next(s, config, e))
  {
    var states, events :| RunTo(config, states, events, s);
    RunExtends(config, states, events, e);
    assert RunTo(config, states + [Next(s, config, e)], events + [e], Next(s, config, e));
  }

  function Quiet(now: int): Input {
    Input(now, now, "", NoFault, false, Ok, None, true, None, [])
  }

  /** Both processes have started, and neither has submitted anything. */
  ghost predicate Shows(config: Config, s: System, store: DurableState, p: Process, q: Process) {
    && Reached(config, s) && s.store == store && s.processes == map[0 := p, 1 := q] && s.operations == []
    && forall provider :: SubmittedBy(s, provider) == {}
  }

  /** One step of a process that asks Circle for nothing. */
  lemma {:induction false} Moves(config: Config, s: System, id: nat, now: int, e: Effect) returns (t: System)
    requires Reached(config, s) && s.operations == [] && (forall provider :: SubmittedBy(s, provider) == {})
    requires id in s.processes && !s.processes[id].pc.SubmitCreating?
    requires Execute(s.store, s.processes[id], config, {}, Quiet(now)) == e && e.submittedKeys == {}
    ensures Reached(config, t) && t.store == e.store && t.processes == s.processes[id := e.process] && t.operations == []
    ensures forall provider :: SubmittedBy(t, provider) == {}
  {
    var event := Advance(id, Quiet(now), []);
    assert EffectOf(s, config, id, Quiet(now)) == e;
    Then(config, s, event);
    t := Next(s, config, event);
    forall provider ensures SubmittedBy(t, provider) == {} { assert SubmittedBy(s, provider) == {}; }
  }

  lemma {:induction false} FirstMoves(config: Config, s: System, store: DurableState, p: Process, q: Process, now: int, pc: PC, last: Option<TransferResult>, after: DurableState)
      returns (t: System)
    requires Shows(config, s, store, p, q) && !p.pc.SubmitCreating?
    requires var e := Execute(store, p, config, {}, Quiet(now)); e.process == p.(pc := pc, lastResult := last) && e.store == after && e.submittedKeys == {}
    ensures Shows(config, t, after, p.(pc := pc, lastResult := last), q)
  {
    t := Moves(config, s, 0, now, Execute(store, p, config, {}, Quiet(now)));
  }

  lemma {:induction false} SecondMoves(config: Config, s: System, store: DurableState, p: Process, q: Process, now: int, pc: PC, last: Option<TransferResult>, after: DurableState)
      returns (t: System)
    requires Shows(config, s, store, p, q) && !q.pc.SubmitCreating?
    requires var e := Execute(store, q, config, {}, Quiet(now)); e.process == q.(pc := pc, lastResult := last) && e.store == after && e.submittedKeys == {}
    ensures Shows(config, t, after, p, q.(pc := pc, lastResult := last))
  {
    t := Moves(config, s, 1, now, Execute(store, q, config, {}, Quiet(now)));
  }

  // ----- the race -----

  /** An unused approval that this intent may be submitted under now. */
  predicate Approvable(config: Config, i: Intent, a: Authorization, now: int) {
    RevalidateApprovedIntent(i, Some(a), config, now) == Ok
  }

  function At(i: Intent, a: Authorization, id: nat, pc: PC, last: Option<TransferResult>): Process {
    Process(i, a, id, pc, None, false, last)
  }

  function Prep(i: Intent, now: int): Option<TransferResult> { Some(PreparedResult(i, now)) }

  function Refusal(i: Intent, now: int): TransferResult { FailureResult(i, AuthorizationUnavailable, now) }

  function Stored(a: Authorization): DurableState {
    EMPTY_STATE.(authorizations := map[a.binding.id := a])
  }

  function WithPrepared(i: Intent, a: Authorization, now: int): DurableState {
    Append(Stored(a), i.idempotencyKey, PreparedResult(i, now))
  }

  function WithConsumed(i: Intent, a: Authorization, now: int): DurableState {
    Consume(WithPrepared(i, a, now), i, a.binding.exactIntentHash, now).0
  }

  function WithFailure(i: Intent, a: Authorization, now: int): DurableState {
    Append(WithConsumed(i, a, now), i.idempotencyKey, Refusal(i, now))
  }

  lemma {:induction false} ApprovedFacts(config: Config, i: Intent, a: Authorization, now: int)
    requires Approvable(config, i, a, now)
    ensures ReferencesMatch(a, i) && a.transaction.idempotencyKey == i.idempotencyKey && i.idempotencyKey != ""
    ensures a.binding.status == Active && a.binding.consumedAt.None? && a.binding.consumedByTransactionId.None?
    ensures Load(Stored(a), i) == Some(a) && Load(WithPrepared(i, a, now), i) == Some(a)
    ensures CanConsume(WithPrepared(i, a, now), i, a.binding.exactIntentHash, now)
  {
  }

  /** Once it is consumed, the approval no longer passes revalidation. */
  lemma {:induction false} ConsumedIsRefused(config: Config, i: Intent, a: Authorization, now: int)
    requires Approvable(config, i, a, now)
    ensures var found := Load(WithConsumed(i, a, now), i);
            && found.Some? && found.value.binding.status == Consumed
            && RevalidateApprovedIntent(i, found, config, now) == Refused(AuthorizationUnavailable)
  {
    ApprovedFacts(config, i, a, now);
    var found := WithConsumed(i, a, now).authorizations[a.binding.id];
    MatchIgnoresConsumption(i, a, found, config);
  }

  /** Both requests arrive; the first one stores the approval. */
  lemma {:induction false} BothStart(config: Config, i: Intent, a: Authorization, now: int) returns (s: System)
    requires Approvable(config, i, a, now)
    ensures Shows(config, s, EMPTY_STATE, At(i, a, 0, Persisting, None), At(i, a, 1, Persisting, None))
  {
    ApprovedFacts(config, i, a, now);
    assert RunTo(config, [INITIAL], [], INITIAL);
    Then(config, INITIAL, Start(0, i, a, 0));
    s := Next(INITIAL, config, Start(0, i, a, 0));
    Then(config, s, Start(1, i, a, 1));
    s := Next(s, config, Start(1, i, a, 1));
  }

  lemma {:induction false} FirstStores(config: Config, i: Intent, a: Authorization, now: int) returns (s: System)
    requires Approvable(config, i, a, now)
    ensures Shows(config, s, Stored(a), At(i, a, 0, Preparing, None), At(i, a, 1, Persisting, None))
  {
    s := BothStart(config, i, a, now);
    s := FirstMoves(config, s, EMPTY_STATE, At(i, a, 0, Persisting, None), At(i, a, 1, Persisting, None), now, Preparing, None, Stored(a));
  }

  lemma {:induction false} FirstPrepares(config: Config, i: Intent, a: Authorization, now: int) returns (s: System)
    requires Approvable(config, i, a, now)
    ensures Shows(config, s, WithPrepared(i, a, now), At(i, a, 0, SubmitLoading, Prep(i, now)), At(i, a, 1, Persisting, None))
  {
    ApprovedFacts(config, i, a, now);
    s := FirstStores(config, i, a, now);
    var q, r := At(i, a, 1, Persisting, None), PreparedResult(i, now);
    s := FirstMoves(config, s, Stored(a), At(i, a, 0, Preparing, None), q, now, RecordingPrepared(r), Some(r), Stored(a));
    s := FirstMoves(config, s, Stored(a), At(i, a, 0, RecordingPrepared(r), Some(r)), q, now, SubmitLoading, Some(r), WithPrepared(i, a, now));
  }

  /** `submitTransfer` under an approval that is still unused, up to where it reloads the approval. */
  lemma {:induction false} SubmitSteps(config: Config, i: Intent, a: Authorization, now: int, id: nat, last: Option<TransferResult>)
    requires Approvable(config, i, a, now)
    ensures var s, x := WithPrepared(i, a, now), Quiet(now);
            && Execute(s, At(i, a, id, SubmitLoading, last), config, {}, x) == Goto(At(i, a, id, SubmitLoading, last), SubmitWallets(a, false), s)
            && Execute(s, At(i, a, id, SubmitWallets(a, false), last), config, {}, x)
               == Goto(At(i, a, id, SubmitWallets(a, false), last), SubmitBalance(a, false), s)
            && Execute(s, At(i, a, id, SubmitBalance(a, false), last), config, {}, x)
               == Goto(At(i, a, id, SubmitBalance(a, false), last), SubmitReloading, s)
  {
    ApprovedFacts(config, i, a, now);
  }

  lemma {:induction false} FirstReloads(config: Config, i: Intent, a: Authorization, now: int) returns (s: System)
    requires Approvable(config, i, a, now)
    ensures Shows(config, s, WithPrepared(i, a, now), At(i, a, 0, SubmitReloading, Prep(i, now)), At(i, a, 1, Persisting, None))
  {
    s := FirstPrepares(config, i, a, now);
    var q, store, last := At(i, a, 1, Persisting, None), WithPrepared(i, a, now), Prep(i, now);
    SubmitSteps(config, i, a, now, 0, last);
    s := FirstMoves(config, s, store, At(i, a, 0, SubmitLoading, last), q, now, SubmitWallets(a, false), last, store);
    s := FirstMoves(config, s, store, At(i, a, 0, SubmitWallets(a, false), last), q, now, SubmitBalance(a, false), last, store);
    s := FirstMoves(config, s, store, At(i, a, 0, SubmitBalance(a, false), last), q, now, SubmitReloading, last, store);
  }

  /** The first request is about to consume the approval. */
  lemma {:induction false} FirstWillConsume(config: Config, i: Intent, a: Authorization, now: int) returns (s: System)
    requires Approvable(config, i, a, now)
    ensures Shows(config, s, WithPrepared(i, a, now), At(i, a, 0, SubmitConsuming(a.binding.exactIntentHash), Prep(i, now)), At(i, a, 1, Persisting, None))
  {
    ApprovedFacts(config, i, a, now);
    s := FirstReloads(config, i, a, now);
    var store := WithPrepared(i, a, now);
    s := FirstMoves(config, s, store, At(i, a, 0, SubmitReloading, Prep(i, now)), At(i, a, 1, Persisting, None), now,
                    SubmitConsuming(a.binding.exactIntentHash), Prep(i, now), store);
  }

  /** The second request finds the approval stored and unused, and a history that only says PREPARED. */
  lemma {:induction false} SecondSteps(config: Config, i: Intent, a: Authorization, now: int)
    requires Approvable(config, i, a, now)
    ensures var s, x := WithPrepared(i, a, now), Quiet(now);
            && Execute(s, At(i, a, 1, Persisting, None), config, {}, x) == Goto(At(i, a, 1, Persisting, None), LoadingAuthorization, s)
            && Execute(s, At(i, a, 1, LoadingAuthorization, None), config, {}, x) == Goto(At(i, a, 1, LoadingAuthorization, None), LoadingResult(a), s)
  {
    ApprovedFacts(config, i, a, now);
    assert HoldsKey(WithPrepared(i, a, now).authorizations, a.binding.id, a.transaction.idempotencyKey);
  }

  lemma {:induction false} SecondReads(config: Config, i: Intent, a: Authorization, now: int)
    requires Approvable(config, i, a, now)
    ensures var s, x, last := WithPrepared(i, a, now), Quiet(now), Prep(i, now);
            && Execute(s, At(i, a, 1, LoadingResult(a), None), config, {}, x) == Goto(At(i, a, 1, LoadingResult(a), None), LoadingHistory(a, last), s)
            && Execute(s, At(i, a, 1, LoadingHistory(a, last), None), config, {}, x) == Goto(At(i, a, 1, LoadingHistory(a, last), None), SubmitLoading, s)
  {
  }

  lemma {:induction false} SecondLoads(config: Config, i: Intent, a: Authorization, now: int) returns (s: System)
    requires Approvable(config, i, a, now)
    ensures Shows(config, s, WithPrepared(i, a, now), At(i, a, 0, SubmitConsuming(a.binding.exactIntentHash), Prep(i, now)), At(i, a, 1, SubmitLoading, None))
  {
    s := FirstWillConsume(config, i, a, now);
    var p, store, last := At(i, a, 0, SubmitConsuming(a.binding.exactIntentHash), Prep(i, now)), WithPrepared(i, a, now), Prep(i, now);
    SecondSteps(config, i, a, now);
    SecondReads(config, i, a, now);
    s := SecondMoves(config, s, store, p, At(i, a, 1, Persisting, None), now, LoadingAuthorization, None, store);
    s := SecondMoves(config, s, store, p, At(i, a, 1, LoadingAuthorization, None), now, LoadingResult(a), None, store);
    s := SecondMoves(config, s, store, p, At(i, a, 1, LoadingResult(a), None), now, LoadingHistory(a, last), None, store);
    s := SecondMoves(config, s, store, p, At(i, a, 1, LoadingHistory(a, last), None), now, SubmitLoading, None, store);
  }

  /** Both requests have passed every check, and both are about to look at the approval once more. */
  lemma {:induction false} SecondReloads(config: Config, i: Intent, a: Authorization, now: int) returns (s: System)
    requires Approvable(config, i, a, now)
    ensures Shows(config, s, WithPrepared(i, a, now), At(i, a, 0, SubmitConsuming(a.binding.exactIntentHash), Prep(i, now)), At(i, a, 1, SubmitReloading, None))
  {
    s := SecondLoads(config, i, a, now);
    var p, store := At(i, a, 0, SubmitConsuming(a.binding.exactIntentHash), Prep(i, now)), WithPrepared(i, a, now);
    SubmitSteps(config, i, a, now, 1, None);
    s := SecondMoves(config, s, store, p, At(i, a, 1, SubmitLoading, None), now, SubmitWallets(a, false), None, store);
    s := SecondMoves(config, s, store, p, At(i, a, 1, SubmitWallets(a, false), None), now, SubmitBalance(a, false), None, store);
    s := SecondMoves(config, s, store, p, At(i, a, 1, SubmitBalance(a, false), None), now, SubmitReloading, None, store);
  }

  /** The first request consumes the approval. */
  lemma {:induction false} FirstConsumes(config: Config, i: Intent, a: Authorization, now: int) returns (s: System)
    requires Approvable(config, i, a, now)
    ensures Shows(config, s, WithConsumed(i, a, now), At(i, a, 0, SubmitCreating(false), Prep(i, now)), At(i, a, 1, SubmitReloading, None))
  {
    ApprovedFacts(config, i, a, now);
    s := SecondReloads(config, i, a, now);
    s := FirstMoves(config, s, WithPrepared(i, a, now), At(i, a, 0, SubmitConsuming(a.binding.exactIntentHash), Prep(i, now)),
                    At(i, a, 1, SubmitReloading, None), now, SubmitCreating(false), Prep(i, now), WithConsumed(i, a, now));
  }

  /** The second request finds it consumed, and records that it failed. */
  lemma {:induction false} SecondFails(config: Config, i: Intent, a: Authorization, now: int) returns (s: System)
    requires Approvable(config, i, a, now)
    ensures Shows(config, s, WithFailure(i, a, now), At(i, a, 0, SubmitCreating(false), Prep(i, now)), At(i, a, 1, Finishing(Refusal(i, now)), Some(Refusal(i, now))))
  {
    ApprovedFacts(config, i, a, now);
    ConsumedIsRefused(config, i, a, now);
    s := FirstConsumes(config, i, a, now);
    var p, r, store := At(i, a, 0, SubmitCreating(false), Prep(i, now)), Refusal(i, now), WithConsumed(i, a, now);
    s := SecondMoves(config, s, store, p, At(i, a, 1, SubmitReloading, None), now, RecordingSubmitted(r), Some(r), store);
    s := SecondMoves(config, s, store, p, At(i, a, 1, RecordingSubmitted(r), Some(r)), now, Finishing(r), Some(r), WithFailure(i, a, now));
  }

  /** A text of the given shape. */
  function Sample(pattern: string): string {
    if pattern == "" then ""
    else [if pattern[0] == 'h' then '0' else if pattern[0] == 'v' then '1' else if pattern[0] == 'a' then '8' else pattern[0]] + Sample(pattern[1..])
  }

  lemma {:induction false} SampleFits(pattern: string)
    ensures Text.ShapedAs(Sample(pattern), pattern)
  {
    if pattern != "" {
      SampleFits(pattern[1..]);
      assert Sample(pattern)[1..] == Sample(pattern[1..]);
    }
  }

  /** Some transaction id that Circle could give. */
  lemma {:induction false} SomeUuid() returns (id: string)
    ensures Text.IsUuid(id)
  {
    id := Sample("hhhhhhhh-hhhh-vhhh-ahhh-hhhhhhhhhhhh");
    SampleFits("hhhhhhhh-hhhh-vhhh-ahhh-hhhhhhhhhhhh");
  }

  function Created(id: string, c: CreateCall, config: Config): ReturnedTransaction {
    ReturnedTransaction(Some(id), Some(c.idempotencyKey), Some("OUTBOUND"), Some("TRANSFER"), Some(BLOCKCHAIN), Some(config.sourceWalletId),
                        Some(c.destinationAddress), Some([c.amount]), None, None)
  }

  lemma {:induction false} CreatedReports(id: string, c: CreateCall, config: Config)
    requires Text.IsUuid(id)
    ensures Reports(Created(id, c, config), c, config) && IsOperation([Created(id, c, config)], 0, c.idempotencyKey)
  {
  }

  lemma {:induction false} CreationIsHonest(op: ReturnedTransaction, c: CreateCall, config: Config, now: int)
    requires Reports(op, c, config)
    ensures HonestCreate([], c, Quiet(now), [op], config)
  {
    assert [] + [op] == [op];
  }

  /** The first request creates the transfer all the same. */
  lemma {:induction false} FirstCreates(config: Config, i: Intent, a: Authorization, now: int) returns (s: System)
    requires Approvable(config, i, a, now)
    ensures Reached(config, s) && s.store == WithFailure(i, a, now) && Exists(s.operations, i.idempotencyKey)
  {
    var before := SecondFails(config, i, a, now);
    var p := before.processes[0];
    var c := CallOf(p, config);
    var id := SomeUuid();
    var op := Created(id, c, config);
    CreatedReports(id, c, config);
    CreationIsHonest(op, c, config, now);
    var e := Advance(0, Quiet(now), [op]);
    Then(config, before, e);
    OnlyCreatingCalls(config, before.store, p, SubmittedBy(before, p.provider), Quiet(now));
    s := Next(before, config, e);
    assert IsOperation(s.operations, 0, i.idempotencyKey);
  }

  predicate HasStatus(s: DurableState, b: string, status: BindingStatus) {
    b in s.authorizations && s.authorizations[b].binding.status == status
  }

  /** The history of this approval ends with FAILED and names no operation. */
  ghost predicate FailedWithoutIds(s: DurableState, b: string) {
    && b in s.authorizations
    && var h := s.History(s.authorizations[b].transaction.idempotencyKey);
       h != [] && h[|h| - 1].status == Failed && NoOperations(h)
  }

  /** The lost race of an approval, as a state that shows what FAILED does not mean. */
  ghost predicate LostRace(config: Config, s: System, b: string, key: string) {
    && Reached(config, s) && FailedWithoutIds(s.store, b) && FailedForGood(s.store, b, key) && HasStatus(s.store, b, Consumed)
    && Exists(s.operations, key)
  }

  /**
   Two requests for any approved intent can end with a history that says PREPARED and FAILED and names no operation, while
   Circle holds the transfer. The history stays like that, whatever happens afterwards.
   */
  lemma {:induction false} LostRaceRecordsFailure(config: Config, i: Intent, a: Authorization, now: int)
    requires Approvable(config, i, a, now)
    ensures exists s :: LostRace(config, s, a.binding.id, i.idempotencyKey)
              && s.store.History(i.idempotencyKey) == [PreparedResult(i, now), FailureResult(i, AuthorizationUnavailable, now)]
  {
    ApprovedFacts(config, i, a, now);
    var s := FirstCreates(config, i, a, now);
    assert s.store.History(i.idempotencyKey) == [PreparedResult(i, now)] + [Refusal(i, now)];
    assert HoldsKey(s.store.authorizations, a.binding.id, i.idempotencyKey);
  }

  // ----- exactly when FAILED means that there is nothing -----

  /** The state occurs in some honest run. */
  ghost predicate Occurs(config: Config, s: System) {
    exists foreign: set<string>, states: seq<System>, events: seq<Event>, n: nat :: OccursAt(config, foreign, states, events, n, s)
  }

  ghost predicate OccursAt(config: Config, foreign: set<string>, states: seq<System>, events: seq<Event>, n: nat, s: System) {
    HonestRun(config, foreign, states, events) && n < |states| && states[n] == s
  }

  /** In every honest run, a FAILED history without operation ids of an approval in this status means that Circle holds no operation. */
  ghost predicate FailedMeansNothing(config: Config, status: BindingStatus) {
    forall s, b :: Occurs(config, s) && FailedWithoutIds(s.store, b) && HasStatus(s.store, b, status) ==>
      !Exists(s.operations, s.store.authorizations[b].transaction.idempotencyKey)
  }

  lemma {:induction false} UnusedMeansNothing(config: Config, s: System, b: string)
    requires Occurs(config, s) && b in s.store.authorizations && s.store.authorizations[b].binding.status != Consumed
    ensures !Exists(s.operations, s.store.authorizations[b].transaction.idempotencyKey)
  {
    var key := s.store.authorizations[b].transaction.idempotencyKey;
    if Exists(s.operations, key) {
      var foreign: set<string>, states: seq<System>, events: seq<Event>, n: nat :| OccursAt(config, foreign, states, events, n, s);
      var k: nat :| IsOperation(s.operations, k, key);
      AtMostOneOperation(config, foreign, states, events, n, b, k, k);
    }
  }

  lemma {:induction false} ZerosAreHex(n: nat)
    ensures Text.AllHex(Decimal.Zeros(n))
  {
    if n > 0 {
      ZerosAreHex(n - 1);
      assert Decimal.Zeros(n)[1..] == Decimal.Zeros(n - 1);
    }
  }

  /** Every configuration has an approvable intent. */
  lemma {:induction false} SomethingApprovable(config: Config) returns (i: Intent, a: Authorization)
    ensures Approvable(config, i, a, 0)
  {
    var to := "0x" + Decimal.Zeros(40);
    ZerosAreHex(40);
    assert to[2..] == Decimal.Zeros(40);
    i := Intent("release", "release", "approval", "binding", "transaction", "intent", "key", "ARC-TESTNET", ARC_TESTNET_CHAIN_ID, "USDC",
                config.usdcTokenAddress, DEMO_TRANSFER_AMOUNT_ATOMIC, config.sourceWalletId, to);
    var target := Destination(to, config.sourceWalletId, "ARC_TESTNET", ARC_TESTNET_CHAIN_ID, false);
    a := Authorization(ApprovalRecord("approval", "intent", "hash", Approved, Some(0), 1), "release",
                       TransactionRecord("transaction", "intent", "key", "release", "approval", "binding", DEMO_TRANSFER_AMOUNT_ATOMIC, to),
                       Binding("binding", "intent", "hash", ExecutionIntent(ReleaseApproval, Settlement, "USDC", DEMO_TRANSFER_AMOUNT_ATOMIC, target), Active, None, None),
                       true);
  }

  lemma {:induction false} LostRaceRefutes(config: Config, s: System, b: string, key: string)
    requires LostRace(config, s, b, key)
    ensures !FailedMeansNothing(config, Consumed)
  {
    var states, events :| RunTo(config, states, events, s);
    assert OccursAt(config, {}, states, events, |events|, s);
    assert s.store.authorizations[b].transaction.idempotencyKey == key;
  }

  /** A FAILED history without operation ids means that Circle holds no operation exactly when the approval is not consumed. */
  lemma {:induction false} FailedMeansNothingIff(config: Config, status: BindingStatus)
    ensures FailedMeansNothing(config, status) <==> status != Consumed
  {
    if status != Consumed {
      forall s, b | Occurs(config, s) && FailedWithoutIds(s.store, b) && HasStatus(s.store, b, status)
        ensures !Exists(s.operations, s.store.authorizations[b].transaction.idempotencyKey)
      {
        UnusedMeansNothing(config, s, b);
      }
    } else {
      var i, a := SomethingApprovable(config);
      LostRaceRecordsFailure(config, i, a, 0);
      var s :| LostRace(config, s, a.binding.id, i.idempotencyKey);
      LostRaceRefutes(config, s, a.binding.id, i.idempotencyKey);
    }
  }
}
