/**
 Safety of the handoff over every interleaving, crash and fault, whatever Circle answers: a transfer is requested
 only under an approval that is already consumed for it, and every request for one approval is the same request.
 */
module HandoffSafety {
  import opened Wrappers
  import opened Records
  import opened DurableStore
  import opened DurableStoreProperties
  import opened CircleProvider
  import opened Handoff
  import Decimal
  import Text

  // ----- every step is at most one locked operation on the store -----

  ghost predicate OneOperation(s: DurableState, t: DurableState) {
    t == s || exists op :: t == Apply(s, op)
  }

  lemma {:induction false} BeforeIsOneOperation(s: DurableState, p: Process, x: Input)
    requires IsBefore(p.pc)
    ensures OneOperation(s, StepBefore(s, p, x).store)
  {
    if p.pc.Persisting? { assert StepBefore(s, p, x).store == Apply(s, PersistOp(p.candidate)); }
    if p.pc.Claiming? { assert StepBefore(s, p, x).store == Apply(s, ClaimOp(p.intent, x.now, x.freshToken)); }
  }

  lemma {:induction false} RecordingIsOneOperation(s: DurableState, p: Process, r: TransferResult)
    ensures RecordOrComplete(s, p, r).Success? ==> OneOperation(s, RecordOrComplete(s, p, r).value)
    ensures RecordResult(s, r).Success? ==> OneOperation(s, RecordResult(s, r).value)
  {
    if RecordResult(s, r).Success? { assert RecordResult(s, r).value == Apply(s, RecordOp(r)); }
    if p.claimToken.Some? && CompleteClaim(s, p.claimToken.value, r).Success? {
      assert CompleteClaim(s, p.claimToken.value, r).value == Apply(s, CompleteOp(p.claimToken.value, r));
    }
  }

  lemma {:induction false} SubmitIsOneOperation(s: DurableState, p: Process, config: Config, submitted: set<string>, x: Input)
    requires IsSubmit(p.pc)
    ensures OneOperation(s, StepSubmit(s, p, config, submitted, x).store)
  {
    match p.pc {
      case SubmitConsuming(hash) =>
        assert StepSubmitConsuming(s, p, config, x).store == Apply(s, ConsumeOp(p.intent, hash, x.now));
      case RecordingSubmitted(r) => RecordingIsOneOperation(s, p, r);
      case _ =>
    }
  }

  lemma {:induction false} AfterIsOneOperation(s: DurableState, p: Process, config: Config, x: Input)
    requires IsAfter(p.pc)
    ensures OneOperation(s, StepAfter(s, p, config, x).store)
  {
    match p.pc {
      case RecordingTerminal(r) => RecordingIsOneOperation(s, p, r);
      case RecordingOutcome(r) => RecordingIsOneOperation(s, p, r);
      case Reconciling(_, c) =>
        if RecordReconciliation(s, c).Success? { assert StepReconciling(s, p).store == Apply(s, ReconcileOp(c)); }
      case _ =>
    }
  }

  lemma {:induction false} UndisturbedIsOneOperation(s: DurableState, p: Process, config: Config, submitted: set<string>, x: Input)
    ensures OneOperation(s, Undisturbed(s, p, config, submitted, x).store)
  {
    if IsBefore(p.pc) { BeforeIsOneOperation(s, p, x); }
    else if IsSubmit(p.pc) { SubmitIsOneOperation(s, p, config, submitted, x); }
    else if IsAfter(p.pc) { AfterIsOneOperation(s, p, config, x); }
    else if p.pc.RecordingPrepared? { RecordingIsOneOperation(s, p, p.pc.prepared); }
  }

  lemma {:induction false} ExecuteIsOneOperation(s: DurableState, p: Process, config: Config, submitted: set<string>, x: Input)
    ensures OneOperation(s, Execute(s, p, config, submitted, x).store)
  {
    UndisturbedIsOneOperation(s, p, config, submitted, x);
  }

  lemma {:induction false} ExecuteGrows(s: DurableState, p: Process, config: Config, submitted: set<string>, x: Input)
    requires Inv(s)
    ensures Inv(Execute(s, p, config, submitted, x).store)
    ensures Grows(s, Execute(s, p, config, submitted, x).store)
  {
    ExecuteIsOneOperation(s, p, config, submitted, x);
    var t := Execute(s, p, config, submitted, x).store;
    if t != s {
      var op :| t == Apply(s, op);
      StepKeepsInv(s, op);
    }
  }

  // ----- authorized intents -----

  /** The stored binding of this intent is consumed by its transaction record, and the intent matches the records. */
  predicate Authorized(config: Config, s: DurableState, i: Intent) {
    && i.authorizationBindingId in s.authorizations
    && var a := s.authorizations[i.authorizationBindingId];
    && ConsumedBy(a, i) && ReferencesMatch(a, i)
    && MatchIntentToRecords(i, Some(a), config) == Ok
  }

  /** What a process at each await relies on. All of it stays true while other processes run. */
  ghost predicate ProcessOk(config: Config, s: DurableState, p: Process) {
    match p.pc
    case Persisting => p.candidate.binding.status == Active || p.candidate.binding.id in s.authorizations
    case SubmitWallets(initial, recovering) => recovering ==> Authorized(config, s, p.intent) && ConsumedBy(initial, p.intent)
    case SubmitListing(initial) => Authorized(config, s, p.intent) && ConsumedBy(initial, p.intent)
    case SubmitBalance(_, recovering) => recovering ==> Authorized(config, s, p.intent)
    case SubmitCreating(_) => Authorized(config, s, p.intent)
    case _ => true
  }

  lemma {:induction false} ProcessStaysOk(config: Config, s: DurableState, t: DurableState, p: Process)
    requires Grows(s, t) && ProcessOk(config, s, p)
    ensures ProcessOk(config, t, p)
  {
  }

  /** Consuming with a snapshot that passes revalidation leaves the intent authorized. */
  lemma {:induction false} ConsumptionAuthorizes(config: Config, s: DurableState, i: Intent, hash: string, now: int, later: int)
    requires Consume(s, i, hash, now).1.Some?
    requires RevalidateApprovedIntent(i, Consume(s, i, hash, now).1, config, later) == Ok
    ensures Authorized(config, Consume(s, i, hash, now).0, i)
  {
    var (t, before) := Consume(s, i, hash, now);
    var a := t.authorizations[i.authorizationBindingId];
    MatchIgnoresConsumption(i, before.value, a, config);
  }

  lemma {:induction false} LoadingKeepsProcessOk(config: Config, s: DurableState, p: Process, submitted: set<string>, x: Input)
    requires p.pc.SubmitLoading?
    ensures var e := StepSubmitLoading(s, p, config, submitted, x); ProcessOk(config, e.store, e.process)
  {
  }

  lemma {:induction false} ConsumingKeepsProcessOk(config: Config, s: DurableState, p: Process, x: Input)
    requires p.pc.SubmitConsuming?
    ensures var e := StepSubmitConsuming(s, p, config, x); ProcessOk(config, e.store, e.process)
  {
    var hash := p.pc.expectedHash;
    if Consume(s, p.intent, hash, x.now).1.Some?
       && RevalidateApprovedIntent(p.intent, Consume(s, p.intent, hash, x.now).1, config, x.later) == Ok {
      ConsumptionAuthorizes(config, s, p.intent, hash, x.now, x.later);
    }
  }

  lemma {:induction false} ChecksKeepProcessOk(config: Config, s: DurableState, p: Process, x: Input)
    requires ProcessOk(config, s, p) && (p.pc.SubmitWallets? || p.pc.SubmitBalance?)
    ensures var e := if p.pc.SubmitWallets? then StepSubmitWallets(s, p, x) else StepSubmitBalance(s, p, x);
            ProcessOk(config, e.store, e.process)
  {
  }

  lemma {:induction false} ListingKeepsProcessOk(config: Config, s: DurableState, p: Process, x: Input)
    requires ProcessOk(config, s, p) && p.pc.SubmitListing?
    ensures var e := StepSubmitListing(s, p, config, x); ProcessOk(config, e.store, e.process)
  {
  }

  lemma {:induction false} SubmitKeepsProcessOk(config: Config, s: DurableState, p: Process, submitted: set<string>, x: Input)
    requires ProcessOk(config, s, p)
    requires IsSubmit(p.pc)
    ensures var e := StepSubmit(s, p, config, submitted, x); ProcessOk(config, e.store, e.process)
  {
    if p.pc.SubmitLoading? { LoadingKeepsProcessOk(config, s, p, submitted, x); }
    else if p.pc.SubmitWallets? || p.pc.SubmitBalance? { ChecksKeepProcessOk(config, s, p, x); }
    else if p.pc.SubmitListing? { ListingKeepsProcessOk(config, s, p, x); }
    else if p.pc.SubmitConsuming? { ConsumingKeepsProcessOk(config, s, p, x); }
    else { assert Carefree(StepSubmit(s, p, config, submitted, x).process.pc); }
  }

  /** An await at which a process relies on nothing. */
  predicate Carefree(pc: PC) {
    !pc.Persisting? && !pc.SubmitWallets? && !pc.SubmitListing? && !pc.SubmitBalance? && !pc.SubmitCreating?
  }

  lemma {:induction false} BeforeIsCarefree(s: DurableState, p: Process, x: Input)
    requires IsBefore(p.pc)
    ensures Carefree(StepBefore(s, p, x).process.pc)
  {
  }

  lemma {:induction false} AfterIsCarefree(s: DurableState, p: Process, config: Config, x: Input)
    requires IsAfter(p.pc)
    ensures Carefree(StepAfter(s, p, config, x).process.pc)
  {
  }

  lemma {:induction false} UndisturbedKeepsProcessOk(config: Config, s: DurableState, p: Process, submitted: set<string>, x: Input)
    requires ProcessOk(config, s, p)
    ensures var e := Undisturbed(s, p, config, submitted, x); ProcessOk(config, e.store, e.process)
  {
    if IsBefore(p.pc) { BeforeIsCarefree(s, p, x); }
    else if IsSubmit(p.pc) { SubmitKeepsProcessOk(config, s, p, submitted, x); }
    else if IsAfter(p.pc) { AfterIsCarefree(s, p, config, x); }
  }

  lemma {:induction false} ThrowIsCarefree(p: Process, s: DurableState)
    ensures Carefree(Throw(p, s).process.pc)
  {
  }

  lemma {:induction false} ExecuteKeepsProcessOk(config: Config, s: DurableState, p: Process, submitted: set<string>, x: Input)
    requires ProcessOk(config, s, p)
    ensures var e := Execute(s, p, config, submitted, x); ProcessOk(config, e.store, e.process)
  {
    UndisturbedKeepsProcessOk(config, s, p, submitted, x);
    ThrowIsCarefree(p, s);
    ThrowIsCarefree(p, Undisturbed(s, p, config, submitted, x).store);
  }

  // ----- requests to Circle -----

  /** The request carries exactly what the consumed authorization approves. */
  predicate CallJustified(config: Config, s: DurableState, c: CreateCall) {
    && c.bindingId in s.authorizations
    && var a := s.authorizations[c.bindingId];
    var e := a.binding.executionIntent;
    && a.binding.status == Consumed && a.binding.consumedByTransactionId == Some(a.transaction.id)
    && c.idempotencyKey == a.transaction.idempotencyKey
    && c.amount == Decimal.AtomicToDecimal(e.atomicAmount)
    && c.tokenAddress == config.usdcTokenAddress
    && e.protocolTarget.Destination? && Text.SameUpToCase(e.protocolTarget.destination, c.destinationAddress)
  }

  lemma {:induction false} CallIsJustified(config: Config, s: DurableState, p: Process)
    requires p.pc.SubmitCreating? && Authorized(config, s, p.intent)
    ensures CallJustified(config, s, CallOf(p, config))
  {
  }

  lemma {:induction false} CallStaysJustified(config: Config, s: DurableState, t: DurableState, c: CreateCall)
    requires Grows(s, t) && CallJustified(config, s, c)
    ensures CallJustified(config, t, c)
  {
  }

  /** Only the await on createTransaction asks Circle for anything. */
  lemma {:induction false} OnlyCreatingCalls(config: Config, s: DurableState, p: Process, submitted: set<string>, x: Input)
    ensures Execute(s, p, config, submitted, x).call == if p.pc.SubmitCreating? then Some(CallOf(p, config)) else None
    ensures p.pc.SubmitCreating? ==> Execute(s, p, config, submitted, x).store == s
  {
  }

  // ----- consumption of approvals -----

  predicate Distinct(log: seq<string>) {
    forall i, j :: 0 <= i < j < |log| ==> log[i] != log[j]
  }

  predicate IsConsumed(s: DurableState, b: string) {
    b in s.authorizations && s.authorizations[b].binding.status == Consumed
  }

  /** The log names exactly the consumed bindings, each once. */
  ghost predicate LogOk(s: DurableState, log: seq<string>) {
    && Distinct(log)
    && forall b :: b in log <==> IsConsumed(s, b)
  }

  /** An effect consumes at most this binding, and logs it exactly when it does. */
  ghost predicate ConsumesAtMost(s: DurableState, e: Effect, b: string) {
    && (e.consumed == {} || (e.consumed == {b} && !IsConsumed(s, b)))
    && forall c :: IsConsumed(e.store, c) <==> IsConsumed(s, c) || c in e.consumed
  }

  lemma {:induction false} BeforeConsumesNothing(config: Config, s: DurableState, p: Process, x: Input)
    requires Inv(s) && ProcessOk(config, s, p) && IsBefore(p.pc)
    ensures ConsumesAtMost(s, StepBefore(s, p, x), p.intent.authorizationBindingId)
  {
    if p.pc.Persisting? {
      PersistConsumesNothing(s, p);
    } else {
      assert StepBefore(s, p, x).store.authorizations == s.authorizations;
    }
  }

  lemma {:induction false} SubmitConsumesOne(config: Config, s: DurableState, p: Process, submitted: set<string>, x: Input)
    requires IsSubmit(p.pc)
    ensures ConsumesAtMost(s, StepSubmit(s, p, config, submitted, x), p.intent.authorizationBindingId)
  {
    if p.pc.SubmitConsuming? { ConsumingConsumesOne(config, s, p, x); }
    else if p.pc.RecordingSubmitted? { RecordingConsumesNothing(s, p, p.pc.submitted); }
    else { assert StepSubmit(s, p, config, submitted, x).store == s; }
  }

  lemma {:induction false} AfterConsumesNothing(config: Config, s: DurableState, p: Process, x: Input)
    requires IsAfter(p.pc)
    ensures ConsumesAtMost(s, StepAfter(s, p, config, x), p.intent.authorizationBindingId)
  {
    if p.pc.RecordingTerminal? { RecordingConsumesNothing(s, p, p.pc.terminal); }
    else if p.pc.RecordingOutcome? { RecordingConsumesNothing(s, p, p.pc.outcome); }
    else { assert StepAfter(s, p, config, x).store.authorizations == s.authorizations; }
  }

  lemma {:induction false} UndisturbedConsumesOne(config: Config, s: DurableState, p: Process, submitted: set<string>, x: Input)
    requires Inv(s) && ProcessOk(config, s, p)
    ensures ConsumesAtMost(s, Undisturbed(s, p, config, submitted, x), p.intent.authorizationBindingId)
  {
    if IsBefore(p.pc) { BeforeConsumesNothing(config, s, p, x); }
    else if IsSubmit(p.pc) { SubmitConsumesOne(config, s, p, submitted, x); }
    else if IsAfter(p.pc) { AfterConsumesNothing(config, s, p, x); }
    else if p.pc.RecordingPrepared? { RecordingConsumesNothing(s, p, p.pc.prepared); }
  }

  /** A step consumes at most its own intent's binding, which was not consumed before. */
  lemma {:induction false} ConsumesOwnBinding(config: Config, s: DurableState, p: Process, submitted: set<string>, x: Input)
    requires Inv(s) && ProcessOk(config, s, p)
    ensures ConsumesAtMost(s, Execute(s, p, config, submitted, x), p.intent.authorizationBindingId)
  {
    UndisturbedConsumesOne(config, s, p, submitted, x);
  }

  lemma {:induction false} PersistConsumesNothing(s: DurableState, p: Process)
    requires Inv(s) && p.pc.Persisting? && (p.candidate.binding.status == Active || p.candidate.binding.id in s.authorizations)
    ensures forall c :: IsConsumed(StepPersisting(s, p).store, c) <==> IsConsumed(s, c)
  {
    if p.candidate.binding.id in s.authorizations {
      assert s.authorizations[p.candidate.binding.id].binding.id == p.candidate.binding.id;
    } else {
      assert !IsConsumed(s, p.candidate.binding.id);
    }
  }

  lemma {:induction false} RecordingConsumesNothing(s: DurableState, p: Process, r: TransferResult)
    ensures RecordOrComplete(s, p, r).Success? ==> RecordOrComplete(s, p, r).value.authorizations == s.authorizations
    ensures RecordResult(s, r).Success? ==> RecordResult(s, r).value.authorizations == s.authorizations
  {
  }

  lemma {:induction false} ConsumingConsumesOne(config: Config, s: DurableState, p: Process, x: Input)
    requires p.pc.SubmitConsuming?
    ensures ConsumesAtMost(s, StepSubmitConsuming(s, p, config, x), p.intent.authorizationBindingId)
  {
  }

  // ----- the system invariant -----

  ghost predicate SystemInv(config: Config, s: System) {
    && Inv(s.store)
    && (forall id :: id in s.processes ==> ProcessOk(config, s.store, s.processes[id]))
    && (forall n :: 0 <= n < |s.calls| ==> CallJustified(config, s.store, s.calls[n]))
    && LogOk(s.store, s.consumed)
  }

  lemma {:induction false} AdvanceKeepsLog(config: Config, s: System, id: nat, x: Input, after: seq<ReturnedTransaction>)
    requires SystemInv(config, s) && id in s.processes
    ensures var t := Advanced(s, config, id, x, after); LogOk(t.store, t.consumed)
  {
    var p := s.processes[id];
    var e := EffectOf(s, config, id, x);
    ConsumesOwnBinding(config, s.store, p, SubmittedBy(s, p.provider), x);
    var t := Advanced(s, config, id, x, after);
    if e.consumed != {} {
      assert t.consumed == s.consumed + [p.intent.authorizationBindingId];
      assert p.intent.authorizationBindingId !in s.consumed;
    } else {
      assert t.consumed == s.consumed;
    }
  }

  lemma {:induction false} AdvanceKeepsInv(config: Config, s: System, id: nat, x: Input, after: seq<ReturnedTransaction>)
    requires SystemInv(config, s) && id in s.processes
    ensures SystemInv(config, Advanced(s, config, id, x, after))
    ensures Grows(s.store, Advanced(s, config, id, x, after).store)
  {
    var p := s.processes[id];
    var e := EffectOf(s, config, id, x);
    var t := Advanced(s, config, id, x, after);
    ExecuteGrows(s.store, p, config, SubmittedBy(s, p.provider), x);
    ExecuteKeepsProcessOk(config, s.store, p, SubmittedBy(s, p.provider), x);
    OnlyCreatingCalls(config, s.store, p, SubmittedBy(s, p.provider), x);
    forall other | other in t.processes ensures ProcessOk(config, t.store, t.processes[other]) {
      if other != id { ProcessStaysOk(config, s.store, t.store, s.processes[other]); }
    }
    forall n | 0 <= n < |t.calls| ensures CallJustified(config, t.store, t.calls[n]) {
      if n < |s.calls| {
        CallStaysJustified(config, s.store, t.store, s.calls[n]);
      } else {
        CallIsJustified(config, s.store, p);
      }
    }
    AdvanceKeepsLog(config, s, id, x, after);
  }

  lemma {:induction false} NextKeepsInv(config: Config, s: System, e: Event)
    requires SystemInv(config, s) && Enabled(s, e)
    ensures SystemInv(config, Next(s, config, e)) && Grows(s.store, Next(s, config, e).store)
    ensures s.calls <= Next(s, config, e).calls && s.consumed <= Next(s, config, e).consumed
  {
    if e.Advance? { AdvanceKeepsInv(config, s, e.id, e.x, e.operationsAfter); }
  }

  lemma {:induction false} RunKeepsInv(config: Config, states: seq<System>, events: seq<Event>, n: nat)
    requires Run(config, states, events) && n < |states|
    ensures SystemInv(config, states[n])
  {
    if n > 0 {
      RunKeepsInv(config, states, events, n - 1);
      NextKeepsInv(config, states[n - 1], events[n - 1]);
    }
  }

  // ----- the theorems -----

  /**
   In every run, whenever a step asks Circle to create a transfer, the approval of that transfer was consumed for it
   beforehand, exactly once, and the request carries its idempotency key, amount, token and destination.
   */
  lemma {:induction false} CreatedOnlyAfterConsumption(config: Config, states: seq<System>, events: seq<Event>, n: nat)
    requires Run(config, states, events) && n < |events| && events[n].Advance?
    requires EffectOf(states[n], config, events[n].id, events[n].x).call.Some?
    ensures var c := EffectOf(states[n], config, events[n].id, events[n].x).call.value;
            && CallJustified(config, states[n].store, c)
            && c.amount == Decimal.AtomicToDecimal(1_000_000)
            && (exists k :: 0 <= k < |states[n].consumed| && states[n].consumed[k] == c.bindingId)
            && Distinct(states[n].consumed)
  {
    RunKeepsInv(config, states, events, n);
    var s, p := states[n], states[n].processes[events[n].id];
    OnlyCreatingCalls(config, s.store, p, SubmittedBy(s, p.provider), events[n].x);
    CallIsJustified(config, s.store, p);
    assert IsConsumed(s.store, p.intent.authorizationBindingId);
    assert p.intent.authorizationBindingId in s.consumed;
  }

  /** Two requests with one idempotency key, from any processes at any times, ask for the same transfer under the same approval. */
  lemma {:induction false} SameKeySameRequest(config: Config, states: seq<System>, events: seq<Event>, n: nat, c: CreateCall, d: CreateCall)
    requires Run(config, states, events) && n < |states|
    requires c in states[n].calls && d in states[n].calls && c.idempotencyKey == d.idempotencyKey
    ensures c.bindingId == d.bindingId && c.amount == d.amount && c.tokenAddress == d.tokenAddress
    ensures Text.SameUpToCase(c.destinationAddress, d.destinationAddress)
  {
    RunKeepsInv(config, states, events, n);
    CallsAgree(config, states[n], c, d);
  }

  lemma {:induction false} CallsAgree(config: Config, s: System, c: CreateCall, d: CreateCall)
    requires SystemInv(config, s) && c in s.calls && d in s.calls && c.idempotencyKey == d.idempotencyKey
    ensures c.bindingId == d.bindingId && c.amount == d.amount && c.tokenAddress == d.tokenAddress
    ensures Text.SameUpToCase(c.destinationAddress, d.destinationAddress)
    ensures CallJustified(config, s.store, c)
  {
    var auths := s.store.authorizations;
    assert HoldsKey(auths, c.bindingId, c.idempotencyKey) && HoldsKey(auths, d.bindingId, d.idempotencyKey);
  }

  /** While an approval is unused, nothing was ever requested under its key; so a retry claim is only granted before any submission. */
  lemma {:induction false} UnusedApprovalWasNeverSubmitted(config: Config, states: seq<System>, events: seq<Event>, n: nat, b: string, c: CreateCall)
    requires Run(config, states, events) && n < |states| && c in states[n].calls
    requires b in states[n].store.authorizations && states[n].store.authorizations[b].binding.status != Consumed
    ensures c.idempotencyKey != states[n].store.authorizations[b].transaction.idempotencyKey
  {
    RunKeepsInv(config, states, events, n);
    var auths := states[n].store.authorizations;
    assert CallJustified(config, states[n].store, c);
    if c.idempotencyKey == auths[b].transaction.idempotencyKey {
      assert HoldsKey(auths, c.bindingId, c.idempotencyKey) && HoldsKey(auths, b, c.idempotencyKey);
    }
  }

  lemma {:induction false} RetryClaimPrecedesSubmission(config: Config, states: seq<System>, events: seq<Event>, n: nat, i: Intent, now: int)
    requires Run(config, states, events) && n < |states| && CanClaim(states[n].store, i, now)
    ensures forall c :: c in states[n].calls ==> c.idempotencyKey != i.idempotencyKey
  {
    forall c | c in states[n].calls ensures c.idempotencyKey != i.idempotencyKey {
      UnusedApprovalWasNeverSubmitted(config, states, events, n, i.authorizationBindingId, c);
    }
  }

  // ----- one first request per approval -----

  predicate FirstRequest(p: Process) {
    p.pc.SubmitCreating? && !p.pc.recovering
  }

  /** Processes about to make a first request hold different approvals, none of which had a first request before. */
  ghost predicate FirstRequestsApart(processes: map<nat, Process>, calls: seq<CreateCall>) {
    && (forall i, j :: i in processes && j in processes && i != j && FirstRequest(processes[i]) && FirstRequest(processes[j]) ==>
          processes[i].intent.authorizationBindingId != processes[j].intent.authorizationBindingId)
    && (forall i, n :: i in processes && FirstRequest(processes[i]) && 0 <= n < |calls| && !calls[n].recovering ==>
          calls[n].bindingId != processes[i].intent.authorizationBindingId)
    && (forall m, n :: 0 <= m < n < |calls| && !calls[m].recovering && !calls[n].recovering ==> calls[m].bindingId != calls[n].bindingId)
  }

  /** A process comes to its first request only by consuming its approval in that very step. */
  lemma {:induction false} FirstRequestConsumes(config: Config, s: DurableState, p: Process, submitted: set<string>, x: Input)
    requires FirstRequest(Execute(s, p, config, submitted, x).process)
    ensures p.pc.SubmitConsuming? && !IsConsumed(s, p.intent.authorizationBindingId)
    ensures Execute(s, p, config, submitted, x).process.intent == p.intent
  {
    ArrivesByConsuming(s, p, config, submitted, x);
  }

  lemma {:induction false} ArrivesByConsuming(s: DurableState, p: Process, config: Config, submitted: set<string>, x: Input)
    requires FirstRequest(Execute(s, p, config, submitted, x).process)
    ensures p.pc.SubmitConsuming? && Execute(s, p, config, submitted, x) == StepSubmitConsuming(s, p, config, x)
    ensures Consume(s, p.intent, p.pc.expectedHash, x.now).1.Some?
  {
    if IsBefore(p.pc) { BeforeIsCarefree(s, p, x); }
    else if IsAfter(p.pc) { AfterIsCarefree(s, p, config, x); }
    ThrowIsCarefree(p, s);
    ThrowIsCarefree(p, Undisturbed(s, p, config, submitted, x).store);
  }

  lemma {:induction false} FirstRequestJoins(processes: map<nat, Process>, calls: seq<CreateCall>, id: nat, q: Process)
    requires FirstRequestsApart(processes, calls)
    requires forall i :: i in processes && i != id && FirstRequest(processes[i]) ==>
               processes[i].intent.authorizationBindingId != q.intent.authorizationBindingId
    requires forall n :: 0 <= n < |calls| ==> calls[n].bindingId != q.intent.authorizationBindingId
    ensures FirstRequestsApart(processes[id := q], calls)
  {
  }

  lemma {:induction false} FirstRequestEnds(processes: map<nat, Process>, calls: seq<CreateCall>, id: nat, q: Process, c: CreateCall)
    requires FirstRequestsApart(processes, calls) && id in processes && !FirstRequest(q)
    requires !c.recovering ==> FirstRequest(processes[id]) && c.bindingId == processes[id].intent.authorizationBindingId
    ensures FirstRequestsApart(processes[id := q], calls + [c])
  {
  }

  lemma {:induction false} AdvanceKeepsFirstRequestsApart(config: Config, s: System, id: nat, x: Input, after: seq<ReturnedTransaction>)
    requires SystemInv(config, s) && FirstRequestsApart(s.processes, s.calls) && id in s.processes
    ensures var t := Advanced(s, config, id, x, after); FirstRequestsApart(t.processes, t.calls)
  {
    var p := s.processes[id];
    var e := EffectOf(s, config, id, x);
    OnlyCreatingCalls(config, s.store, p, SubmittedBy(s, p.provider), x);
    if FirstRequest(e.process) {
      FirstRequestConsumes(config, s.store, p, SubmittedBy(s, p.provider), x);
      OthersAreConsumed(config, s);
      FirstRequestJoins(s.processes, s.calls, id, e.process);
      assert Advanced(s, config, id, x, after).calls == s.calls;
    } else if e.call.Some? {
      FirstRequestEnds(s.processes, s.calls, id, e.process, e.call.value);
    } else {
      assert Advanced(s, config, id, x, after).calls == s.calls;
    }
  }

  lemma {:induction false} OthersAreConsumed(config: Config, s: System)
    requires SystemInv(config, s)
    ensures forall i :: i in s.processes && FirstRequest(s.processes[i]) ==> IsConsumed(s.store, s.processes[i].intent.authorizationBindingId)
    ensures forall n :: 0 <= n < |s.calls| ==> IsConsumed(s.store, s.calls[n].bindingId)
  {
    forall i | i in s.processes && FirstRequest(s.processes[i]) ensures IsConsumed(s.store, s.processes[i].intent.authorizationBindingId) {
      assert ProcessOk(config, s.store, s.processes[i]);
    }
  }

  lemma {:induction false} RunKeepsFirstRequestsApart(config: Config, states: seq<System>, events: seq<Event>, n: nat)
    requires Run(config, states, events) && n < |states|
    ensures FirstRequestsApart(states[n].processes, states[n].calls)
  {
    if n > 0 {
      RunKeepsFirstRequestsApart(config, states, events, n - 1);
      RunKeepsInv(config, states, events, n - 1);
      var s, e := states[n - 1], events[n - 1];
      if e.Advance? { AdvanceKeepsFirstRequestsApart(config, s, e.id, e.x, e.operationsAfter); }
    }
  }

  /**
   Whatever Circle answers and however requests crash and interleave, one approval leads to at most one request that is not
   a recovery.
   */
  lemma {:induction false} OneFirstRequestPerApproval(config: Config, states: seq<System>, events: seq<Event>, n: nat, j: nat, k: nat)
    requires Run(config, states, events) && n < |states| && j < |states[n].calls| && k < |states[n].calls|
    requires !states[n].calls[j].recovering && !states[n].calls[k].recovering && states[n].calls[j].bindingId == states[n].calls[k].bindingId
    ensures j == k
  {
    RunKeepsFirstRequestsApart(config, states, events, n);
    assert !(j < k) && !(k < j);
  }

  // ----- a recovery asks only after a listing without the operation -----

  predicate AwaitsRecovery(p: Process) {
    (p.pc.SubmitCreating? && p.pc.recovering) || (p.pc.SubmitBalance? && p.pc.recovering)
  }

  /** The m-th event is this process reading a listing in which its operation is not found. */
  predicate ListsNothing(config: Config, states: seq<System>, events: seq<Event>, m: nat, id: nat, i: Intent) {
    && m < |events| && m < |states| && events[m].Advance? && events[m].id == id && id in states[m].processes
    && states[m].processes[id].intent == i && states[m].processes[id].pc.SubmitListing?
    && events[m].x.listing.Some? && Recover(i, events[m].x.listing.value, config) == NotFound
  }

  lemma {:induction false} SubmitAwaitsListing(config: Config, s: DurableState, p: Process, submitted: set<string>, x: Input)
    requires IsSubmit(p.pc) && AwaitsRecovery(StepSubmit(s, p, config, submitted, x).process)
    ensures StepSubmit(s, p, config, submitted, x).process.intent == p.intent
    ensures AwaitsRecovery(p) || (p.pc.SubmitListing? && x.listing.Some? && Recover(p.intent, x.listing.value, config) == NotFound)
  {
  }

  lemma {:induction false} RecoveryAwaitsListing(config: Config, s: DurableState, p: Process, submitted: set<string>, x: Input)
    requires AwaitsRecovery(Execute(s, p, config, submitted, x).process)
    ensures Execute(s, p, config, submitted, x).process.intent == p.intent
    ensures AwaitsRecovery(p) || (p.pc.SubmitListing? && x.listing.Some? && Recover(p.intent, x.listing.value, config) == NotFound)
  {
    ThrowIsCarefree(p, s);
    ThrowIsCarefree(p, Undisturbed(s, p, config, submitted, x).store);
    if IsBefore(p.pc) { BeforeIsCarefree(s, p, x); }
    else if IsAfter(p.pc) { AfterIsCarefree(s, p, config, x); }
    else if IsSubmit(p.pc) { SubmitAwaitsListing(config, s, p, submitted, x); }
  }

  /** The process has been the same one, with the same intent, in all states after the m-th up to the n-th. */
  predicate SameProcess(states: seq<System>, m: nat, n: nat, id: nat, i: Intent) {
    n < |states| && forall k :: m < k <= n ==> id in states[k].processes && states[k].processes[id].intent == i
  }

  lemma {:induction false} AwaitedListing(config: Config, states: seq<System>, events: seq<Event>, n: nat, id: nat) returns (m: nat)
    requires Run(config, states, events) && n < |states| && id in states[n].processes && AwaitsRecovery(states[n].processes[id])
    ensures m < n && ListsNothing(config, states, events, m, id, states[n].processes[id].intent)
    ensures SameProcess(states, m, n, id, states[n].processes[id].intent)
  {
    var s, e := states[n - 1], events[n - 1];
    assert Enabled(s, e) && states[n] == Next(s, config, e);
    if e.Advance? && e.id == id {
      RecoveryAwaitsListing(config, s.store, s.processes[id], SubmittedBy(s, s.processes[id].provider), e.x);
    }
    if AwaitsRecovery(s.processes[id]) {
      m := AwaitedListing(config, states, events, n - 1, id);
    } else {
      m := n - 1;
    }
  }

  /** Every recovering request follows a listing, read by the same process, in which no operation of its intent was found. */
  lemma {:induction false} RecoveryFollowsListing(config: Config, states: seq<System>, events: seq<Event>, n: nat)
    requires Run(config, states, events) && n < |events| && events[n].Advance?
    requires var e := EffectOf(states[n], config, events[n].id, events[n].x); e.call.Some? && e.call.value.recovering
    ensures var id, i := events[n].id, states[n].processes[events[n].id].intent;
            exists m: nat :: m < n && ListsNothing(config, states, events, m, id, i) && SameProcess(states, m, n, id, i)
  {
    var s, id := states[n], events[n].id;
    OnlyCreatingCalls(config, s.store, s.processes[id], SubmittedBy(s, s.processes[id].provider), events[n].x);
    var m := AwaitedListing(config, states, events, n, id);
  }
}
