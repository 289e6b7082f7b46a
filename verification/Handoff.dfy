/**
 The live handoff (apps/web/lib/verification-agent/live-handoff.ts) with the transfer provider it drives
 (packages/circle-adapter/src/circle-wallet-provider.ts), as processes that share the durable store.

 One step of a process runs one awaited operation and the code up to the next await. A process may be scheduled
 against any other, may stop forever at any await (a crash), and any awaited operation may fail before or after
 it took effect.
 */
module Handoff {
  import opened Wrappers
  import opened Records
  import opened DurableStore
  import opened CircleProvider
  import Decimal
  import Text

  datatype Outcome = Returned(result: TransferResult) | Duplicate | Threw

  /** Where a request stands; each constructor is one await, with the values the code holds there. */
  datatype PC =
    // before the try block
    | Persisting
    | LoadingAuthorization
    | LoadingResult(persisted: Authorization)
    | LoadingHistory(persisted: Authorization, existing: Option<TransferResult>)
    | Claiming
    | Replaying(terminal: TransferResult)
    // inside the try block: prepare
    | Preparing
    | RecordingPrepared(prepared: TransferResult)
    // inside the try block: submitTransfer
    | SubmitLoading
    | SubmitWallets(initial: Authorization, recovering: bool)
    | SubmitListing(initial: Authorization)
    | SubmitBalance(initial: Authorization, recovering: bool)
    | SubmitReloading
    | SubmitConsuming(expectedHash: string)
    | SubmitCreating(recovering: bool)
    | RecordingSubmitted(submitted: TransferResult)
    // inside the try block: pollTransfer
    | PollLoading(operationId: string)
    | Polling(operationId: string)
    | RecordingTerminal(terminal: TransferResult)
    // the catch block
    | CatchLoading
    | RecordingOutcome(outcome: TransferResult)
    // finish
    | Finishing(transfer: TransferResult)
    | Reconciling(transfer: TransferResult, evidence: Reconciliation)
    | Done(verdict: Outcome)

  datatype Process = Process(
    intent: Intent, candidate: Authorization, provider: nat, pc: PC,
    claimToken: Option<string>, claimCompleted: bool, lastResult: Option<TransferResult>)

  datatype Fault = NoFault | FailBefore | FailAfter

  /** What the outside world contributes to one step. */
  datatype Input = Input(
    now: int, later: int, freshToken: string, fault: Fault, alreadyHandedOff: bool,
    wallets: Revalidation, listing: Option<seq<ReturnedTransaction>>, sufficientFunds: bool,
    createdId: Option<string>, polls: seq<Option<Polled>>)

  /** One request to Circle's createTransaction. */
  datatype CreateCall = CreateCall(
    bindingId: string, idempotencyKey: string, amount: string, tokenAddress: string, destinationAddress: string,
    recovering: bool)

  /** What one step does: the process afterwards, the store afterwards, and what it asked Circle to create. */
  datatype Effect = Effect(
    process: Process, store: DurableState, call: Option<CreateCall>, submittedKeys: set<string>, consumed: set<string>)

  function Goto(p: Process, pc: PC, store: DurableState): Effect {
    Effect(p.(pc := pc), store, None, {}, {})
  }

  function Finish(p: Process, r: TransferResult, store: DurableState): Effect {
    Goto(p, Finishing(r), store)
  }

  /** `submitTransfer` returned `r`: remember it and go on to record it. */
  function SubmitReturns(p: Process, r: TransferResult, store: DurableState): Effect {
    Goto(p.(lastResult := Some(r)), RecordingSubmitted(r), store)
  }

  function SubmitFails(p: Process, code: FailureCode, store: DurableState, now: int): Effect {
    SubmitReturns(p, FailureResult(p.intent, code, now), store)
  }

  predicate IsBefore(pc: PC) {
    pc.Persisting? || pc.LoadingAuthorization? || pc.LoadingResult? || pc.LoadingHistory? || pc.Claiming? || pc.Replaying?
  }

  predicate IsSubmit(pc: PC) {
    || pc.SubmitLoading? || pc.SubmitWallets? || pc.SubmitListing? || pc.SubmitBalance? || pc.SubmitReloading?
    || pc.SubmitConsuming? || pc.SubmitCreating? || pc.RecordingSubmitted?
  }

  predicate IsAfter(pc: PC) {
    || pc.PollLoading? || pc.Polling? || pc.RecordingTerminal? || pc.CatchLoading? || pc.RecordingOutcome?
    || pc.Finishing? || pc.Reconciling? || pc.Done?
  }

  predicate InTry(pc: PC) {
    pc.Preparing? || pc.RecordingPrepared? || IsSubmit(pc) || pc.PollLoading? || pc.Polling? || pc.RecordingTerminal?
  }

  /** An exception reaches the catch block from inside the try block and the caller from anywhere else. */
  function Throw(p: Process, store: DurableState): Effect {
    Goto(p, if InTry(p.pc) then CatchLoading else Done(Threw), store)
  }

  predicate ConsumedBy(a: Authorization, i: Intent) {
    a.binding.status == Consumed && a.binding.consumedByTransactionId == Some(i.transactionRecordId)
  }

  predicate NothingSubmitted(existing: TransferResult, h: seq<TransferResult>, persisted: Authorization) {
    existing.status == Failed && existing.providerOperationId.None? && NoOperations(h) && persisted.binding.status == Active
  }

  // ----- before the try block -----

  ghost function StepPersisting(s: DurableState, p: Process): Effect {
    var (t, created) := Persist(s, p.candidate);
    Goto(p, if created then Preparing else LoadingAuthorization, t)
  }

  function StepLoadingHistory(s: DurableState, p: Process): Effect
    requires p.pc.LoadingHistory?
  {
    match p.pc.existing
    case None => Goto(p, SubmitLoading, s)
    case Some(existing) =>
      if NothingSubmitted(existing, s.History(p.intent.idempotencyKey), p.pc.persisted) then Goto(p, Claiming, s)
      else if existing.status == Confirmed || existing.status == Failed then Goto(p, Replaying(existing), s)
      else if existing.status == Submitted && existing.providerOperationId.Some? then
        Goto(p.(lastResult := Some(BindResultToIntent(p.intent, existing))), PollLoading(existing.providerOperationId.value), s)
      else Goto(p, SubmitLoading, s)
  }

  function StepClaiming(s: DurableState, p: Process, x: Input): Effect {
    var (t, token) := ClaimRetry(s, p.intent, x.now, x.freshToken);
    if token.None? then Goto(p, Done(Duplicate), t) else Goto(p.(claimToken := token), Preparing, t)
  }

  ghost function StepBefore(s: DurableState, p: Process, x: Input): Effect
    requires IsBefore(p.pc)
  {
    match p.pc
    case Persisting => StepPersisting(s, p)
    case LoadingAuthorization =>
      var found := Load(s, p.intent);
      Goto(p, if found.None? then Done(Duplicate) else LoadingResult(found.value), s)
    case LoadingResult(persisted) => Goto(p, LoadingHistory(persisted, Last(s.History(p.intent.idempotencyKey))), s)
    case LoadingHistory(_, _) => StepLoadingHistory(s, p)
    case Claiming => StepClaiming(s, p, x)
    case Replaying(terminal) => if x.alreadyHandedOff then Goto(p, Done(Duplicate), s) else Finish(p, terminal, s)
  }

  // ----- prepare -----

  function StepPreparing(s: DurableState, p: Process, config: Config, x: Input): Effect {
    var prepared :=
      match RevalidateApprovedIntent(p.intent, Load(s, p.intent), config, x.now)
      case Ok => PreparedResult(p.intent, x.now)
      case Refused(code) => FailureResult(p.intent, code, x.now);
    Goto(p.(lastResult := Some(prepared)), RecordingPrepared(prepared), s)
  }

  /** Records a result directly or, for a retry, by completing the process's claim. */
  ghost function RecordOrComplete(s: DurableState, p: Process, r: TransferResult): Result<DurableState, StoreError> {
    if p.claimToken.Some? && !p.claimCompleted then CompleteClaim(s, p.claimToken.value, r) else RecordResult(s, r)
  }

  ghost function StepRecordingPrepared(s: DurableState, p: Process): Effect
    requires p.pc.RecordingPrepared?
  {
    var r := p.pc.prepared;
    match RecordOrComplete(s, p, r)
    case Failure(_) => Throw(p, s)
    case Success(t) =>
      Goto(p.(claimCompleted := p.claimToken.Some?), if r.status == Prepared then SubmitLoading else Finishing(r), t)
  }

  // ----- submitTransfer -----

  function StepSubmitLoading(s: DurableState, p: Process, config: Config, submitted: set<string>, x: Input): Effect {
    if p.intent.proposalId in submitted || p.intent.idempotencyKey in submitted then
      SubmitFails(p, DuplicateSubmission, s, x.now)
    else
      var initial := Load(s, p.intent);
      var recovering := initial.Some? && ConsumedBy(initial.value, p.intent);
      var revalidation := if recovering then MatchIntentToRecords(p.intent, initial, config)
                          else RevalidateApprovedIntent(p.intent, initial, config, x.now);
      var next := if initial.None? then Throw(p, s) else Goto(p, SubmitWallets(initial.value, recovering), s);
      OrFail(p, revalidation, next, s, x.now)
  }

  /** Go on, or report the refusal. */
  function OrFail(p: Process, revalidation: Revalidation, next: Effect, store: DurableState, now: int): Effect {
    match revalidation
    case Refused(code) => SubmitFails(p, code, store, now)
    case Ok => next
  }

  function StepSubmitWallets(s: DurableState, p: Process, x: Input): Effect
    requires p.pc.SubmitWallets?
  {
    OrFail(p, x.wallets, Goto(p, if p.pc.recovering then SubmitListing(p.pc.initial) else SubmitBalance(p.pc.initial, false), s), s, x.now)
  }

  function StepSubmitListing(s: DurableState, p: Process, config: Config, x: Input): Effect
    requires p.pc.SubmitListing?
  {
    if x.listing.None? then Throw(p, s) else
      match Recover(p.intent, x.listing.value, config)
      case Ambiguous => Throw(p, s)
      case Found(operationId) =>
        SubmitReturns(p, SubmittedResult(p.intent, operationId, x.now), s)
          .(submittedKeys := {p.intent.proposalId, p.intent.idempotencyKey})
      case NotFound =>
        if p.pc.initial.approval.expiresAt <= x.now then SubmitFails(p, ApprovalExpired, s, x.now)
        else Goto(p, SubmitBalance(p.pc.initial, true), s)
  }

  function StepSubmitBalance(s: DurableState, p: Process, x: Input): Effect
    requires p.pc.SubmitBalance?
  {
    if !x.sufficientFunds then SubmitFails(p, InsufficientBalance, s, x.now)
    else if !p.pc.recovering then Goto(p, SubmitReloading, s)
    else if !ConsumedBy(p.pc.initial, p.intent) then SubmitFails(p, AuthorizationUnavailable, s, x.now)
    else Goto(p, SubmitCreating(true), s)
  }

  function StepSubmitReloading(s: DurableState, p: Process, config: Config, x: Input): Effect {
    var current := Load(s, p.intent);
    if current.None? then SubmitFails(p, AuthorizationUnavailable, s, x.now) else
      OrFail(p, RevalidateApprovedIntent(p.intent, current, config, x.now),
             Goto(p, SubmitConsuming(current.value.binding.exactIntentHash), s), s, x.now)
  }

  function StepSubmitConsuming(s: DurableState, p: Process, config: Config, x: Input): Effect
    requires p.pc.SubmitConsuming?
  {
    var (t, before) := Consume(s, p.intent, p.pc.expectedHash, x.now);
    var consumed := if before.Some? then {p.intent.authorizationBindingId} else {};
    OrFail(p, RevalidateApprovedIntent(p.intent, before, config, x.later), Goto(p, SubmitCreating(false), t), t, x.later)
      .(consumed := consumed)
  }

  function CallOf(p: Process, config: Config): CreateCall
    requires p.pc.SubmitCreating?
  {
    CreateCall(p.intent.authorizationBindingId, p.intent.idempotencyKey, Decimal.AtomicToDecimal(p.intent.amountAtomic),
               config.usdcTokenAddress, p.intent.destinationAddress, p.pc.recovering)
  }

  /** The request is issued; the answer may be lost, missing or malformed. */
  function StepSubmitCreating(s: DurableState, p: Process, config: Config, x: Input): Effect
    requires p.pc.SubmitCreating?
  {
    var e := if x.fault != NoFault || x.createdId.None? || !Text.IsUuid(x.createdId.value) then Throw(p, s)
             else SubmitReturns(p, SubmittedResult(p.intent, x.createdId.value, x.now), s)
                    .(submittedKeys := {p.intent.proposalId, p.intent.idempotencyKey});
    e.(call := Some(CallOf(p, config)))
  }

  ghost function StepRecordingSubmitted(s: DurableState, p: Process): Effect
    requires p.pc.RecordingSubmitted?
  {
    var r := p.pc.submitted;
    match RecordResult(s, r)
    case Failure(_) => Throw(p, s)
    case Success(t) =>
      Goto(p, if r.status == Submitted && r.providerOperationId.Some? then PollLoading(r.providerOperationId.value) else Finishing(r), t)
  }

  ghost function StepSubmit(s: DurableState, p: Process, config: Config, submitted: set<string>, x: Input): Effect
    requires IsSubmit(p.pc)
  {
    match p.pc
    case SubmitLoading => StepSubmitLoading(s, p, config, submitted, x)
    case SubmitWallets(_, _) => StepSubmitWallets(s, p, x)
    case SubmitListing(_) => StepSubmitListing(s, p, config, x)
    case SubmitBalance(_, _) => StepSubmitBalance(s, p, x)
    case SubmitReloading => StepSubmitReloading(s, p, config, x)
    case SubmitConsuming(_) => StepSubmitConsuming(s, p, config, x)
    case SubmitCreating(_) => StepSubmitCreating(s, p, config, x)
    case RecordingSubmitted(_) => StepRecordingSubmitted(s, p)
  }

  // ----- pollTransfer, the catch block and finish -----

  function PollReturns(p: Process, r: TransferResult, store: DurableState): Effect {
    var terminal := BindResultToIntent(p.intent, r);
    Goto(p.(lastResult := Some(terminal)), RecordingTerminal(terminal), store)
  }

  function StepPollLoading(s: DurableState, p: Process, config: Config, x: Input): Effect
    requires p.pc.PollLoading?
  {
    if !Text.IsUuid(p.pc.operationId) then Throw(p, s)
    else PollIfMatching(s, p, MatchIntentToRecords(p.intent, Load(s, p.intent), config), x)
  }

  function PollIfMatching(s: DurableState, p: Process, revalidation: Revalidation, x: Input): Effect
    requires p.pc.PollLoading?
  {
    match revalidation
    case Refused(code) => PollReturns(p, FailureResult(p.intent, code, x.now), s)
    case Ok => Goto(p, Polling(p.pc.operationId), s)
  }

  ghost function StepRecordingTerminal(s: DurableState, p: Process): Effect
    requires p.pc.RecordingTerminal?
  {
    match RecordResult(s, p.pc.terminal)
    case Failure(_) => Throw(p, s)
    case Success(t) => Finish(p, p.pc.terminal, t)
  }

  /** The outcome the catch block settles on, from the current authorization and the last result the process saw. */
  function CaughtOutcome(s: DurableState, p: Process, now: int): TransferResult {
    var current := Load(s, p.intent);
    var accepted := p.lastResult.Some? && p.lastResult.value.status == Submitted && p.lastResult.value.providerOperationId.Some?;
    var unknown := current.Some? && current.value.binding.status == Consumed && !accepted;
    TransferResult(
      Some(p.intent.proposalId), Some(p.intent.idempotencyKey),
      if accepted then Submitted else if unknown then RecoveryPending else Failed,
      Some(if accepted then PollingTimeout else if unknown then SubmissionUnknown else AuthorizationUnavailable),
      if p.lastResult.Some? then p.lastResult.value.providerOperationId else None,
      if p.lastResult.Some? then p.lastResult.value.transactionHash else None,
      None, None,
      if p.lastResult.Some? then p.lastResult.value.explorerUrl else None,
      Some(now))
  }

  function StepCatchLoading(s: DurableState, p: Process, x: Input): Effect {
    if p.claimToken.Some? && !p.claimCompleted && p.lastResult.Some? then Goto(p, Done(Threw), s)
    else Goto(p, RecordingOutcome(CaughtOutcome(s, p, x.now)), s)
  }

  ghost function StepRecordingOutcome(s: DurableState, p: Process): Effect
    requires p.pc.RecordingOutcome?
  {
    match RecordOrComplete(s, p, p.pc.outcome)
    case Failure(_) => Throw(p, s)
    case Success(t) => Finish(p.(claimCompleted := p.claimToken.Some?), p.pc.outcome, t)
  }

  predicate EvidenceComplete(r: TransferResult) {
    && r.providerOperationId.Some? && r.providerOperationId.value != ""
    && r.transactionHash.Some? && r.transactionHash.value != ""
    && r.blockNumber.Some? && r.blockNumber.value != 0
    && r.blockHash.Some? && r.blockHash.value != ""
    && r.explorerUrl.Some? && r.explorerUrl.value != ""
  }

  function StepFinishing(s: DurableState, p: Process, x: Input): Effect
    requires p.pc.Finishing?
  {
    var r := BindResultToIntent(p.intent, p.pc.transfer);
    if r.status != Confirmed then Goto(p, Done(Returned(r)), s)
    else if !EvidenceComplete(r) then Throw(p, s)
    else if FindReconciliation(s.reconciliations, p.intent.idempotencyKey).Some? then Goto(p, Done(Returned(r)), s)
    else
      Goto(p, Reconciling(r, Reconciliation(
        "reconciliation:" + p.intent.transactionRecordId, p.intent.proposalId, p.intent.idempotencyKey,
        p.intent.transactionRecordId, p.intent.amountAtomic, r.providerOperationId.value, r.transactionHash.value,
        r.blockNumber.value, r.blockHash.value, r.explorerUrl.value, x.now)), s)
  }

  function StepReconciling(s: DurableState, p: Process): Effect
    requires p.pc.Reconciling?
  {
    match RecordReconciliation(s, p.pc.evidence)
    case Failure(_) => Throw(p, s)
    case Success(t) => Goto(p, Done(Returned(p.pc.transfer)), t)
  }

  ghost function StepAfter(s: DurableState, p: Process, config: Config, x: Input): Effect
    requires IsAfter(p.pc)
  {
    match p.pc
    case PollLoading(_) => StepPollLoading(s, p, config, x)
    case Polling(operationId) => PollReturns(p, PollOutcome(p.intent, operationId, config, NOTHING_SEEN, x.polls, x.now), s)
    case RecordingTerminal(_) => StepRecordingTerminal(s, p)
    case CatchLoading => StepCatchLoading(s, p, x)
    case RecordingOutcome(_) => StepRecordingOutcome(s, p)
    case Finishing(_) => StepFinishing(s, p, x)
    case Reconciling(_, _) => StepReconciling(s, p)
    case Done(_) => Goto(p, p.pc, s)
  }

  // ----- one step of the whole program -----

  ghost function Undisturbed(s: DurableState, p: Process, config: Config, submitted: set<string>, x: Input): Effect {
    match p.pc
    case Persisting | LoadingAuthorization | LoadingResult(_) | LoadingHistory(_, _) | Claiming | Replaying(_) => StepBefore(s, p, x)
    case Preparing => StepPreparing(s, p, config, x)
    case RecordingPrepared(_) => StepRecordingPrepared(s, p)
    case SubmitLoading | SubmitWallets(_, _) | SubmitListing(_) | SubmitBalance(_, _) | SubmitReloading
       | SubmitConsuming(_) | SubmitCreating(_) | RecordingSubmitted(_) => StepSubmit(s, p, config, submitted, x)
    case _ => StepAfter(s, p, config, x)
  }

  /** A step whose operation may fail: before it takes effect, or after, so that the effect stays but the process sees an exception. */
  ghost function Execute(s: DurableState, p: Process, config: Config, submitted: set<string>, x: Input): Effect {
    var e := Undisturbed(s, p, config, submitted, x);
    if p.pc.Done? || p.pc.SubmitCreating? || x.fault == NoFault then e
    else if x.fault == FailBefore then Throw(p, s)
    else Throw(p, e.store).(consumed := e.consumed)
  }

  // ----- the system -----

  /** `calls` and `consumed` log every request to Circle and every consumption of an approval, in order. */
  datatype System = System(
    store: DurableState, processes: map<nat, Process>, submitted: map<nat, set<string>>,
    operations: seq<ReturnedTransaction>, calls: seq<CreateCall>, consumed: seq<string>)

  const INITIAL := System(EMPTY_STATE, map[], map[], [], [], [])

  function SubmittedBy(s: System, provider: nat): set<string> {
    if provider in s.submitted then s.submitted[provider] else {}
  }

  /** A request arrives with a newly approved authorization, or with one that is already stored. */
  predicate MayStart(s: System, candidate: Authorization) {
    || (candidate.binding.status == Active && candidate.binding.consumedAt.None? && candidate.binding.consumedByTransactionId.None?)
    || candidate.binding.id in s.store.authorizations
  }

  datatype Event =
    | Start(id: nat, intent: Intent, candidate: Authorization, provider: nat)
    | Crash(id: nat)
    | Advance(id: nat, x: Input, operationsAfter: seq<ReturnedTransaction>)
    | Elsewhere(operationsAfter: seq<ReturnedTransaction>)

  predicate Enabled(s: System, e: Event) {
    match e
    case Start(id, _, candidate, _) => id !in s.processes && MayStart(s, candidate)
    case Crash(id) => id in s.processes
    case Advance(id, _, _) => id in s.processes
    case Elsewhere(_) => true
  }

  ghost function EffectOf(s: System, config: Config, id: nat, x: Input): Effect
    requires id in s.processes
  {
    Execute(s.store, s.processes[id], config, SubmittedBy(s, s.processes[id].provider), x)
  }

  /** Advancing a process; nothing is assumed here about what Circle does with its operations. */
  ghost function Advanced(s: System, config: Config, id: nat, x: Input, operationsAfter: seq<ReturnedTransaction>): System
    requires id in s.processes
  {
    var e := EffectOf(s, config, id, x);
    var provider := s.processes[id].provider;
    System(e.store, s.processes[id := e.process], s.submitted[provider := SubmittedBy(s, provider) + e.submittedKeys],
           operationsAfter, s.calls + (if e.call.Some? then [e.call.value] else []),
           s.consumed + (if e.consumed == {} then [] else [s.processes[id].intent.authorizationBindingId]))
  }

  ghost function Next(s: System, config: Config, e: Event): System
    requires Enabled(s, e)
  {
    match e
    case Start(id, intent, candidate, provider) =>
      s.(processes := s.processes[id := Process(intent, candidate, provider, Persisting, None, false, None)])
    case Crash(id) => s.(processes := s.processes - {id})
    case Advance(id, x, after) => Advanced(s, config, id, x, after)
    case Elsewhere(after) => s.(operations := after)
  }

  /** The states of a run from the initial one, each obtained by an enabled event. */
  ghost predicate Run(config: Config, states: seq<System>, events: seq<Event>) {
    && |states| == |events| + 1 && states[0] == INITIAL
    && forall n :: 0 <= n < |events| ==> Enabled(states[n], events[n]) && states[n + 1] == Next(states[n], config, events[n])
  }
}
