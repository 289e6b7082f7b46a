/**
 With a provider that honours idempotency keys and lists its operations completely, at most one operation per exact
 intent ever exists, every recorded operation id is that operation's, and recovery returns it instead of creating another.
 */
module HandoffExactlyOnce {
  import opened Wrappers
  import opened Records
  import opened DurableStore
  import opened DurableStoreProperties
  import opened CircleProvider
  import opened Handoff
  import opened HandoffSafety
  import Decimal
  import Text

  // ----- the honest provider -----

  /** A stored operation is the transfer that this call asked for, in Circle's own fields. */
  predicate Reports(op: ReturnedTransaction, c: CreateCall, config: Config) {
    && op.refId == Some(c.idempotencyKey)
    && op.transactionType == Some("OUTBOUND") && op.operation == Some("TRANSFER")
    && op.blockchain == Some(BLOCKCHAIN) && op.walletId == Some(config.sourceWalletId)
    && op.destinationAddress == Some(c.destinationAddress) && op.amounts == Some([c.amount])
    && (op.contractAddress.None? || op.contractAddress == Some(c.tokenAddress))
    && (op.tokenAddress.None? || op.tokenAddress == Some(c.tokenAddress))
    && op.id.Some? && Text.IsUuid(op.id.value)
  }

  predicate IsOperation(ops: seq<ReturnedTransaction>, n: nat, key: string) {
    n < |ops| && ops[n].refId == Some(key)
  }

  ghost predicate Exists(ops: seq<ReturnedTransaction>, key: string) {
    exists n: nat :: IsOperation(ops, n, key)
  }

  /** This id is the one Circle gave the operation of this key. */
  ghost predicate Known(ops: seq<ReturnedTransaction>, key: string, id: string) {
    exists n: nat :: IsOperation(ops, n, key) && ops[n].id == Some(id)
  }

  /** The known id of a key that no other client of the wallet uses. */
  ghost predicate Ours(foreign: set<string>, ops: seq<ReturnedTransaction>, key: string, id: string) {
    key !in foreign && Known(ops, key, id)
  }

  /** One createTransaction: a lost request changes nothing, a repeated key answers with the existing operation. */
  ghost predicate HonestCreate(ops: seq<ReturnedTransaction>, c: CreateCall, x: Input, after: seq<ReturnedTransaction>, config: Config) {
    if x.fault == FailBefore then after == ops
    else
      && (if Exists(ops, c.idempotencyKey) then after == ops
          else exists op :: Reports(op, c, config) && after == ops + [op])
      && (x.createdId.Some? ==> Known(after, c.idempotencyKey, x.createdId.value))
  }

  /** The listing holds every operation of the wallet to this destination, in some order and possibly among others without our keys. */
  ghost predicate CompleteListing(ops: seq<ReturnedTransaction>, listed: seq<ReturnedTransaction>, key: string) {
    && (forall n: nat :: IsOperation(ops, n, key) ==> ops[n] in listed)
    && (forall k, j :: 0 <= k < j < |listed| && listed[k].refId == Some(key) ==> listed[j] != listed[k])
    && (forall k :: 0 <= k < |listed| && listed[k].refId == Some(key) ==> listed[k] in ops)
  }

  /** Operations of other clients of the wallet appear at will, with their own references or none. */
  predicate OthersAppend(foreign: set<string>, ops: seq<ReturnedTransaction>, after: seq<ReturnedTransaction>) {
    ops <= after && forall n :: |ops| <= n < |after| && after[n].refId.Some? ==> after[n].refId.value in foreign
  }

  /** No authorization of this service has an idempotency key that another client uses as a reference. */
  predicate KeysApart(foreign: set<string>, auths: map<string, Authorization>) {
    forall b :: b in auths ==> auths[b].transaction.idempotencyKey !in foreign
  }

  ghost predicate Honest(s: System, config: Config, foreign: set<string>, e: Event)
    requires Enabled(s, e)
  {
    match e
    case Advance(id, x, after) =>
      var p := s.processes[id];
      if p.pc.SubmitCreating? then HonestCreate(s.operations, CallOf(p, config), x, after, config)
      else && after == s.operations
           && (x.listing.Some? ==> CompleteListing(s.operations, x.listing.value, p.intent.idempotencyKey))
    case Elsewhere(after) => OthersAppend(foreign, s.operations, after)
    case _ => true
  }

  // ----- results name only known operations -----

  /** The result belongs to this intent and any operation id in it is the known one. */
  ghost predicate ResultOk(foreign: set<string>, ops: seq<ReturnedTransaction>, i: Intent, r: TransferResult) {
    && r.idempotencyKey == Some(i.idempotencyKey)
    && (r.providerOperationId.Some? ==> Ours(foreign, ops, i.idempotencyKey, r.providerOperationId.value))
  }

  ghost predicate HistoryOk(foreign: set<string>, ops: seq<ReturnedTransaction>, key: string, h: seq<TransferResult>) {
    forall n :: 0 <= n < |h| && h[n].providerOperationId.Some? ==> Ours(foreign, ops, key, h[n].providerOperationId.value)
  }

  ghost predicate HistoriesOk(foreign: set<string>, ops: seq<ReturnedTransaction>, s: DurableState) {
    forall key :: HistoryOk(foreign, ops, key, s.History(key))
  }

  ghost predicate LocalOk(foreign: set<string>, ops: seq<ReturnedTransaction>, p: Process) {
    match p.pc
    case LoadingHistory(_, existing) => existing.Some? ==> ResultOk(foreign, ops, p.intent, existing.value)
    case Replaying(r) => ResultOk(foreign, ops, p.intent, r)
    case RecordingPrepared(r) => ResultOk(foreign, ops, p.intent, r)
    case RecordingSubmitted(r) => ResultOk(foreign, ops, p.intent, r)
    case PollLoading(id) => Ours(foreign, ops, p.intent.idempotencyKey, id)
    case Polling(id) => Ours(foreign, ops, p.intent.idempotencyKey, id)
    case RecordingTerminal(r) => ResultOk(foreign, ops, p.intent, r)
    case RecordingOutcome(r) => ResultOk(foreign, ops, p.intent, r)
    case _ => true
  }

  ghost predicate ResultsOk(foreign: set<string>, ops: seq<ReturnedTransaction>, p: Process) {
    LocalOk(foreign, ops, p) && (p.lastResult.Some? ==> ResultOk(foreign, ops, p.intent, p.lastResult.value))
  }

  lemma {:induction false} OursStays(foreign: set<string>, ops: seq<ReturnedTransaction>, after: seq<ReturnedTransaction>, key: string, id: string)
    requires ops <= after && Ours(foreign, ops, key, id)
    ensures Ours(foreign, after, key, id)
  {
    var n: nat :| IsOperation(ops, n, key) && ops[n].id == Some(id);
    assert IsOperation(after, n, key) && after[n].id == Some(id);
  }

  lemma {:induction false} ResultStaysOk(foreign: set<string>, ops: seq<ReturnedTransaction>, after: seq<ReturnedTransaction>, i: Intent, r: TransferResult)
    requires ops <= after && ResultOk(foreign, ops, i, r)
    ensures ResultOk(foreign, after, i, r)
  {
    if r.providerOperationId.Some? { OursStays(foreign, ops, after, i.idempotencyKey, r.providerOperationId.value); }
  }

  lemma {:induction false} LocalStaysOk(foreign: set<string>, ops: seq<ReturnedTransaction>, after: seq<ReturnedTransaction>, p: Process)
    requires ops <= after && LocalOk(foreign, ops, p)
    ensures LocalOk(foreign, after, p)
  {
    match p.pc {
      case LoadingHistory(_, existing) => if existing.Some? { ResultStaysOk(foreign, ops, after, p.intent, existing.value); }
      case Replaying(r) => ResultStaysOk(foreign, ops, after, p.intent, r);
      case RecordingPrepared(r) => ResultStaysOk(foreign, ops, after, p.intent, r);
      case RecordingSubmitted(r) => ResultStaysOk(foreign, ops, after, p.intent, r);
      case PollLoading(id) => OursStays(foreign, ops, after, p.intent.idempotencyKey, id);
      case Polling(id) => OursStays(foreign, ops, after, p.intent.idempotencyKey, id);
      case RecordingTerminal(r) => ResultStaysOk(foreign, ops, after, p.intent, r);
      case RecordingOutcome(r) => ResultStaysOk(foreign, ops, after, p.intent, r);
      case _ =>
    }
  }

  lemma {:induction false} ResultsStayOk(foreign: set<string>, ops: seq<ReturnedTransaction>, after: seq<ReturnedTransaction>, p: Process)
    requires ops <= after && ResultsOk(foreign, ops, p)
    ensures ResultsOk(foreign, after, p)
  {
    LocalStaysOk(foreign, ops, after, p);
    if p.lastResult.Some? { ResultStaysOk(foreign, ops, after, p.intent, p.lastResult.value); }
  }

  lemma {:induction false} HistoriesStayOk(foreign: set<string>, ops: seq<ReturnedTransaction>, after: seq<ReturnedTransaction>, s: DurableState)
    requires ops <= after && HistoriesOk(foreign, ops, s)
    ensures HistoriesOk(foreign, after, s)
  {
    forall key ensures HistoryOk(foreign, after, key, s.History(key)) {
      var h := s.History(key);
      assert HistoryOk(foreign, ops, key, h);
      forall n | 0 <= n < |h| && h[n].providerOperationId.Some? ensures Ours(foreign, after, key, h[n].providerOperationId.value) {
        OursStays(foreign, ops, after, key, h[n].providerOperationId.value);
      }
    }
  }

  // ----- one step keeps results honest -----

  /** The store either keeps its histories or appends one result of this process to its own history. */
  ghost predicate AppendsOwn(s: DurableState, t: DurableState, r: TransferResult) {
    || t.resultHistory == s.resultHistory
    || (r.idempotencyKey.Some? && t.resultHistory == s.resultHistory[r.idempotencyKey.value := s.History(r.idempotencyKey.value) + [r]])
  }

  lemma {:induction false} AppendKeepsHistoriesOk(foreign: set<string>, ops: seq<ReturnedTransaction>, s: DurableState, t: DurableState, i: Intent, r: TransferResult)
    requires HistoriesOk(foreign, ops, s) && AppendsOwn(s, t, r) && ResultOk(foreign, ops, i, r)
    ensures HistoriesOk(foreign, ops, t)
  {
    forall key ensures HistoryOk(foreign, ops, key, t.History(key)) {
      assert HistoryOk(foreign, ops, key, s.History(key));
      if t.resultHistory != s.resultHistory && key == i.idempotencyKey {
        assert t.History(key) == s.History(key) + [r];
      } else {
        assert t.History(key) == s.History(key);
      }
    }
  }

  lemma {:induction false} RecordingAppendsOwn(s: DurableState, p: Process, r: TransferResult)
    ensures RecordResult(s, r).Success? ==> AppendsOwn(s, RecordResult(s, r).value, r)
    ensures RecordOrComplete(s, p, r).Success? ==> AppendsOwn(s, RecordOrComplete(s, p, r).value, r)
  {
  }

  lemma {:induction false} LastResultOk(foreign: set<string>, ops: seq<ReturnedTransaction>, s: DurableState, i: Intent)
    requires Inv(s) && HistoriesOk(foreign, ops, s)
    ensures var last := Last(s.History(i.idempotencyKey)); last.Some? ==> ResultOk(foreign, ops, i, last.value)
  {
    var key := i.idempotencyKey;
    var h := s.History(key);
    assert HistoryOk(foreign, ops, key, h);
    if h != [] { assert LegalHistory(key, h); }
  }

  lemma {:induction false} BeforeKeepsResults(foreign: set<string>, ops: seq<ReturnedTransaction>, s: DurableState, p: Process, x: Input)
    requires Inv(s) && HistoriesOk(foreign, ops, s) && ResultsOk(foreign, ops, p) && IsBefore(p.pc)
    ensures var e := StepBefore(s, p, x); ResultsOk(foreign, ops, e.process) && HistoriesOk(foreign, ops, e.store)
  {
    BeforeKeepsLocals(foreign, ops, s, p, x);
    BeforeKeepsHistories(s, p, x);
    SameHistoriesOk(foreign, ops, s, StepBefore(s, p, x).store);
  }

  lemma {:induction false} BeforeKeepsLocals(foreign: set<string>, ops: seq<ReturnedTransaction>, s: DurableState, p: Process, x: Input)
    requires Inv(s) && HistoriesOk(foreign, ops, s) && ResultsOk(foreign, ops, p) && IsBefore(p.pc)
    ensures ResultsOk(foreign, ops, StepBefore(s, p, x).process)
  {
    if p.pc.LoadingResult? { LastResultOk(foreign, ops, s, p.intent); }
  }

  lemma {:induction false} BeforeKeepsHistories(s: DurableState, p: Process, x: Input)
    requires IsBefore(p.pc)
    ensures StepBefore(s, p, x).store.resultHistory == s.resultHistory
  {
  }

  lemma {:induction false} PrepareKeepsResults(foreign: set<string>, ops: seq<ReturnedTransaction>, s: DurableState, p: Process, config: Config, x: Input)
    requires HistoriesOk(foreign, ops, s) && ResultsOk(foreign, ops, p) && (p.pc.Preparing? || p.pc.RecordingPrepared?)
    ensures var e := if p.pc.Preparing? then StepPreparing(s, p, config, x) else StepRecordingPrepared(s, p);
            ResultsOk(foreign, ops, e.process) && HistoriesOk(foreign, ops, e.store)
  {
    if p.pc.RecordingPrepared? {
      var r := p.pc.prepared;
      RecordingAppendsOwn(s, p, r);
      if RecordOrComplete(s, p, r).Success? { AppendKeepsHistoriesOk(foreign, ops, s, RecordOrComplete(s, p, r).value, p.intent, r); }
    }
  }

  lemma {:induction false} ListingKeepsResults(foreign: set<string>, ops: seq<ReturnedTransaction>, s: DurableState, p: Process, config: Config, x: Input)
    requires HistoriesOk(foreign, ops, s) && ResultsOk(foreign, ops, p) && p.pc.SubmitListing? && p.intent.idempotencyKey !in foreign
    requires x.listing.Some? ==> CompleteListing(ops, x.listing.value, p.intent.idempotencyKey)
    ensures var e := StepSubmitListing(s, p, config, x); ResultsOk(foreign, ops, e.process) && HistoriesOk(foreign, ops, e.store)
  {
    if x.listing.Some? && Recover(p.intent, x.listing.value, config).Found? {
      var listed := x.listing.value;
      RecoveredIsListed(p.intent, listed, config);
      var id := Recover(p.intent, listed, config).operationId;
      var op :| op in listed && MatchesRecoveredTransfer(p.intent, op, config) && op.id == Some(id);
      assert op in ops;
      var n: nat :| n < |ops| && ops[n] == op;
      assert IsOperation(ops, n, p.intent.idempotencyKey);
    }
  }

  lemma {:induction false} RecordSubmittedKeepsResults(foreign: set<string>, ops: seq<ReturnedTransaction>, s: DurableState, p: Process)
    requires HistoriesOk(foreign, ops, s) && ResultsOk(foreign, ops, p) && p.pc.RecordingSubmitted?
    ensures var e := StepRecordingSubmitted(s, p); ResultsOk(foreign, ops, e.process) && HistoriesOk(foreign, ops, e.store)
  {
    var r := p.pc.submitted;
    RecordingAppendsOwn(s, p, r);
    if RecordResult(s, r).Success? { AppendKeepsHistoriesOk(foreign, ops, s, RecordResult(s, r).value, p.intent, r); }
  }

  lemma {:induction false} CreatingKeepsResults(foreign: set<string>, ops: seq<ReturnedTransaction>, s: DurableState, p: Process, config: Config, x: Input)
    requires HistoriesOk(foreign, ops, s) && ResultsOk(foreign, ops, p) && p.pc.SubmitCreating?
    requires x.fault != FailBefore && x.createdId.Some? ==> Ours(foreign, ops, p.intent.idempotencyKey, x.createdId.value)
    ensures var e := StepSubmitCreating(s, p, config, x); ResultsOk(foreign, ops, e.process) && HistoriesOk(foreign, ops, e.store)
  {
  }

  /** A submit failure names no operation, so it is always honest. */
  lemma {:induction false} FailureKeepsLocals(foreign: set<string>, ops: seq<ReturnedTransaction>, p: Process, verdict: Revalidation, next: Effect, s: DurableState, now: int)
    requires ResultsOk(foreign, ops, p) && ResultsOk(foreign, ops, next.process)
    ensures ResultsOk(foreign, ops, OrFail(p, verdict, next, s, now).process)
    ensures next.store.resultHistory == s.resultHistory ==> OrFail(p, verdict, next, s, now).store.resultHistory == s.resultHistory
  {
  }

  lemma {:induction false} LoadingKeepsLocals(foreign: set<string>, ops: seq<ReturnedTransaction>, s: DurableState, p: Process, config: Config, submitted: set<string>, x: Input)
    requires ResultsOk(foreign, ops, p) && p.pc.SubmitLoading?
    ensures var e := StepSubmitLoading(s, p, config, submitted, x); ResultsOk(foreign, ops, e.process) && e.store == s
  {
  }

  lemma {:induction false} ConsumingKeepsLocals(foreign: set<string>, ops: seq<ReturnedTransaction>, s: DurableState, p: Process, config: Config, x: Input)
    requires ResultsOk(foreign, ops, p) && p.pc.SubmitConsuming?
    ensures var e := StepSubmitConsuming(s, p, config, x); ResultsOk(foreign, ops, e.process) && e.store.resultHistory == s.resultHistory
  {
    var (t, before) := Consume(s, p.intent, p.pc.expectedHash, x.now);
    FailureKeepsLocals(foreign, ops, p, RevalidateApprovedIntent(p.intent, before, config, x.later), Goto(p, SubmitCreating(false), t), t, x.later);
  }

  lemma {:induction false} ReadingKeepsLocals(foreign: set<string>, ops: seq<ReturnedTransaction>, s: DurableState, p: Process, config: Config, submitted: set<string>, x: Input)
    requires ResultsOk(foreign, ops, p) && (p.pc.SubmitWallets? || p.pc.SubmitBalance? || p.pc.SubmitReloading?)
    ensures var e := StepSubmit(s, p, config, submitted, x); ResultsOk(foreign, ops, e.process) && e.store.resultHistory == s.resultHistory
  {
  }

  /** The submit steps that ask Circle for nothing and read no listing only report failures. */
  lemma {:induction false} OtherSubmitKeepsLocals(foreign: set<string>, ops: seq<ReturnedTransaction>, s: DurableState, p: Process, config: Config, submitted: set<string>, x: Input)
    requires ResultsOk(foreign, ops, p)
    requires p.pc.SubmitLoading? || p.pc.SubmitWallets? || p.pc.SubmitBalance? || p.pc.SubmitReloading? || p.pc.SubmitConsuming?
    ensures var e := StepSubmit(s, p, config, submitted, x); ResultsOk(foreign, ops, e.process) && e.store.resultHistory == s.resultHistory
  {
    if p.pc.SubmitLoading? { LoadingKeepsLocals(foreign, ops, s, p, config, submitted, x); }
    else if p.pc.SubmitConsuming? { ConsumingKeepsLocals(foreign, ops, s, p, config, x); }
    else { ReadingKeepsLocals(foreign, ops, s, p, config, submitted, x); }
  }

  lemma {:induction false} OtherSubmitKeepsResults(foreign: set<string>, ops: seq<ReturnedTransaction>, s: DurableState, p: Process, config: Config, submitted: set<string>, x: Input)
    requires HistoriesOk(foreign, ops, s) && ResultsOk(foreign, ops, p)
    requires p.pc.SubmitLoading? || p.pc.SubmitWallets? || p.pc.SubmitBalance? || p.pc.SubmitReloading? || p.pc.SubmitConsuming?
    ensures var e := StepSubmit(s, p, config, submitted, x); ResultsOk(foreign, ops, e.process) && HistoriesOk(foreign, ops, e.store)
  {
    OtherSubmitKeepsLocals(foreign, ops, s, p, config, submitted, x);
    SameHistoriesOk(foreign, ops, s, StepSubmit(s, p, config, submitted, x).store);
  }

  lemma {:induction false} SameHistoriesOk(foreign: set<string>, ops: seq<ReturnedTransaction>, s: DurableState, t: DurableState)
    requires HistoriesOk(foreign, ops, s) && t.resultHistory == s.resultHistory
    ensures HistoriesOk(foreign, ops, t)
  {
    forall key ensures HistoryOk(foreign, ops, key, t.History(key)) {
      assert HistoryOk(foreign, ops, key, s.History(key));
    }
  }

  lemma {:induction false} PollLoadingKeepsLocals(foreign: set<string>, ops: seq<ReturnedTransaction>, s: DurableState, p: Process, config: Config, x: Input)
    requires ResultsOk(foreign, ops, p) && p.pc.PollLoading?
    ensures ResultsOk(foreign, ops, StepPollLoading(s, p, config, x).process) && StepPollLoading(s, p, config, x).store == s
  {
    MatchKeepsLocals(foreign, ops, s, p, MatchIntentToRecords(p.intent, Load(s, p.intent), config), x);
  }

  lemma {:induction false} MatchKeepsLocals(foreign: set<string>, ops: seq<ReturnedTransaction>, s: DurableState, p: Process, verdict: Revalidation, x: Input)
    requires ResultsOk(foreign, ops, p) && p.pc.PollLoading?
    ensures ResultsOk(foreign, ops, PollIfMatching(s, p, verdict, x).process) && PollIfMatching(s, p, verdict, x).store == s
  {
    if verdict != Ok { PolledIsHonest(foreign, ops, s, p, FailureResult(p.intent, verdict.code, x.now)); }
  }

  lemma {:induction false} PollingKeepsLocals(foreign: set<string>, ops: seq<ReturnedTransaction>, s: DurableState, p: Process, config: Config, x: Input)
    requires ResultsOk(foreign, ops, p) && p.pc.Polling?
    ensures ResultsOk(foreign, ops, PollReturns(p, PollOutcome(p.intent, p.pc.operationId, config, NOTHING_SEEN, x.polls, x.now), s).process)
  {
    var r := PollOutcome(p.intent, p.pc.operationId, config, NOTHING_SEEN, x.polls, x.now);
    ConfirmedIsVerified(p.intent, p.pc.operationId, config, NOTHING_SEEN, x.polls, x.now);
    PolledIsHonest(foreign, ops, s, p, r);
  }

  lemma {:induction false} PollKeepsResults(foreign: set<string>, ops: seq<ReturnedTransaction>, s: DurableState, p: Process, config: Config, x: Input)
    requires HistoriesOk(foreign, ops, s) && ResultsOk(foreign, ops, p) && (p.pc.PollLoading? || p.pc.Polling?)
    ensures var e := StepAfter(s, p, config, x); ResultsOk(foreign, ops, e.process) && HistoriesOk(foreign, ops, e.store)
  {
    if p.pc.PollLoading? { PollLoadingKeepsLocals(foreign, ops, s, p, config, x); } else { PollingKeepsLocals(foreign, ops, s, p, config, x); }
    SameHistoriesOk(foreign, ops, s, StepAfter(s, p, config, x).store);
  }

  lemma {:induction false} PolledIsHonest(foreign: set<string>, ops: seq<ReturnedTransaction>, s: DurableState, p: Process, r: TransferResult)
    requires p.pc.PollLoading? || p.pc.Polling?
    requires ResultsOk(foreign, ops, p) && (r.providerOperationId.Some? ==> r.providerOperationId == Some(p.pc.operationId))
    ensures ResultsOk(foreign, ops, PollReturns(p, r, s).process)
  {
  }

  lemma {:induction false} CatchKeepsLocals(foreign: set<string>, ops: seq<ReturnedTransaction>, s: DurableState, p: Process, x: Input)
    requires ResultsOk(foreign, ops, p) && p.pc.CatchLoading?
    ensures ResultsOk(foreign, ops, StepCatchLoading(s, p, x).process) && StepCatchLoading(s, p, x).store == s
  {
  }

  lemma {:induction false} FinishingKeepsLocals(foreign: set<string>, ops: seq<ReturnedTransaction>, s: DurableState, p: Process, x: Input)
    requires ResultsOk(foreign, ops, p) && p.pc.Finishing?
    ensures ResultsOk(foreign, ops, StepFinishing(s, p, x).process) && StepFinishing(s, p, x).store == s
  {
  }

  lemma {:induction false} ReconcilingKeepsLocals(foreign: set<string>, ops: seq<ReturnedTransaction>, s: DurableState, p: Process)
    requires ResultsOk(foreign, ops, p) && p.pc.Reconciling?
    ensures ResultsOk(foreign, ops, StepReconciling(s, p).process) && StepReconciling(s, p).store.resultHistory == s.resultHistory
  {
  }

  lemma {:induction false} FinishKeepsResults(foreign: set<string>, ops: seq<ReturnedTransaction>, s: DurableState, p: Process, config: Config, x: Input)
    requires HistoriesOk(foreign, ops, s) && ResultsOk(foreign, ops, p)
    requires p.pc.CatchLoading? || p.pc.Finishing? || p.pc.Reconciling? || p.pc.Done?
    ensures var e := StepAfter(s, p, config, x); ResultsOk(foreign, ops, e.process) && HistoriesOk(foreign, ops, e.store)
  {
    if p.pc.CatchLoading? { CatchKeepsLocals(foreign, ops, s, p, x); }
    else if p.pc.Finishing? { FinishingKeepsLocals(foreign, ops, s, p, x); }
    else if p.pc.Reconciling? { ReconcilingKeepsLocals(foreign, ops, s, p); }
    SameHistoriesOk(foreign, ops, s, StepAfter(s, p, config, x).store);
  }

  lemma {:induction false} RecordKeepsResults(foreign: set<string>, ops: seq<ReturnedTransaction>, s: DurableState, p: Process, config: Config, x: Input)
    requires HistoriesOk(foreign, ops, s) && ResultsOk(foreign, ops, p) && (p.pc.RecordingTerminal? || p.pc.RecordingOutcome?)
    ensures var e := StepAfter(s, p, config, x); ResultsOk(foreign, ops, e.process) && HistoriesOk(foreign, ops, e.store)
  {
    var r := if p.pc.RecordingTerminal? then p.pc.terminal else p.pc.outcome;
    RecordingAppendsOwn(s, p, r);
    if RecordOrComplete(s, p, r).Success? { AppendKeepsHistoriesOk(foreign, ops, s, RecordOrComplete(s, p, r).value, p.intent, r); }
    if RecordResult(s, r).Success? { AppendKeepsHistoriesOk(foreign, ops, s, RecordResult(s, r).value, p.intent, r); }
  }

  /** What the provider's honesty gives a step, stated on the operations after it. */
  ghost predicate HonestInput(foreign: set<string>, ops: seq<ReturnedTransaction>, p: Process, x: Input) {
    && (p.pc.SubmitListing? || p.pc.SubmitCreating? ==> p.intent.idempotencyKey !in foreign)
    && (p.pc.SubmitListing? && x.listing.Some? ==> CompleteListing(ops, x.listing.value, p.intent.idempotencyKey))
    && (p.pc.SubmitCreating? && x.fault != FailBefore && x.createdId.Some? ==> Ours(foreign, ops, p.intent.idempotencyKey, x.createdId.value))
  }

  lemma {:induction false} UndisturbedKeepsResults(foreign: set<string>, ops: seq<ReturnedTransaction>, s: DurableState, p: Process, config: Config, submitted: set<string>, x: Input)
    requires Inv(s) && HistoriesOk(foreign, ops, s) && ResultsOk(foreign, ops, p) && HonestInput(foreign, ops, p, x)
    ensures var e := Undisturbed(s, p, config, submitted, x); ResultsOk(foreign, ops, e.process) && HistoriesOk(foreign, ops, e.store)
  {
    if IsBefore(p.pc) { BeforeKeepsResults(foreign, ops, s, p, x); }
    else if p.pc.Preparing? || p.pc.RecordingPrepared? { PrepareKeepsResults(foreign, ops, s, p, config, x); }
    else if p.pc.SubmitListing? { ListingKeepsResults(foreign, ops, s, p, config, x); }
    else if p.pc.SubmitCreating? { CreatingKeepsResults(foreign, ops, s, p, config, x); }
    else if p.pc.RecordingSubmitted? { RecordSubmittedKeepsResults(foreign, ops, s, p); }
    else if IsSubmit(p.pc) { OtherSubmitKeepsResults(foreign, ops, s, p, config, submitted, x); }
    else if p.pc.PollLoading? || p.pc.Polling? { PollKeepsResults(foreign, ops, s, p, config, x); }
    else if p.pc.RecordingTerminal? || p.pc.RecordingOutcome? { RecordKeepsResults(foreign, ops, s, p, config, x); }
    else { FinishKeepsResults(foreign, ops, s, p, config, x); }
  }

  lemma {:induction false} ExecuteKeepsResults(foreign: set<string>, ops: seq<ReturnedTransaction>, s: DurableState, p: Process, config: Config, submitted: set<string>, x: Input)
    requires Inv(s) && HistoriesOk(foreign, ops, s) && ResultsOk(foreign, ops, p) && HonestInput(foreign, ops, p, x)
    ensures var e := Execute(s, p, config, submitted, x); ResultsOk(foreign, ops, e.process) && HistoriesOk(foreign, ops, e.store)
  {
    UndisturbedKeepsResults(foreign, ops, s, p, config, submitted, x);
  }

  // ----- the system invariant -----

  predicate OnePerReference(foreign: set<string>, ops: seq<ReturnedTransaction>) {
    forall m, n :: 0 <= m < n < |ops| && ops[m].refId.Some? && ops[m].refId.value !in foreign ==> ops[n].refId != ops[m].refId
  }

  ghost predicate AllRequested(foreign: set<string>, ops: seq<ReturnedTransaction>, calls: seq<CreateCall>, config: Config) {
    forall n :: 0 <= n < |ops| && ops[n].refId.Some? && ops[n].refId.value !in foreign ==> exists c :: c in calls && Reports(ops[n], c, config)
  }

  ghost predicate HonestInv(config: Config, foreign: set<string>, s: System) {
    && SystemInv(config, s)
    && OnePerReference(foreign, s.operations)
    && AllRequested(foreign, s.operations, s.calls, config)
    && KeysApart(foreign, s.store.authorizations)
    && HistoriesOk(foreign, s.operations, s.store)
    && forall id :: id in s.processes ==> ResultsOk(foreign, s.operations, s.processes[id])
  }

  lemma {:induction false} CreateKeepsOperations(foreign: set<string>, ops: seq<ReturnedTransaction>, calls: seq<CreateCall>, c: CreateCall, x: Input, after: seq<ReturnedTransaction>, config: Config)
    requires OnePerReference(foreign, ops) && AllRequested(foreign, ops, calls, config) && HonestCreate(ops, c, x, after, config)
    ensures ops <= after && OnePerReference(foreign, after) && AllRequested(foreign, after, calls + [c], config)
  {
    forall n | 0 <= n < |after| && after[n].refId.Some? && after[n].refId.value !in foreign ensures exists d :: d in calls + [c] && Reports(after[n], d, config) {
      if n < |ops| {
        var d :| d in calls && Reports(ops[n], d, config);
        assert d in calls + [c] && Reports(after[n], d, config);
      } else {
        assert c in calls + [c] && Reports(after[n], c, config);
      }
    }
    forall m, n | 0 <= m < n < |after| && after[m].refId.Some? && after[m].refId.value !in foreign ensures after[n].refId != after[m].refId {
      if n == |ops| { assert !IsOperation(ops, m, c.idempotencyKey); }
    }
  }

  lemma {:induction false} AuthorizedKeyIsOurs(config: Config, foreign: set<string>, s: DurableState, i: Intent)
    requires Authorized(config, s, i) && KeysApart(foreign, s.authorizations)
    ensures i.idempotencyKey !in foreign
  {
    assert s.authorizations[i.authorizationBindingId].transaction.idempotencyKey == i.idempotencyKey;
  }

  lemma {:induction false} AdvanceKeepsOperations(config: Config, foreign: set<string>, s: System, id: nat, x: Input, after: seq<ReturnedTransaction>)
    requires HonestInv(config, foreign, s) && id in s.processes && Honest(s, config, foreign, Advance(id, x, after))
    ensures var t := Advanced(s, config, id, x, after);
            && s.operations <= after && OnePerReference(foreign, after) && AllRequested(foreign, after, t.calls, config)
            && HonestInput(foreign, after, s.processes[id], x)
  {
    var p := s.processes[id];
    OnlyCreatingCalls(config, s.store, p, SubmittedBy(s, p.provider), x);
    if p.pc.SubmitListing? || p.pc.SubmitCreating? { AuthorizedKeyIsOurs(config, foreign, s.store, p.intent); }
    var t := Advanced(s, config, id, x, after);
    if p.pc.SubmitCreating? {
      CreateKeepsOperations(foreign, s.operations, s.calls, CallOf(p, config), x, after, config);
      assert t.calls == s.calls + [CallOf(p, config)];
    } else {
      assert t.calls == s.calls;
    }
  }

  lemma {:induction false} AdvanceKeepsHonestInv(config: Config, foreign: set<string>, s: System, id: nat, x: Input, after: seq<ReturnedTransaction>)
    requires HonestInv(config, foreign, s) && id in s.processes && Honest(s, config, foreign, Advance(id, x, after))
    requires KeysApart(foreign, Advanced(s, config, id, x, after).store.authorizations)
    ensures HonestInv(config, foreign, Advanced(s, config, id, x, after))
  {
    var p := s.processes[id];
    var t := Advanced(s, config, id, x, after);
    AdvanceKeepsInv(config, s, id, x, after);
    AdvanceKeepsOperations(config, foreign, s, id, x, after);
    HistoriesStayOk(foreign, s.operations, after, s.store);
    ResultsStayOk(foreign, s.operations, after, p);
    ExecuteKeepsResults(foreign, after, s.store, p, config, SubmittedBy(s, p.provider), x);
    forall other | other in t.processes ensures ResultsOk(foreign, after, t.processes[other]) {
      if other != id { ResultsStayOk(foreign, s.operations, after, s.processes[other]); }
    }
  }

  lemma {:induction false} ElsewhereKeepsHonestInv(config: Config, foreign: set<string>, s: System, after: seq<ReturnedTransaction>)
    requires HonestInv(config, foreign, s) && OthersAppend(foreign, s.operations, after)
    ensures HonestInv(config, foreign, s.(operations := after))
  {
    HistoriesStayOk(foreign, s.operations, after, s.store);
    forall id | id in s.processes ensures ResultsOk(foreign, after, s.processes[id]) {
      ResultsStayOk(foreign, s.operations, after, s.processes[id]);
    }
    forall n | 0 <= n < |after| && after[n].refId.Some? && after[n].refId.value !in foreign ensures exists c :: c in s.calls && Reports(after[n], c, config) {
      assert n < |s.operations|;
    }
  }

  lemma {:induction false} NextKeepsHonestInv(config: Config, foreign: set<string>, s: System, e: Event)
    requires HonestInv(config, foreign, s) && Enabled(s, e) && Honest(s, config, foreign, e)
    requires KeysApart(foreign, Next(s, config, e).store.authorizations)
    ensures HonestInv(config, foreign, Next(s, config, e))
  {
    NextKeepsInv(config, s, e);
    match e {
      case Start(_, _, _, _) =>
      case Crash(_) =>
      case Advance(id, x, after) => AdvanceKeepsHonestInv(config, foreign, s, id, x, after);
      case Elsewhere(after) => ElsewhereKeepsHonestInv(config, foreign, s, after);
    }
  }

  /** A run during which the provider was honest, and other clients of the wallet used none of this service's keys. */
  ghost predicate HonestRun(config: Config, foreign: set<string>, states: seq<System>, events: seq<Event>) {
    && Run(config, states, events)
    && (forall n :: 0 <= n < |events| ==> Honest(states[n], config, foreign, events[n]))
    && (forall n :: 0 <= n < |states| ==> KeysApart(foreign, states[n].store.authorizations))
  }

  lemma {:induction false} InitialHonestInv(config: Config, foreign: set<string>)
    ensures HonestInv(config, foreign, INITIAL)
  {
  }

  lemma {:induction false} HonestRunStep(config: Config, foreign: set<string>, states: seq<System>, events: seq<Event>, n: nat)
    requires HonestRun(config, foreign, states, events) && n < |events|
    ensures Enabled(states[n], events[n]) && states[n + 1] == Next(states[n], config, events[n])
    ensures Honest(states[n], config, foreign, events[n]) && KeysApart(foreign, states[n + 1].store.authorizations)
  {
  }

  lemma {:induction false} HonestRunKeepsInv(config: Config, foreign: set<string>, states: seq<System>, events: seq<Event>, n: nat)
    requires HonestRun(config, foreign, states, events) && n < |states|
    ensures HonestInv(config, foreign, states[n])
  {
    if n == 0 {
      InitialHonestInv(config, foreign);
    } else {
      HonestRunKeepsInv(config, foreign, states, events, n - 1);
      HonestRunStep(config, foreign, states, events, n - 1);
      NextKeepsHonestInv(config, foreign, states[n - 1], events[n - 1]);
    }
  }

  // ----- the theorems -----

  /** The j-th operation carries out a request that was made under this approval. */
  ghost predicate MadeUnder(config: Config, s: System, b: string, j: nat) {
    j < |s.operations| && exists c :: c in s.calls && c.bindingId == b && Reports(s.operations[j], c, config)
  }

  /** The j-th operation carries the key of this stored approval. */
  predicate KeyedBy(s: System, b: string, j: nat) {
    b in s.store.authorizations && IsOperation(s.operations, j, s.store.authorizations[b].transaction.idempotencyKey)
  }

  lemma {:induction false} MadeUnderIffKeyed(config: Config, foreign: set<string>, s: System, b: string, j: nat)
    requires HonestInv(config, foreign, s)
    ensures MadeUnder(config, s, b, j) <==> KeyedBy(s, b, j)
    ensures MadeUnder(config, s, b, j) ==> IsConsumed(s.store, b)
  {
    var auths := s.store.authorizations;
    if MadeUnder(config, s, b, j) {
      var c :| c in s.calls && c.bindingId == b && Reports(s.operations[j], c, config);
      assert CallJustified(config, s.store, c);
    }
    if KeyedBy(s, b, j) {
      var c :| c in s.calls && Reports(s.operations[j], c, config);
      assert CallJustified(config, s.store, c);
      assert HoldsKey(auths, c.bindingId, c.idempotencyKey) && HoldsKey(auths, b, c.idempotencyKey);
    }
  }

  /**
   One approval leads to at most one operation, however many requests are made under it: every operation under its key was
   requested under it and after its consumption, every operation requested under it has its key, and there is only one.
   */
  lemma {:induction false} AtMostOneOperation(config: Config, foreign: set<string>, states: seq<System>, events: seq<Event>, n: nat, b: string, j: nat, k: nat)
    requires HonestRun(config, foreign, states, events) && n < |states|
    requires MadeUnder(config, states[n], b, j) || KeyedBy(states[n], b, j)
    requires MadeUnder(config, states[n], b, k) || KeyedBy(states[n], b, k)
    ensures j == k && MadeUnder(config, states[n], b, j) && KeyedBy(states[n], b, j) && IsConsumed(states[n].store, b)
  {
    HonestRunKeepsInv(config, foreign, states, events, n);
    MadeUnderIffKeyed(config, foreign, states[n], b, j);
    MadeUnderIffKeyed(config, foreign, states[n], b, k);
    assert !(j < k) && !(k < j);
  }

  lemma {:induction false} KnownIsUnique(foreign: set<string>, ops: seq<ReturnedTransaction>, key: string, id: string)
    requires OnePerReference(foreign, ops) && Ours(foreign, ops, key, id)
    ensures exists k: nat :: IsOperation(ops, k, key) && ops[k].id == Some(id)
    ensures forall k: nat :: IsOperation(ops, k, key) ==> ops[k].id == Some(id)
  {
    var m: nat :| IsOperation(ops, m, key) && ops[m].id == Some(id);
    forall k: nat | IsOperation(ops, k, key) ensures ops[k].id == Some(id) {
      assert !(m < k) && !(k < m);
    }
  }

  /** Every operation id recorded for a key is the id of the one operation Circle holds under that key. */
  lemma {:induction false} RecordedIdIsTheOperation(config: Config, foreign: set<string>, states: seq<System>, events: seq<Event>, n: nat, key: string, r: TransferResult)
    requires HonestRun(config, foreign, states, events) && n < |states|
    requires r in states[n].store.History(key) && r.providerOperationId.Some?
    ensures exists k: nat :: IsOperation(states[n].operations, k, key) && states[n].operations[k].id == r.providerOperationId
    ensures forall k: nat :: IsOperation(states[n].operations, k, key) ==> states[n].operations[k].id == r.providerOperationId
  {
    HonestRunKeepsInv(config, foreign, states, events, n);
    assert HistoryOk(foreign, states[n].operations, key, states[n].store.History(key));
    KnownIsUnique(foreign, states[n].operations, key, r.providerOperationId.value);
  }

  /** A request made under the approval of an authorized intent is the request that intent makes. */
  lemma {:induction false} CallCarriesIntent(config: Config, s: DurableState, c: CreateCall, i: Intent)
    requires Authorized(config, s, i) && CallJustified(config, s, c) && c.bindingId == i.authorizationBindingId
    ensures c.idempotencyKey == i.idempotencyKey && c.amount == Decimal.AtomicToDecimal(i.amountAtomic)
    ensures Text.SameUpToCase(c.destinationAddress, i.destinationAddress)
  {
  }

  lemma {:induction false} ReportedFieldsMatch(op: ReturnedTransaction, c: CreateCall, i: Intent, config: Config)
    requires Reports(op, c, config) && c.tokenAddress == config.usdcTokenAddress
    requires c.idempotencyKey == i.idempotencyKey && c.amount == Decimal.AtomicToDecimal(i.amountAtomic)
    requires Text.SameUpToCase(c.destinationAddress, i.destinationAddress)
    ensures MatchesRecoveredTransfer(i, op, config)
  {
  }

  lemma {:induction false} KeyNamesBinding(config: Config, s: DurableState, c: CreateCall, i: Intent)
    requires Keyed(s.authorizations) && Authorized(config, s, i) && CallJustified(config, s, c)
    requires c.idempotencyKey == i.idempotencyKey
    ensures c.bindingId == i.authorizationBindingId
  {
    var auths := s.authorizations;
    assert auths[i.authorizationBindingId].transaction.idempotencyKey == i.idempotencyKey;
    assert HoldsKey(auths, c.bindingId, i.idempotencyKey) && HoldsKey(auths, i.authorizationBindingId, i.idempotencyKey);
  }

  lemma {:induction false} OperationMatches(config: Config, foreign: set<string>, s: System, i: Intent, n: nat)
    requires HonestInv(config, foreign, s) && Authorized(config, s.store, i) && IsOperation(s.operations, n, i.idempotencyKey)
    ensures MatchesRecoveredTransfer(i, s.operations[n], config)
  {
    var op := s.operations[n];
    AuthorizedKeyIsOurs(config, foreign, s.store, i);
    var c :| c in s.calls && Reports(op, c, config);
    assert CallJustified(config, s.store, c);
    KeyNamesBinding(config, s.store, c, i);
    CallCarriesIntent(config, s.store, c, i);
    ReportedFieldsMatch(op, c, i, config);
  }

  /** An operation under the key of an authorized intent is exactly the transfer that intent names. */
  lemma {:induction false} OperationMatchesIntent(config: Config, foreign: set<string>, states: seq<System>, events: seq<Event>, n: nat, i: Intent, k: nat)
    requires HonestRun(config, foreign, states, events) && n < |states|
    requires Authorized(config, states[n].store, i) && IsOperation(states[n].operations, k, i.idempotencyKey)
    ensures MatchesRecoveredTransfer(i, states[n].operations[k], config)
  {
    HonestRunKeepsInv(config, foreign, states, events, n);
    OperationMatches(config, foreign, states[n], i, k);
  }

  lemma {:induction false} ListedOnce(foreign: set<string>, ops: seq<ReturnedTransaction>, listed: seq<ReturnedTransaction>, key: string, n: nat, at: nat)
    requires OnePerReference(foreign, ops) && key !in foreign && CompleteListing(ops, listed, key)
    requires IsOperation(ops, n, key) && at < |listed| && listed[at] == ops[n]
    ensures forall k :: 0 <= k < |listed| && listed[k].refId == Some(key) ==> k == at
  {
    forall k | 0 <= k < |listed| && listed[k].refId == Some(key) ensures k == at {
      assert listed[k] in ops;
      var m: nat :| m < |ops| && ops[m] == listed[k];
      assert !(m < n) && !(n < m);
      assert !(k < at) && !(at < k);
    }
  }

  lemma {:induction false} CompleteListingFinds(config: Config, foreign: set<string>, s: System, i: Intent, listed: seq<ReturnedTransaction>)
    requires HonestInv(config, foreign, s) && Authorized(config, s.store, i) && CompleteListing(s.operations, listed, i.idempotencyKey)
    ensures match Recover(i, listed, config)
            case Found(id) => Known(s.operations, i.idempotencyKey, id)
            case NotFound => !Exists(s.operations, i.idempotencyKey)
            case Ambiguous => false
  {
    var key, ops := i.idempotencyKey, s.operations;
    AuthorizedKeyIsOurs(config, foreign, s.store, i);
    if Exists(ops, key) {
      var n: nat :| IsOperation(ops, n, key);
      OperationMatches(config, foreign, s, i, n);
      var at: nat :| at < |listed| && listed[at] == ops[n];
      ListedOnce(foreign, ops, listed, key, n, at);
      RecoverFindsTheOne(i, listed, config, Some(at));
    } else {
      NothingListed(ops, listed, key);
      RecoverFindsTheOne(i, listed, config, None);
    }
  }

  lemma {:induction false} NothingListed(ops: seq<ReturnedTransaction>, listed: seq<ReturnedTransaction>, key: string)
    requires CompleteListing(ops, listed, key) && !Exists(ops, key)
    ensures forall k :: 0 <= k < |listed| ==> listed[k].refId != Some(key)
  {
    forall k | 0 <= k < |listed| ensures listed[k].refId != Some(key) {
      if listed[k].refId == Some(key) {
        var m: nat :| m < |ops| && ops[m] == listed[k];
        assert IsOperation(ops, m, key);
      }
    }
  }

  /** What the provider lists for a destination: the wallet's operations to that address, compared without regard to case. */
  ghost predicate ListsDestination(ops: seq<ReturnedTransaction>, all: seq<ReturnedTransaction>, destination: string) {
    forall op :: op in all <==> op in ops && op.destinationAddress.Some? && Text.SameUpToCase(op.destinationAddress.value, destination)
  }

  /** A cursor server that lists the operations to the intent's destination under distinct ids leads to a complete listing. */
  lemma {:induction false} ServedListingIsComplete(config: Config, foreign: set<string>, s: System, i: Intent, server: Server, all: seq<ReturnedTransaction>)
    requires HonestInv(config, foreign, s) && Authorized(config, s.store, i)
    requires ServesList(server, all) && DistinctUuids(all) && |all| <= 4999 && ListsDestination(s.operations, all, i.destinationAddress)
    ensures Collected(server, 0, None, {}) == Some(all) && CompleteListing(s.operations, all, i.idempotencyKey)
  {
    ListingIsComplete(server, all);
    forall n: nat | IsOperation(s.operations, n, i.idempotencyKey) ensures s.operations[n] in all {
      OperationMatches(config, foreign, s, i, n);
    }
    forall k, j | 0 <= k < j < |all| ensures all[j] != all[k] {
      assert all[k].id != all[j].id;
    }
  }

  /**
   Paging through a server that lists the wallet's operations to the destination, while others go on adding theirs between
   the pages, recovery finds the id of the operation of an authorized intent when it exists at the first call, finds nothing
   when it does not, and never ends in ambiguity.
   */
  lemma {:induction false} ListingFindsTheOperation(config: Config, foreign: set<string>, states: seq<System>, events: seq<Event>, n: nat, i: Intent,
      server: Server, lists: nat -> seq<ReturnedTransaction>)
    requires HonestRun(config, foreign, states, events) && n < |states| && Authorized(config, states[n].store, i)
    requires ServesGrowing(server, lists) && DistinctUuids(lists(0)) && |lists(0)| <= 4999
    requires ListsDestination(states[n].operations, lists(0), i.destinationAddress)
    ensures Collected(server, 0, None, {}).Some?
    ensures match Recover(i, Collected(server, 0, None, {}).value, config)
            case Found(id) => Known(states[n].operations, i.idempotencyKey, id)
            case NotFound => !Exists(states[n].operations, i.idempotencyKey)
            case Ambiguous => false
  {
    HonestRunKeepsInv(config, foreign, states, events, n);
    GrowthIsInvisible(server, lists);
    ServedListingIsComplete(config, foreign, states[n], i, server, lists(0));
    CompleteListingFinds(config, foreign, states[n], i, lists(0));
  }

  /**
   Recovery of a consumed submission never ends in ambiguity: when Circle already holds the operation, the recovering
   process reports that operation's id and creates nothing; otherwise there is no operation to find.
   */
  lemma {:induction false} RecoveryReturnsTheOperation(config: Config, foreign: set<string>, states: seq<System>, events: seq<Event>, n: nat)
    requires HonestRun(config, foreign, states, events) && n < |events| && events[n].Advance?
    requires states[n].processes[events[n].id].pc.SubmitListing? && events[n].x.fault == NoFault && events[n].x.listing.Some?
    ensures var s, p, x := states[n], states[n].processes[events[n].id], events[n].x;
            var e := EffectOf(s, config, events[n].id, x);
            && e.call.None?
            && (Exists(s.operations, p.intent.idempotencyKey) ==>
                  e.process.pc.RecordingSubmitted? && e.process.pc.submitted.status == Submitted
                  && e.process.pc.submitted.providerOperationId.Some?
                  && Known(s.operations, p.intent.idempotencyKey, e.process.pc.submitted.providerOperationId.value))
            && (!Exists(s.operations, p.intent.idempotencyKey) ==> e.process.pc.SubmitBalance? || e.process.pc.RecordingSubmitted?)
  {
    HonestRunKeepsInv(config, foreign, states, events, n);
    var s, p := states[n], states[n].processes[events[n].id];
    CompleteListingFinds(config, foreign, s, p.intent, events[n].x.listing.value);
    OnlyCreatingCalls(config, s.store, p, SubmittedBy(s, p.provider), events[n].x);
    if Exists(s.operations, p.intent.idempotencyKey) {
      assert Recover(p.intent, events[n].x.listing.value, config).Found?;
    }
  }
}
