/**
 The durable authorization store (apps/web/lib/verification-agent/durable-authorization-store.ts):
 what each locked read-modify-write does to the persisted state, as a function of that state.
 The lock that makes each of them one atomic step is the subject of module LockProtocol.
 */
module DurableStore {
  import opened Wrappers
  import opened Records

  const PRE_SUBMISSION_RETRY_CLAIM_LEASE_MS := 30_000

  datatype RetryClaim = RetryClaim(
    claimToken: string, proposalId: string, authorizationBindingId: string, claimedAt: int,
    resultHistoryLength: Option<nat>, failedResult: Option<TransferResult>)

  datatype Reconciliation = Reconciliation(
    reconciliationId: string, proposalId: string, idempotencyKey: string, transactionRecordId: string,
    amountAtomic: nat, providerOperationId: string, transactionHash: string, blockNumber: nat,
    blockHash: string, explorerUrl: string, reconciledAt: int)

  datatype DurableState = DurableState(
    authorizations: map<string, Authorization>,
    resultHistory: map<string, seq<TransferResult>>,
    latestResultKey: Option<string>,
    reconciliations: seq<Reconciliation>,
    retryClaims: map<string, RetryClaim>)
  {
    function History(key: string): seq<TransferResult> { Entries(resultHistory, key) }
  }

  const EMPTY_STATE := DurableState(map[], map[], None, [], map[])

  datatype StoreError =
    | KeyRequired | ResultTerminal | TransitionInvalid | ClaimLost | ConfirmationMismatch | AlreadyRecorded

  predicate NoOperations(h: seq<TransferResult>) {
    forall i :: 0 <= i < |h| ==> h[i].providerOperationId.None?
  }

  // ----- lookups -----

  ghost predicate HoldsKey(auths: map<string, Authorization>, b: string, key: string) {
    b in auths && auths[b].transaction.idempotencyKey == key
  }

  /** The stored authorization with this idempotency key, if there is one. */
  ghost function FindByKey(auths: map<string, Authorization>, key: string): Option<Authorization> {
    if b :| HoldsKey(auths, b, key) then Some(auths[b]) else None
  }

  ghost predicate HasKey(auths: map<string, Authorization>, key: string) {
    exists b :: HoldsKey(auths, b, key)
  }

  function Load(s: DurableState, i: Intent): Option<Authorization> {
    if i.authorizationBindingId in s.authorizations && ReferencesMatch(s.authorizations[i.authorizationBindingId], i)
    then Some(s.authorizations[i.authorizationBindingId]) else None
  }

  // ----- operations -----

  ghost function Persist(s: DurableState, a: Authorization): (DurableState, bool) {
    if HasKey(s.authorizations, a.transaction.idempotencyKey) || (exists b :: b in s.authorizations && s.authorizations[b].binding.id == a.binding.id)
    then (s, false)
    else (s.(authorizations := s.authorizations[a.binding.id := a]), true)
  }

  predicate CanConsume(s: DurableState, i: Intent, expectedHash: string, asOf: int) {
    && i.authorizationBindingId in s.authorizations
    && var a := s.authorizations[i.authorizationBindingId];
    && ReferencesMatch(a, i)
    && a.binding.status == Active
    && a.binding.exactIntentHash == expectedHash
    && a.transaction.idempotencyKey == i.idempotencyKey
    && a.approval.decision.Approved?
    && asOf < a.approval.expiresAt
  }

  /** Marks the binding consumed and returns the authorization as it was before. */
  function Consume(s: DurableState, i: Intent, expectedHash: string, asOf: int): (DurableState, Option<Authorization>) {
    if !CanConsume(s, i, expectedHash, asOf) then (s, None) else
      var a := s.authorizations[i.authorizationBindingId];
      var consumed := a.(binding := a.binding.(status := Consumed, consumedAt := Some(asOf),
                                               consumedByTransactionId := Some(i.transactionRecordId)));
      (s.(authorizations := s.authorizations[i.authorizationBindingId := consumed]), Some(a))
  }

  function Follows(previous: TransferStatus): set<TransferStatus> {
    match previous
    case Prepared => {RecoveryPending, Submitted, Failed}
    case RecoveryPending => {RecoveryPending, Submitted, Failed}
    case Submitted => {Submitted, Confirmed, Failed}
    case _ => {}
  }

  /** True to append, false to ignore a repeated result; an error is the source's exception. */
  function CanAppendResult(h: seq<TransferResult>, next: TransferResult, stored: Option<Authorization>): Result<bool, StoreError> {
    if h == [] then Success(true) else
      var previous := h[|h| - 1];
      if previous == next then Success(false)
      else if previous.status == Failed then
        if && next.status == Prepared
           && NoOperations(h)
           && stored.Some? && stored.value.binding.status == Active
           && Some(stored.value.transaction.idempotencyKey) == next.idempotencyKey
           && Some(stored.value.releaseId) == next.proposalId
        then Success(true) else Failure(ResultTerminal)
      else if previous.status == Confirmed then Failure(ResultTerminal)
      else if next.status in Follows(previous.status) then Success(true)
      else Failure(TransitionInvalid)
  }

  function Append(s: DurableState, key: string, r: TransferResult): DurableState {
    s.(resultHistory := s.resultHistory[key := s.History(key) + [r]], latestResultKey := Some(key))
  }

  ghost function RecordResult(s: DurableState, r: TransferResult): Result<DurableState, StoreError> {
    if r.idempotencyKey.None? || r.idempotencyKey.value == "" then Failure(KeyRequired) else
      var key := r.idempotencyKey.value;
      match CanAppendResult(s.History(key), r, FindByKey(s.authorizations, key))
      case Failure(e) => Failure(e)
      case Success(append) => Success(if append then Append(s, key, r) else s)
  }

  predicate ExpiredClaim(c: RetryClaim, i: Intent, h: seq<TransferResult>, now: int) {
    && c.claimedAt + PRE_SUBMISSION_RETRY_CLAIM_LEASE_MS <= now
    && c.proposalId == i.proposalId
    && c.authorizationBindingId == i.authorizationBindingId
    && c.resultHistoryLength == Some(|h|)
    && c.failedResult.Some?
    && Last(h) == c.failedResult
  }

  predicate CanClaim(s: DurableState, i: Intent, now: int) {
    var h := s.History(i.idempotencyKey);
    && i.authorizationBindingId in s.authorizations
    && AuthorizationMatchesIntent(s.authorizations[i.authorizationBindingId], i)
    && s.authorizations[i.authorizationBindingId].binding.status == Active
    && h != [] && h[|h| - 1].status == Failed && NoOperations(h)
    && (i.idempotencyKey in s.retryClaims ==> ExpiredClaim(s.retryClaims[i.idempotencyKey], i, h, now))
  }

  function ClaimRetry(s: DurableState, i: Intent, now: int, token: string): (DurableState, Option<string>) {
    if !CanClaim(s, i, now) then (s, None) else
      var h := s.History(i.idempotencyKey);
      var claim := RetryClaim(token, i.proposalId, i.authorizationBindingId, now, Some(|h|), Last(h));
      (s.(retryClaims := s.retryClaims[i.idempotencyKey := claim]), Some(token))
  }

  /** The claim under this key is the caller's own and still describes the end of the history. */
  predicate HoldsClaim(s: DurableState, token: string, r: TransferResult, stored: Option<Authorization>)
    requires r.idempotencyKey.Some?
  {
    var key := r.idempotencyKey.value;
    && key in s.retryClaims
    && var c := s.retryClaims[key];
    && c.claimToken == token
    && Some(c.proposalId) == r.proposalId
    && stored.Some? && stored.value.binding.id == c.authorizationBindingId
    && c.resultHistoryLength == Some(|s.History(key)|)
    && c.failedResult.Some? && c.failedResult == Last(s.History(key))
    && r.status in {Prepared, Failed}
    && r.providerOperationId.None?
  }

  /** Why a completion is refused, if it is. */
  function CompletionRefused(s: DurableState, token: string, r: TransferResult, stored: Option<Authorization>): Option<StoreError>
    requires r.idempotencyKey.Some?
  {
    var h := s.History(r.idempotencyKey.value);
    if !HoldsClaim(s, token, r, stored) then Some(ClaimLost)
    else if r.status == Prepared then
      match CanAppendResult(h, r, stored)
      case Failure(e) => Some(e)
      case Success(append) => if append then None else Some(TransitionInvalid)
    else if h == [] || h[|h| - 1].status != Failed || !NoOperations(h) || stored.value.binding.status != Active then
      Some(ResultTerminal)
    else None
  }

  ghost function CompleteClaim(s: DurableState, token: string, r: TransferResult): Result<DurableState, StoreError> {
    if r.idempotencyKey.None? || r.idempotencyKey.value == "" then Failure(KeyRequired) else
      var key := r.idempotencyKey.value;
      match CompletionRefused(s, token, r, FindByKey(s.authorizations, key))
      case Some(e) => Failure(e)
      case None => Success(Append(s, key, r).(retryClaims := s.retryClaims - {key}))
  }

  /** The confirmed result carries exactly the evidence the reconciliation claims. */
  predicate Evidences(r: TransferResult, c: Reconciliation) {
    && r.status == Confirmed
    && r.proposalId == Some(c.proposalId)
    && r.providerOperationId == Some(c.providerOperationId)
    && r.transactionHash == Some(c.transactionHash)
    && r.blockNumber == Some(c.blockNumber)
    && r.blockHash == Some(c.blockHash)
    && r.explorerUrl == Some(c.explorerUrl)
  }

  /** The first stored reconciliation of a key (`find`). */
  function FindReconciliation(rs: seq<Reconciliation>, key: string): Option<Reconciliation> {
    if rs == [] then None
    else if rs[0].idempotencyKey == key then Some(rs[0])
    else FindReconciliation(rs[1..], key)
  }

  function RecordReconciliation(s: DurableState, c: Reconciliation): Result<DurableState, StoreError> {
    var last := Last(s.History(c.idempotencyKey));
    if last.None? || !Evidences(last.value, c) then Failure(ConfirmationMismatch) else
      match FindReconciliation(s.reconciliations, c.idempotencyKey)
      case Some(existing) =>
        if existing.(reconciledAt := c.reconciledAt) == c then Success(s) else Failure(AlreadyRecorded)
      case None => Success(s.(reconciliations := s.reconciliations + [c]))
  }

  // ----- one step and whole runs -----

  datatype StoreOp =
    | PersistOp(a: Authorization)
    | ConsumeOp(i: Intent, expectedHash: string, asOf: int)
    | RecordOp(r: TransferResult)
    | ClaimOp(i: Intent, now: int, token: string)
    | CompleteOp(token: string, r: TransferResult)
    | ReconcileOp(c: Reconciliation)

  ghost function Or(s: DurableState, r: Result<DurableState, StoreError>): DurableState {
    if r.Success? then r.value else s
  }

  /** What one locked operation leaves in the file; an operation that throws leaves it as it was. */
  ghost function Apply(s: DurableState, op: StoreOp): DurableState {
    match op
    case PersistOp(a) => Persist(s, a).0
    case ConsumeOp(i, h, t) => Consume(s, i, h, t).0
    case RecordOp(r) => Or(s, RecordResult(s, r))
    case ClaimOp(i, now, token) => ClaimRetry(s, i, now, token).0
    case CompleteOp(token, r) => Or(s, CompleteClaim(s, token, r))
    case ReconcileOp(c) => Or(s, RecordReconciliation(s, c))
  }

  /** The state after a run of operations that starts from the empty store. */
  ghost function After(ops: seq<StoreOp>): DurableState {
    if ops == [] then EMPTY_STATE else Apply(After(ops[..|ops| - 1]), ops[|ops| - 1])
  }
}
