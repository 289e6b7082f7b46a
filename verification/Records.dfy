/**
 The records of one approved transfer and the checks that tie an intent to them
 (packages/circle-adapter/src/intent.ts, packages/domain/src/models.ts).
 Atomic amounts are naturals and timestamps are milliseconds.
 */
module Records {
  import opened Wrappers
  import opened Text
  import opened Actors

  const ARC_TESTNET_CHAIN_ID := "5042002"
  const ARC_TESTNET_USDC_ADDRESS := "0x3600000000000000000000000000000000000000"
  const DEMO_TRANSFER_AMOUNT_ATOMIC: nat := 1_000_000

  datatype ApprovalRecord = ApprovalRecord(
    id: string, intentId: string, exactIntentHash: string,
    decision: Decision, decidedAt: Option<int>, expiresAt: int)

  datatype ProtocolTarget =
    | Destination(destination: string, sourceWalletId: string, network: string, chainId: string, isMock: bool)
    | Erc8183(destination: string)

  datatype OperationType = Settlement | OtherOperation

  datatype ExecutionIntent = ExecutionIntent(
    actionKind: ActionKind, operationType: OperationType,
    asset: string, atomicAmount: nat, protocolTarget: ProtocolTarget)

  datatype BindingStatus = Active | Consumed | Revoked

  datatype Binding = Binding(
    id: string, intentId: string, exactIntentHash: string, executionIntent: ExecutionIntent,
    status: BindingStatus, consumedAt: Option<int>, consumedByTransactionId: Option<string>)

  datatype TransactionRecord = TransactionRecord(
    id: string, intentId: string, idempotencyKey: string, releaseRequestId: string,
    approvalId: string, approvalBindingId: string, amount: nat, destinationReference: string)

  /** `consistent` is the verdict of the integrity checks on the fields that never change. */
  datatype Authorization = Authorization(
    approval: ApprovalRecord, releaseId: string, transaction: TransactionRecord, binding: Binding,
    consistent: bool)

  datatype Intent = Intent(
    proposalId: string, releaseRequestId: string, approvalId: string,
    authorizationBindingId: string, transactionRecordId: string, intentId: string,
    idempotencyKey: string, network: string, chainId: string, asset: string,
    tokenContractAddress: string, amountAtomic: nat, sourceWalletId: string, destinationAddress: string)

  datatype TransferStatus = Prepared | RecoveryPending | Submitted | Confirmed | Failed

  datatype FailureCode =
    | ApprovalMissing | ApprovalExpired | ApprovalAltered | AuthorizationUnavailable
    | AmountMismatch | NetworkMismatch | TokenMismatch | WalletMismatch | InsufficientBalance
    | DuplicateSubmission | SubmissionUnknown | PollingTimeout | ConfirmationIncomplete

  datatype TransferResult = TransferResult(
    proposalId: Option<string>, idempotencyKey: Option<string>, status: TransferStatus,
    failureCode: Option<FailureCode>, providerOperationId: Option<string>,
    transactionHash: Option<string>, blockNumber: Option<nat>, blockHash: Option<string>,
    explorerUrl: Option<string>, polledAt: Option<int>)

  datatype Config = Config(usdcTokenAddress: string, sourceWalletId: string)

  datatype Revalidation = Ok | Refused(code: FailureCode)

  /** The stored snapshot is the one the five references of the intent name. */
  predicate ReferencesMatch(a: Authorization, i: Intent) {
    && a.releaseId == i.releaseRequestId
    && a.approval.id == i.approvalId
    && a.binding.id == i.authorizationBindingId
    && a.transaction.id == i.transactionRecordId
    && a.binding.intentId == i.intentId
  }

  /** The approved execution target is the live destination the intent names. */
  predicate TargetMatches(e: ExecutionIntent, i: Intent) {
    && e.protocolTarget.Destination?
    && !e.protocolTarget.isMock
    && e.atomicAmount == i.amountAtomic
    && e.asset == i.asset
    && e.protocolTarget.network == "ARC_TESTNET"
    && e.protocolTarget.chainId == i.chainId
    && e.protocolTarget.sourceWalletId == i.sourceWalletId
    && SameUpToCase(e.protocolTarget.destination, i.destinationAddress)
  }

  predicate AuthorizationMatchesIntent(a: Authorization, i: Intent) {
    && ReferencesMatch(a, i)
    && a.transaction.idempotencyKey == i.idempotencyKey
    && a.releaseId == i.proposalId
    && SameUpToCase(i.tokenContractAddress, ARC_TESTNET_USDC_ADDRESS)
    && i.network == "ARC-TESTNET"
    && TargetMatches(a.binding.executionIntent, i)
  }

  function MatchIntentToRecords(i: Intent, stored: Option<Authorization>, config: Config): Revalidation {
    if i.proposalId == "" || i.releaseRequestId == "" || i.approvalId == "" || i.authorizationBindingId == ""
       || i.transactionRecordId == "" || i.intentId == "" || i.idempotencyKey == "" then
      Refused(ApprovalMissing)
    else if i.network != "ARC-TESTNET" || i.chainId != ARC_TESTNET_CHAIN_ID then
      Refused(NetworkMismatch)
    else if i.asset != "USDC" || !SameUpToCase(i.tokenContractAddress, config.usdcTokenAddress) then
      Refused(TokenMismatch)
    else if i.amountAtomic != DEMO_TRANSFER_AMOUNT_ATOMIC then
      Refused(AmountMismatch)
    else if config.sourceWalletId != "" && i.sourceWalletId != config.sourceWalletId then
      Refused(WalletMismatch)
    else if !IsEvmAddress(i.destinationAddress) then
      Refused(WalletMismatch)
    else if stored.None? then
      Refused(AuthorizationUnavailable)
    else
      var a := stored.value;
      if || a.releaseId != i.releaseRequestId || a.releaseId != i.proposalId || a.approval.id != i.approvalId
         || a.binding.id != i.authorizationBindingId || a.transaction.id != i.transactionRecordId
         || a.approval.intentId != i.intentId || a.binding.intentId != i.intentId
         || a.transaction.intentId != i.intentId || a.transaction.idempotencyKey != i.idempotencyKey then
        Refused(ApprovalAltered)
      else if !a.approval.decision.Approved? || a.approval.decidedAt.None? then
        Refused(ApprovalMissing)
      else if a.binding.executionIntent.operationType != Settlement
              || !TargetMatches(a.binding.executionIntent, i) then
        Refused(ApprovalAltered)
      else
        Ok
  }

  /** The relationship checks of packages/domain/src/integrity.ts, with their time and status parts spelled out. */
  predicate ExecutionAuthorized(a: Authorization, asOf: int) {
    && a.consistent
    && a.binding.status == Active && a.binding.consumedAt.None? && a.binding.consumedByTransactionId.None?
    && a.approval.decision.Approved?
    && a.approval.decidedAt.Some? && a.approval.decidedAt.value <= asOf < a.approval.expiresAt
  }

  function RevalidateApprovedIntent(i: Intent, stored: Option<Authorization>, config: Config, asOf: int): Revalidation {
    var structural := MatchIntentToRecords(i, stored, config);
    if structural != Ok then structural
    else if stored.None? then Refused(AuthorizationUnavailable)
    else if stored.value.approval.expiresAt <= asOf then Refused(ApprovalExpired)
    else if !ExecutionAuthorized(stored.value, asOf) then Refused(AuthorizationUnavailable)
    else Ok
  }

  function FailureResult(i: Intent, code: FailureCode, now: int): TransferResult {
    TransferResult(Some(i.proposalId), Some(i.idempotencyKey), Failed, Some(code), None, None, None, None, None, Some(now))
  }

  function PreparedResult(i: Intent, now: int): TransferResult {
    TransferResult(Some(i.proposalId), Some(i.idempotencyKey), Prepared, None, None, None, None, None, None, Some(now))
  }

  function SubmittedResult(i: Intent, operationId: string, now: int): TransferResult {
    TransferResult(Some(i.proposalId), Some(i.idempotencyKey), Submitted, None, Some(operationId), None, None, None, None, Some(now))
  }

  function BindResultToIntent(i: Intent, r: TransferResult): TransferResult {
    r.(proposalId := Some(i.proposalId), idempotencyKey := Some(i.idempotencyKey))
  }

  /** Rebuilds the intent of a stored authorization for a recovery request; None is the source's refusal. */
  function RestoreApprovedIntent(a: Authorization): Option<Intent> {
    var e := a.binding.executionIntent;
    var t := e.protocolTarget;
    if || e.actionKind != ReleaseApproval || e.operationType != Settlement || e.asset != "USDC"
       || !t.Destination? || t.isMock || t.network != "ARC_TESTNET" || t.chainId != ARC_TESTNET_CHAIN_ID
       || a.transaction.releaseRequestId != a.releaseId || a.transaction.approvalId != a.approval.id
       || a.transaction.approvalBindingId != a.binding.id || a.transaction.intentId != a.binding.intentId
       || a.transaction.amount != e.atomicAmount
       || !SameUpToCase(a.transaction.destinationReference, t.destination) then
      None
    else
      Some(Intent(a.releaseId, a.releaseId, a.approval.id, a.binding.id, a.transaction.id, a.binding.intentId,
                  a.transaction.idempotencyKey, "ARC-TESTNET", ARC_TESTNET_CHAIN_ID, "USDC",
                  ARC_TESTNET_USDC_ADDRESS, e.atomicAmount, t.sourceWalletId, t.destination))
  }

  /** The same intent but for the letter case of its two addresses. */
  predicate SameIntentUpToCase(i: Intent, j: Intent) {
    && i == j.(tokenContractAddress := i.tokenContractAddress, destinationAddress := i.destinationAddress)
    && SameUpToCase(i.tokenContractAddress, j.tokenContractAddress) && SameUpToCase(i.destinationAddress, j.destinationAddress)
  }

  /**
   What recovery rebuilds from the records is the intent that was submitted: any intent that ever passed the record checks
   for this authorization, under the USDC address of the network, is the restored one up to letter case.
   */
  lemma RestoredIntentIsSubmitted(i: Intent, a: Authorization, config: Config)
    requires MatchIntentToRecords(i, Some(a), config) == Ok && SameUpToCase(config.usdcTokenAddress, ARC_TESTNET_USDC_ADDRESS)
    requires RestoreApprovedIntent(a).Some?
    ensures SameIntentUpToCase(i, RestoreApprovedIntent(a).value)
  {
  }

  /** The immutable part of an authorization: everything except how its binding was consumed. */
  function Unconsumed(a: Authorization): Authorization {
    a.(binding := a.binding.(status := Active, consumedAt := None, consumedByTransactionId := None))
  }

  /** The intent checks look only at the immutable part, so consuming a binding cannot change their verdict. */
  lemma MatchIgnoresConsumption(i: Intent, a: Authorization, b: Authorization, config: Config)
    requires Unconsumed(a) == Unconsumed(b)
    ensures MatchIntentToRecords(i, Some(a), config) == MatchIntentToRecords(i, Some(b), config)
    ensures ReferencesMatch(a, i) == ReferencesMatch(b, i)
    ensures a.transaction == b.transaction && a.approval == b.approval
    ensures a.binding.executionIntent == b.binding.executionIntent
  {
    var ua, ub := Unconsumed(a), Unconsumed(b);
    assert ua.binding.executionIntent == a.binding.executionIntent && ub.binding.executionIntent == b.binding.executionIntent;
    assert ua.binding.id == a.binding.id && ub.binding.id == b.binding.id;
    assert ua.binding.intentId == a.binding.intentId && ub.binding.intentId == b.binding.intentId;
  }
}
