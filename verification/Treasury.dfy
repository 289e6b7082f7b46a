/**
 The LaunchVault treasury as operations on its books: balances, reserves, ledger, allocation proposals and incoming
 tranches. Each callback is a function from the books before it to the books after it or to the error it throws.
 */
module Treasury {
  import opened Wrappers
  import opened Sorting
  import opened Allocation
  import opened Actors
  import Text

  datatype Mode = Mock | ArcTestnet

  /** The vault's constants: its mode and the configured operator and founder authorities. */
  datatype Config = Config(vaultId: string, projectId: string, mode: Mode, operator: Actor, founder: Actor)

  datatype TxStatus = NoTx | PreparedTx | SubmittedTx | ConfirmedTx | FailedTx

  datatype TxOperation = SettlementTx | JobEvaluateTx | OtherTx(name: string)

  datatype TxRef = TxRef(network: string, chainId: string, transactionHash: Option<string>, status: TxStatus, blockNumber: Option<string>,
                         blockHash: Option<string>, explorerUrl: Option<string>, operationType: TxOperation, isMock: bool,
                         providerOperationId: Option<string>)

  /** `terms` stands for the standard, addresses, references and expiry of the job, which are only ever compared. */
  datatype JobRef = JobRef(terms: string, network: string, chainId: string, contractAddress: string, jobId: string, status: string, budget: nat,
                           transaction: Option<TxRef>, escrowTransaction: Option<TxRef>, isMock: bool)

  datatype ApprovalRecord = ApprovalRecord(id: string, aggregateId: string, actionKind: ActionKind, authorizedActorType: ActorType,
                                           authorizedActorId: string, exactIntentHash: string, idempotencyKey: string, decision: Decision,
                                           approver: Option<Actor>, expiresAt: int, decidedAt: Option<int>)

  datatype ProposalStatus = ProposedStatus | ApprovedStatus | AppliedStatus

  datatype Proposal = Proposal(id: string, status: ProposalStatus, instructions: seq<Instruction>, resolved: seq<Share>, sourceJob: Option<JobRef>,
                               settlement: Option<TxRef>, sourceTranche: Option<string>, approvalId: Option<string>,
                               approvedIntentHash: Option<string>, approval: Option<ApprovalRecord>, createdAt: int,
                               approvedAt: Option<int>, appliedAt: Option<int>)

  datatype TrancheState = PreparedState | SubmittedState | ConfirmedState | FailedState | ReconciledState

  datatype Tranche = Tranche(id: string, amount: nat, tx: TxRef, sourceJob: Option<JobRef>, state: TrancheState, reconciledAt: Option<int>, createdAt: int)

  datatype EntryKind = CapitalEntry | AllocationEntry | CommitmentEntry | SettlementEntry | RefundEntry | ReversalEntry

  datatype LedgerEntry = LedgerEntry(id: string, kind: EntryKind, reserveId: Option<string>, amount: nat, idempotencyKey: string, occurredAt: int,
                                     reversesEntryId: Option<string>)

  datatype Reserve = Reserve(id: string, allocation: nat, active: bool)

  datatype Books = Books(totalCapital: nat, confirmed: nat, escrowed: nat, reserves: seq<Reserve>, ledger: seq<LedgerEntry>,
                         proposals: map<string, Proposal>, tranches: map<string, Tranche>, audit: seq<string>)

  datatype TreasuryError = InvalidState | InsufficientAvailable | PercentageTooHigh | ProposalAltered | ApprovalMismatch | Underflow
                         | InvalidTransition | Unauthorized | InsufficientFunds | Malformed | IdempotencyConflict

  // ----- balances -----

  datatype Balances = Balances(confirmed: nat, escrowed: nat, available: nat, allocation: nat, unallocated: nat)

  function AllocatedOf(r: Reserve): int { r.allocation }

  function Allocated(reserves: seq<Reserve>): (r: nat) {
    SumIsNat(reserves, AllocatedOf);
    Sum(reserves, AllocatedOf)
  }

  function ComputeBalances(reserves: seq<Reserve>, confirmed: nat, escrowed: nat): Result<Balances, TreasuryError> {
    var total := Allocated(reserves);
    if total + escrowed > confirmed then Failure(Underflow)
    else Success(Balances(confirmed, escrowed, confirmed - escrowed, total, confirmed - escrowed - total))
  }

  /** What an entry adds to the confirmed, escrowed and allocated totals that the ledger stands for. */
  function ConfirmedOf(e: LedgerEntry): int {
    if e.kind.CapitalEntry? || e.kind.SettlementEntry? then e.amount else if e.kind.RefundEntry? then -(e.amount as int) else 0
  }

  function EscrowedOf(e: LedgerEntry): int {
    if e.kind.CommitmentEntry? then e.amount else if e.kind.ReversalEntry? then -(e.amount as int) else 0
  }

  function AllocationOf(e: LedgerEntry): int {
    if e.kind.AllocationEntry? then e.amount else 0
  }

  /** The totals that the ledger stands for, and whether the dashboard balances agree with them; negative amounts throw. */
  function Consistency(confirmedInLedger: int, escrowedInLedger: int, allocatedInLedger: int, totalCapital: nat,
                       balances: Result<Balances, TreasuryError>): Result<bool, TreasuryError>
  {
    var available := confirmedInLedger - escrowedInLedger;
    :- Need(confirmedInLedger >= 0 && escrowedInLedger >= 0 && allocatedInLedger >= 0, Malformed);
    :- Need(available >= 0 && allocatedInLedger <= available, InsufficientFunds);
    var d :- balances;
    Success(totalCapital == d.confirmed && confirmedInLedger == d.confirmed && escrowedInLedger == d.escrowed && allocatedInLedger == d.allocation
            && available == d.available && available - allocatedInLedger == d.unallocated)
  }

  /** `deriveLedgerReconciliationInvariant(...).isConsistent`. */
  function IsConsistent(reserves: seq<Reserve>, confirmed: nat, escrowed: nat, ledger: seq<LedgerEntry>, totalCapital: nat): Result<bool, TreasuryError> {
    Consistency(Sum(ledger, ConfirmedOf), Sum(ledger, EscrowedOf), Sum(ledger, AllocationOf), totalCapital, ComputeBalances(reserves, confirmed, escrowed))
  }

  /** `getSnapshot().balances`. */
  function Snapshot(b: Books): Result<Balances, TreasuryError> {
    var balances :- ComputeBalances(b.reserves, b.confirmed, b.escrowed);
    var consistent :- IsConsistent(b.reserves, b.confirmed, b.escrowed, b.ledger, b.totalCapital);
    :- Need(consistent, InvalidState);
    Success(balances)
  }

  // ----- escrow -----

  function FindEntry(ledger: seq<LedgerEntry>, id: string): Option<LedgerEntry> {
    if ledger == [] then None else if ledger[0].id == id then Some(ledger[0]) else FindEntry(ledger[1..], id)
  }

  function ReversalOf(id: string): LedgerEntry -> int {
    (e: LedgerEntry) => if e.kind.ReversalEntry? && e.reversesEntryId == Some(id) then e.amount else 0
  }

  /** How much of a commitment has been reversed already. */
  function Reversed(ledger: seq<LedgerEntry>, id: string): (r: nat) {
    SumIsNat(ledger, ReversalOf(id));
    Sum(ledger, ReversalOf(id))
  }

  function RecordEscrow(b: Books, amount: nat, key: string, eventId: string, at: int): Result<Books, TreasuryError> {
    var ledgerId := "ledger:escrow:" + eventId;
    :- Need(eventId !in b.audit, InvalidState);
    :- Need(FindEntry(b.ledger, ledgerId).None?, InvalidState);
    var now :- ComputeBalances(b.reserves, b.confirmed, b.escrowed);
    :- Need(now.allocation + b.escrowed + amount <= b.confirmed, Underflow);
    var after :- ComputeBalances(b.reserves, b.confirmed, b.escrowed + amount);
    :- Need(key != "", Malformed);
    Success(b.(escrowed := b.escrowed + amount,
               ledger := b.ledger + [LedgerEntry(ledgerId, CommitmentEntry, None, amount, key, at, None)],
               audit := b.audit + [eventId]))
  }

  function ReleaseEscrow(b: Books, amount: nat, key: string, eventId: string, at: int, target: string): Result<Books, TreasuryError> {
    var ledgerId := "ledger:escrow-release:" + eventId;
    :- Need(eventId !in b.audit, InvalidState);
    :- Need(FindEntry(b.ledger, ledgerId).None?, InvalidState);
    :- Need(amount <= b.escrowed, Underflow);
    var commitment := FindEntry(b.ledger, target);
    :- Need(commitment.Some? && commitment.value.kind.CommitmentEntry?, InvalidTransition);
    :- Need(Reversed(b.ledger, target) + amount <= commitment.value.amount, Underflow);
    :- Need(key != "", Malformed);
    var after :- ComputeBalances(b.reserves, b.confirmed, b.escrowed - amount);
    Success(b.(escrowed := b.escrowed - amount,
               ledger := b.ledger + [LedgerEntry(ledgerId, ReversalEntry, None, amount, key, at, Some(target))],
               audit := b.audit + [eventId]))
  }

  // ----- allocation proposals -----

  function TxFingerprint(t: TxRef): TxRef {
    t.(providerOperationId := None)
  }

  function OptionalTx(t: Option<TxRef>): Option<TxRef> {
    if t.None? then None else Some(TxFingerprint(t.value))
  }

  function JobFingerprint(j: Option<JobRef>): Option<JobRef> {
    if j.None? then None
    else Some(j.value.(transaction := OptionalTx(j.value.transaction), escrowTransaction := OptionalTx(j.value.escrowTransaction)))
  }

  function ReserveIds(reserves: seq<Reserve>): set<string> {
    set k | 0 <= k < |reserves| :: reserves[k].id
  }

  function ResolveError(e: AllocationError): TreasuryError {
    match e
    case UnknownReserve => InvalidState
    case PercentageOver100 => PercentageTooHigh
    case InsufficientAvailable => TreasuryError.InsufficientAvailable
    case NothingToResolve => InvalidState
  }

  function Resolved(budget: nat, ins: seq<Instruction>, reserves: set<string>): Result<seq<Share>, TreasuryError> {
    match Resolve(budget, ins, reserves)
    case Success(shares) => Success(shares)
    case Failure(e) => Failure(ResolveError(e))
  }

  datatype Request = Request(proposalId: string, instructions: seq<Instruction>, actor: Actor, eventId: string, at: int, sourceTranche: Option<string>,
                             sourceJob: Option<JobRef>, settlement: Option<TxRef>)

  /** The reconciled tranche a proposal draws on, or None when it draws on unallocated capital. */
  function SourceTranche(c: Config, b: Books, r: Request): Result<Option<Tranche>, TreasuryError> {
    var linked := if r.sourceTranche.Some? && r.sourceTranche.value in b.tranches then Some(b.tranches[r.sourceTranche.value]) else None;
    :- Need(r.settlement.Some? ==> r.settlement.value.status.ConfirmedTx? && r.settlement.value.operationType.SettlementTx?, InvalidTransition);
    :- Need(r.sourceJob.Some? ==> r.settlement.Some?, InvalidTransition);
    :- Need(r.sourceTranche.Some? ==> r.settlement.Some?, InvalidTransition);
    :- Need(r.settlement.Some? ==> r.sourceTranche.Some?, InvalidState);
    :- Need(r.settlement.Some? ==> r.settlement.value.isMock == c.mode.Mock?, InvalidState);
    :- Need(r.settlement.Some? ==> linked.Some?, InvalidState);
    :- Need(linked.Some? ==> linked.value.state.ReconciledState?, InvalidState);
    :- Need(linked.Some? ==> r.settlement.Some? && TxFingerprint(linked.value.tx) == TxFingerprint(r.settlement.value), InvalidState);
    Success(linked)
  }

  predicate JobsAgree(c: Config, linked: Option<Tranche>, r: Request) {
    var canonical := if linked.Some? then linked.value.sourceJob else None;
    && (r.sourceJob.Some? ==> r.sourceJob.value.isMock == c.mode.Mock? && canonical.Some?)
    && JobFingerprint(canonical) == JobFingerprint(r.sourceJob)
  }

  predicate BoundTo(p: Proposal, tranche: string) {
    p.sourceTranche == Some(tranche)
  }

  predicate AlreadyBound(b: Books, tranche: string) {
    exists id :: id in b.proposals && BoundTo(b.proposals[id], tranche)
  }

  function CreateProposal(c: Config, b: Books, r: Request): Result<Books, TreasuryError> {
    var reserveIds := ReserveIds(b.reserves);
    :- Need(r.actor == c.founder, InvalidState);
    :- Need(r.eventId != "", Malformed);
    :- Need(r.eventId !in b.audit, InvalidState);
    :- Need(r.proposalId !in b.proposals, InvalidState);
    :- Need(r.sourceTranche != Some(""), Malformed);
    var linked :- SourceTranche(c, b, r);
    :- Need(JobsAgree(c, linked, r), InvalidState);
    :- Need(linked.Some? ==> !AlreadyBound(b, linked.value.id), InvalidState);
    var snapshot :- Snapshot(b);
    :- Need(linked.Some? ==> FixedTotal(r.instructions) <= linked.value.amount, TreasuryError.InsufficientAvailable);
    var shares :- Resolved(if linked.Some? then linked.value.amount else snapshot.unallocated, r.instructions, reserveIds);
    :- Need(linked.Some? ==> Sum(shares, AmountOf) <= linked.value.amount, TreasuryError.InsufficientAvailable);
    :- Need(Sum(shares, AmountOf) <= snapshot.unallocated, TreasuryError.InsufficientAvailable);
    :- Need(r.proposalId != "", Malformed);
    var p := Proposal(r.proposalId, ProposedStatus, r.instructions, shares, if linked.Some? then linked.value.sourceJob else None,
                      if linked.Some? then Some(linked.value.tx) else None, if linked.Some? then Some(linked.value.id) else None,
                      None, None, None, r.at, None, None);
    Success(b.(proposals := b.proposals[p.id := p], audit := b.audit + [r.eventId]))
  }

  /** The part of a proposal that its intent hash covers; the status and approval fields are not in it. */
  datatype Payload = Payload(projectId: string, vaultId: string, id: string, instructions: seq<Instruction>, resolved: seq<Share>,
                             sourceTranche: Option<string>, job: Option<(string, string, string, string, string, Option<string>, Option<TxStatus>)>,
                             settlement: Option<TxRef>)

  predicate InstructionLe(a: Instruction, b: Instruction) {
    if a.reserveId != b.reserveId then IdLe(a.reserveId, b.reserveId) else a.Fixed? || b.Percentage?
  }

  function JobPayload(j: JobRef): (string, string, string, string, string, Option<string>, Option<TxStatus>) {
    (j.network, j.chainId, j.contractAddress, j.jobId, j.status,
     if j.transaction.Some? then j.transaction.value.transactionHash else None, if j.transaction.Some? then Some(j.transaction.value.status) else None)
  }

  function IntentPayload(c: Config, p: Proposal): Payload {
    Payload(c.projectId, c.vaultId, p.id, Sort(p.instructions, InstructionLe), Sort(p.resolved, ShareLe), p.sourceTranche,
            if p.sourceJob.None? then None else Some(JobPayload(p.sourceJob.value)),
            if p.settlement.None? then None
            else Some(p.settlement.value.(blockNumber := None, blockHash := None, explorerUrl := None, providerOperationId := None)))
  }

  predicate FounderApproves(c: Config, a: ApprovalRecord, proposalId: string) {
    && a.aggregateId == proposalId
    && a.actionKind.ReleaseApproval?
    && a.authorizedActorType.FounderActor?
    && a.authorizedActorId == c.founder.actorId
    && a.decision.Approved?
    && a.approver.Some? && a.approver.value.actorType.FounderActor? && a.approver.value.actorId == c.founder.actorId
    && a.decidedAt.Some?
  }

  /** The approval callback up to its await: the proposal that it is about to hash. */
  function CheckApproval(c: Config, b: Books, id: string, a: ApprovalRecord, at: int): Result<Proposal, TreasuryError> {
    var known := id in b.proposals;
    :- Need(known, InvalidState);
    var current := b.proposals[id];
    :- Need(current.status.ProposedStatus?, InvalidState);
    :- Need(FounderApproves(c, a, current.id), ApprovalMismatch);
    :- Need(current.createdAt <= a.decidedAt.value <= at < a.expiresAt, InvalidState);
    Success(current)
  }

  /** The approval callback after its await, `hash` being the digest of the proposal read before it. */
  function FinishApproval(b: Books, current: Proposal, hash: string, a: ApprovalRecord, eventId: string, at: int): Result<Books, TreasuryError> {
    var same := current.id in b.proposals && b.proposals[current.id].status.ProposedStatus? && b.proposals[current.id] == current;
    :- Need(same, InvalidState);
    :- Need(a.exactIntentHash == hash, ApprovalMismatch);
    var approved := current.(status := ApprovedStatus, approvalId := Some(a.id), approvedIntentHash := Some(hash), approval := Some(a), approvedAt := Some(at));
    Success(b.(proposals := b.proposals[current.id := approved], audit := b.audit + [eventId]))
  }

  /** The application callback up to its await. */
  function CheckApplication(c: Config, b: Books, id: string, at: int): Result<Proposal, TreasuryError> {
    var known := id in b.proposals;
    :- Need(known, InvalidState);
    var current := b.proposals[id];
    :- Need(current.status.ApprovedStatus?, InvalidState);
    :- Need(current.approvalId.Some? && current.approvedIntentHash.Some? && current.approval.Some?, InvalidState);
    var a := current.approval.value;
    :- Need(FounderApproves(c, a, current.id), ApprovalMismatch);
    :- Need(a.decidedAt.value <= at < a.expiresAt, InvalidState);
    Success(current)
  }

  function IndexOf(reserves: seq<Reserve>, id: string): (r: Option<nat>)
    ensures r.Some? ==> r.value < |reserves| && reserves[r.value].id == id
    ensures r.None? ==> forall k :: 0 <= k < |reserves| ==> reserves[k].id != id
  {
    if reserves == [] then None
    else if reserves[0].id == id then Some(0)
    else
      match IndexOf(reserves[1..], id)
      case None => None
      case Some(k) => Some(k + 1)
  }

  function AddTo(reserves: seq<Reserve>, s: Share): Result<seq<Reserve>, TreasuryError> {
    match IndexOf(reserves, s.reserveId)
    case None => Failure(InvalidState)
    case Some(k) => Success(reserves[k := Reserve(reserves[k].id, reserves[k].allocation + s.amount, true)])
  }

  /** The reserves after each share has been added to its reserve in turn. */
  function AddShares(reserves: seq<Reserve>, shares: seq<Share>): Result<seq<Reserve>, TreasuryError> {
    if shares == [] then Success(reserves)
    else
      var before :- AddShares(reserves, shares[..|shares| - 1]);
      AddTo(before, shares[|shares| - 1])
  }

  function AllocationEntryOf(s: Share, proposalId: string, key: string, at: int): LedgerEntry {
    LedgerEntry("ledger:allocation:" + proposalId + ":" + s.reserveId, AllocationEntry, Some(s.reserveId), s.amount, key, at, None)
  }

  function AllocationEntries(shares: seq<Share>, proposalId: string, key: string, at: int): seq<LedgerEntry> {
    seq(|shares|, k requires 0 <= k < |shares| => AllocationEntryOf(shares[k], proposalId, key, at))
  }

  /** The application callback after its await. */
  function FinishApplication(b: Books, current: Proposal, hash: string, key: string, eventId: string, at: int): Result<Books, TreasuryError> {
    var same := current.id in b.proposals && b.proposals[current.id].status.ApprovedStatus? && b.proposals[current.id] == current;
    :- Need(same, InvalidState);
    :- Need(current.approvedIntentHash == Some(hash) && current.approval.Some? && current.approval.value.exactIntentHash == hash, ProposalAltered);
    var balances :- ComputeBalances(b.reserves, b.confirmed, b.escrowed);
    :- Need(Sum(current.resolved, AmountOf) <= balances.unallocated, TreasuryError.InsufficientAvailable);
    var reserves :- AddShares(b.reserves, current.resolved);
    :- Need(key != "", Malformed);
    var after :- ComputeBalances(reserves, b.confirmed, b.escrowed);
    Success(b.(reserves := reserves, ledger := b.ledger + AllocationEntries(current.resolved, current.id, key, at),
               proposals := b.proposals[current.id := current.(status := AppliedStatus, appliedAt := Some(at))],
               audit := b.audit + [eventId]))
  }

  // ----- incoming tranches -----

  datatype Arrival = Arrival(trancheId: string, amount: nat, tx: TxRef, sourceJob: Option<JobRef>)

  function StateOf(status: TxStatus): Result<TrancheState, TreasuryError> {
    match status
    case PreparedTx => Success(PreparedState)
    case SubmittedTx => Success(SubmittedState)
    case ConfirmedTx => Success(ConfirmedState)
    case FailedTx => Success(FailedState)
    case NoTx => Failure(InvalidTransition)
  }

  predicate Allowed(from: TrancheState, to: TrancheState) {
    match from
    case PreparedState => to != ReconciledState
    case SubmittedState => to == SubmittedState || to == ConfirmedState || to == FailedState
    case ConfirmedState => to == ConfirmedState
    case FailedState => false
    case ReconciledState => false
  }

  function HashIdentity(hash: Option<string>): Option<string> {
    if hash.None? then None else Some(Text.Lower(hash.value))
  }

  /** A job named as evidence is a completed evaluation of the same network, chain and budget. */
  predicate JobEvidence(j: JobRef, a: Arrival) {
    && j.isMock == a.tx.isMock
    && j.status == "COMPLETED" && j.transaction.Some? && j.transaction.value.status.ConfirmedTx? && j.transaction.value.operationType.JobEvaluateTx?
    && j.transaction.value.network == a.tx.network && j.transaction.value.chainId == a.tx.chainId
    && j.budget == a.amount
  }

  /** New evidence for a stored tranche moves it forward and preserves what it already fixes. */
  function CheckProgress(current: Tranche, a: Arrival, state: TrancheState): Result<TrancheState, TreasuryError> {
    var final := current.state.ReconciledState? || current.state.FailedState?;
    :- Need(!final, InvalidState);
    :- Need(current.amount == a.amount && current.tx.operationType == a.tx.operationType && current.tx.isMock == a.tx.isMock
            && current.tx.network == a.tx.network && current.tx.chainId == a.tx.chainId, InvalidState);
    :- Need(Allowed(current.state, state), InvalidTransition);
    :- Need(current.tx.status.ConfirmedTx? ==> TxFingerprint(current.tx) == TxFingerprint(a.tx), InvalidState);
    :- Need(current.tx.transactionHash.Some? ==> HashIdentity(a.tx.transactionHash) == HashIdentity(current.tx.transactionHash), InvalidState);
    :- Need(JobFingerprint(current.sourceJob) == JobFingerprint(a.sourceJob), InvalidState);
    Success(state)
  }

  /** `recordIncomingTranche` before its callback: the state that the evidence claims. */
  function CheckArrival(c: Config, b: Books, a: Arrival): Result<TrancheState, TreasuryError> {
    var settles := a.tx.operationType.SettlementTx?;
    :- Need(settles, InvalidTransition);
    var state :- StateOf(a.tx.status);
    :- Need(c.mode.Mock?, InvalidState);
    :- Need(a.tx.isMock, InvalidState);
    :- Need(a.sourceJob.Some? ==> JobEvidence(a.sourceJob.value, a), InvalidState);
    :- Need(a.trancheId !in b.tranches ==> state.PreparedState?, InvalidTransition);
    if a.trancheId in b.tranches then CheckProgress(b.tranches[a.trancheId], a, state) else Success(state)
  }

  predicate SharesHash(t: Tranche, hash: Option<string>) {
    HashIdentity(t.tx.transactionHash) == HashIdentity(hash)
  }

  predicate HashTaken(b: Books, a: Arrival) {
    a.tx.transactionHash.Some? && exists id :: id in b.tranches && id != a.trancheId && SharesHash(b.tranches[id], a.tx.transactionHash)
  }

  /** The callback of `recordIncomingTranche`. It re-reads the tranche, but only rules out the two final states. */
  function RecordArrival(b: Books, a: Arrival, state: TrancheState, key: string, eventId: string, at: int): Result<Books, TreasuryError> {
    var current := if a.trancheId in b.tranches then Some(b.tranches[a.trancheId]) else None;
    :- Need(eventId !in b.audit, InvalidState);
    :- Need(!HashTaken(b, a), InvalidState);
    :- Need(current.Some? ==> !current.value.state.ReconciledState? && !current.value.state.FailedState?, InvalidState);
    :- Need(a.trancheId != "" && key != "", Malformed);
    var t := Tranche(a.trancheId, a.amount, a.tx, a.sourceJob, state, None, if current.Some? then current.value.createdAt else at);
    Success(b.(tranches := b.tranches[a.trancheId := t], audit := b.audit + [eventId]))
  }

  function SettlementEntryOf(t: Tranche, key: string, at: int): LedgerEntry {
    LedgerEntry("ledger:tranche:" + t.id, SettlementEntry, None, t.amount, key, at, None)
  }

  /** The callback of `reconcileConfirmedTranche`. */
  function Reconcile(b: Books, id: string, key: string, eventId: string, at: int): Result<Books, TreasuryError> {
    var known := id in b.tranches;
    :- Need(known, InvalidState);
    var current := b.tranches[id];
    :- Need(current.state.ConfirmedState?, InvalidTransition);
    :- Need(current.tx.operationType.SettlementTx? && current.tx.status.ConfirmedTx?, InvalidTransition);
    var confirmed, totalCapital := b.confirmed + current.amount, b.totalCapital + current.amount;
    var after :- ComputeBalances(b.reserves, confirmed, b.escrowed);
    :- Need(key != "", Malformed);
    var ledger := b.ledger + [SettlementEntryOf(current, key, at)];
    var consistent :- IsConsistent(b.reserves, confirmed, b.escrowed, ledger, totalCapital);
    :- Need(consistent, InvalidState);
    Success(b.(confirmed := confirmed, totalCapital := totalCapital, ledger := ledger,
               tranches := b.tranches[id := current.(state := ReconciledState, reconciledAt := Some(at))],
               audit := b.audit + [eventId]))
  }

  // ----- a fresh treasury -----

  function Fresh(ids: seq<string>): seq<Reserve> {
    seq(|ids|, k requires 0 <= k < |ids| => Reserve(ids[k], 0, false))
  }

  predicate AllDistinct(ids: seq<string>) {
    forall j, k :: 0 <= j < k < |ids| ==> ids[j] != ids[k]
  }

  /** The books of a new treasury; a testnet vault must start without capital and keeps no seed entry. */
  function Open(c: Config, capital: nat, reserveIds: seq<string>, at: int): Result<Books, TreasuryError> {
    var live := c.mode.ArcTestnet?;
    :- Need(live ==> c.operator.actorType.AdapterActor?, InvalidState);
    :- Need(AllDistinct(reserveIds), InvalidState);
    :- Need(live ==> capital == 0, InvalidState);
    var ledger := if live then [] else [LedgerEntry("ledger:seed-capital", CapitalEntry, None, capital, "seed:capital", at, None)];
    Success(Books(capital, capital, 0, Fresh(reserveIds), ledger, map[], map[], ["audit:treasury-initialized"]))
  }
}
