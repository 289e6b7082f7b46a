/** What every operation keeps about proposals, the reserves they fill, and the tranches they draw on. */
module TreasuryRecords {
  import opened Wrappers
  import opened Sorting
  import opened MapSums
  import opened Allocation
  import opened Treasury
  import opened TreasuryInvariants

  // ----- the invariants -----

  function AppliedShare(id: string): Proposal -> int {
    (p: Proposal) => if p.status.AppliedStatus? then Total(p.resolved, id) else 0
  }

  /** Each reserve holds exactly what the applied proposals gave it. */
  ghost predicate ReservesAgree(b: Books) {
    && DistinctReserves(b.reserves)
    && forall k :: 0 <= k < |b.reserves| ==> b.reserves[k].allocation == MapSum(b.proposals, AppliedShare(b.reserves[k].id))
  }

  /** An approved or applied proposal carries the founder's approval of its own exact intent. */
  predicate ApprovedExactly(c: Config, h: Payload -> string, p: Proposal) {
    p.status != ProposedStatus ==>
      && p.approvalId.Some? && p.approval.Some? && FounderApproves(c, p.approval.value, p.id)
      && p.approvedIntentHash == Some(h(IntentPayload(c, p))) && p.approval.value.exactIntentHash == h(IntentPayload(c, p))
  }

  /** A proposal bound to a tranche draws on a reconciled one and stays within its amount. */
  predicate WithinTranche(tranches: map<string, Tranche>, p: Proposal) {
    p.sourceTranche.Some? ==>
      p.sourceTranche.value in tranches && tranches[p.sourceTranche.value].state.ReconciledState?
      && Sum(p.resolved, AmountOf) <= tranches[p.sourceTranche.value].amount
  }

  ghost predicate ProposalsApproved(c: Config, h: Payload -> string, b: Books) {
    forall id :: id in b.proposals ==> b.proposals[id].id == id && ApprovedExactly(c, h, b.proposals[id])
  }

  ghost predicate ProposalsFunded(b: Books) {
    && (forall id :: id in b.proposals ==> WithinTranche(b.tranches, b.proposals[id]))
    && (forall i, j :: i in b.proposals && j in b.proposals && i != j && b.proposals[i].sourceTranche.Some? ==>
          b.proposals[j].sourceTranche != b.proposals[i].sourceTranche)
  }

  function ReconciledAmount(t: Tranche): int {
    if t.state.ReconciledState? then t.amount else 0
  }

  /** Confirmed capital is the initial capital and the amounts of the reconciled tranches. */
  ghost predicate CapitalConfirmed(initial: nat, b: Books) {
    b.confirmed == initial + MapSum(b.tranches, ReconciledAmount)
  }

  ghost predicate TranchesDistinct(b: Books) {
    && (forall id :: id in b.tranches ==> b.tranches[id].id == id)
    && (forall i, j :: i in b.tranches && j in b.tranches && i != j && b.tranches[i].tx.transactionHash.Some? ==>
          !SharesHash(b.tranches[j], b.tranches[i].tx.transactionHash))
  }

  /** This entry settles this tranche. */
  predicate Settles(e: LedgerEntry, t: Tranche) {
    e.kind.SettlementEntry? && e.id == "ledger:tranche:" + t.id && e.amount == t.amount
  }

  ghost predicate Settled(ledger: seq<LedgerEntry>, t: Tranche) {
    exists k :: 0 <= k < |ledger| && Settles(ledger[k], t)
  }

  ghost predicate SettlesSome(e: LedgerEntry, tranches: map<string, Tranche>) {
    exists id :: id in tranches && tranches[id].state.ReconciledState? && Settles(e, tranches[id])
  }

  /** The settlement entries and the reconciled tranches correspond one to one. */
  ghost predicate SettledOnce(b: Books) {
    && (forall id :: id in b.tranches && b.tranches[id].state.ReconciledState? ==> Settled(b.ledger, b.tranches[id]))
    && (forall k :: 0 <= k < |b.ledger| && b.ledger[k].kind.SettlementEntry? ==> SettlesSome(b.ledger[k], b.tranches))
    && (forall j, k :: 0 <= j < k < |b.ledger| && b.ledger[j].kind.SettlementEntry? && b.ledger[k].kind.SettlementEntry? ==>
          b.ledger[j].id != b.ledger[k].id)
  }

  ghost predicate RecordsOk(c: Config, h: Payload -> string, initial: nat, b: Books) {
    && ReservesAgree(b) && ProposalsApproved(c, h, b) && ProposalsFunded(b)
    && CapitalConfirmed(initial, b) && TranchesDistinct(b) && SettledOnce(b)
  }

  // ----- operations that change neither proposals nor tranches -----

  lemma {:induction false} SettledStays(ledger: seq<LedgerEntry>, e: LedgerEntry, t: Tranche)
    requires Settled(ledger, t)
    ensures Settled(ledger + [e], t)
  {
    var k :| 0 <= k < |ledger| && Settles(ledger[k], t);
    assert Settles((ledger + [e])[k], t);
  }

  lemma {:induction false} PlainEntryKeepsSettled(b: Books, e: LedgerEntry)
    requires SettledOnce(b) && !e.kind.SettlementEntry?
    ensures SettledOnce(b.(ledger := b.ledger + [e]))
  {
    forall id | id in b.tranches && b.tranches[id].state.ReconciledState? ensures Settled(b.ledger + [e], b.tranches[id]) {
      SettledStays(b.ledger, e, b.tranches[id]);
    }
  }

  lemma {:induction false} EntriesKeepSettled(b: Books, es: seq<LedgerEntry>)
    requires SettledOnce(b) && forall k :: 0 <= k < |es| ==> !es[k].kind.SettlementEntry?
    ensures SettledOnce(b.(ledger := b.ledger + es))
    decreases |es|
  {
    if es == [] {
      assert b.ledger + es == b.ledger;
    } else {
      PlainEntryKeepsSettled(b, es[0]);
      EntriesKeepSettled(b.(ledger := b.ledger + [es[0]]), es[1..]);
      assert b.ledger + [es[0]] + es[1..] == b.ledger + es;
    }
  }

  /** Escrow operations touch neither reserves nor proposals nor tranches, and add no settlement. */
  lemma {:induction false} EscrowKeepsRecords(c: Config, h: Payload -> string, initial: nat, b: Books, after: Books, e: LedgerEntry)
    requires RecordsOk(c, h, initial, b) && !e.kind.SettlementEntry?
    requires after == b.(escrowed := after.escrowed, audit := after.audit, ledger := b.ledger + [e])
    ensures RecordsOk(c, h, initial, after)
  {
    PlainEntryKeepsSettled(b, e);
  }

  // ----- proposals -----

  /** A proposal replaced by one in another status, with the reserves unchanged. */
  lemma {:induction false} ReplacedKeepsReserves(b: Books, p: Proposal)
    requires ReservesAgree(b) && !p.status.AppliedStatus?
    requires p.id in b.proposals ==> !b.proposals[p.id].status.AppliedStatus?
    ensures ReservesAgree(b.(proposals := b.proposals[p.id := p]))
  {
    forall k | 0 <= k < |b.reserves|
      ensures b.reserves[k].allocation == MapSum(b.proposals[p.id := p], AppliedShare(b.reserves[k].id))
    {
      MapSumUpdate(b.proposals, p.id, p, AppliedShare(b.reserves[k].id));
    }
  }

  lemma {:induction false} ReplacedKeepsProposals(c: Config, h: Payload -> string, b: Books, p: Proposal)
    requires ProposalsApproved(c, h, b) && ProposalsFunded(b) && ApprovedExactly(c, h, p) && WithinTranche(b.tranches, p)
    requires if p.id in b.proposals then b.proposals[p.id].sourceTranche == p.sourceTranche
             else p.sourceTranche.Some? ==> !AlreadyBound(b, p.sourceTranche.value)
    ensures var after := b.(proposals := b.proposals[p.id := p]); ProposalsApproved(c, h, after) && ProposalsFunded(after)
  {
    assert p.id !in b.proposals && p.sourceTranche.Some? ==>
        forall id :: id in b.proposals ==> !BoundTo(b.proposals[id], p.sourceTranche.value);
  }

  /** What a created proposal looks like. */
  lemma {:induction false} CreatedProposal(c: Config, b: Books, r: Request)
    requires CreateProposal(c, b, r).Success?
    ensures r.proposalId !in b.proposals && r.proposalId in CreateProposal(c, b, r).value.proposals
    ensures var after, p := CreateProposal(c, b, r).value, CreateProposal(c, b, r).value.proposals[r.proposalId];
            && p.id == r.proposalId && p.status == ProposedStatus
            && after == b.(proposals := b.proposals[r.proposalId := p], audit := b.audit + [r.eventId])
            && SourceTranche(c, b, r).Success?
            && var linked := SourceTranche(c, b, r).value;
               && (linked.None? ==> p.sourceTranche.None?)
               && (linked.Some? ==> p.sourceTranche == Some(linked.value.id) && !AlreadyBound(b, linked.value.id)
                                    && Sum(p.resolved, AmountOf) <= linked.value.amount)
  {
  }

  lemma {:induction false} SourceTrancheIs(c: Config, b: Books, r: Request)
    requires TranchesDistinct(b) && SourceTranche(c, b, r).Success? && SourceTranche(c, b, r).value.Some?
    ensures var t := SourceTranche(c, b, r).value.value; t.id in b.tranches && b.tranches[t.id] == t && t.state.ReconciledState?
  {
  }

  lemma {:induction false} CreateKeepsRecords(c: Config, h: Payload -> string, initial: nat, b: Books, r: Request)
    requires RecordsOk(c, h, initial, b) && CreateProposal(c, b, r).Success?
    ensures RecordsOk(c, h, initial, CreateProposal(c, b, r).value)
  {
    CreatedProposal(c, b, r);
    var p := CreateProposal(c, b, r).value.proposals[r.proposalId];
    if SourceTranche(c, b, r).value.Some? { SourceTrancheIs(c, b, r); }
    ReplacedKeepsReserves(b, p);
    ReplacedKeepsProposals(c, h, b, p);
  }

  lemma {:induction false} ApprovalKeepsRecords(c: Config, h: Payload -> string, initial: nat, b: Books, current: Proposal, a: ApprovalRecord, eventId: string, at: int)
    requires RecordsOk(c, h, initial, b) && FounderApproves(c, a, current.id)
    requires FinishApproval(b, current, h(IntentPayload(c, current)), a, eventId, at).Success?
    ensures RecordsOk(c, h, initial, FinishApproval(b, current, h(IntentPayload(c, current)), a, eventId, at).value)
  {
    var hash := h(IntentPayload(c, current));
    var p := current.(status := ApprovedStatus, approvalId := Some(a.id), approvedIntentHash := Some(hash), approval := Some(a), approvedAt := Some(at));
    assert IntentPayload(c, p) == IntentPayload(c, current);
    assert WithinTranche(b.tranches, current);
    ReplacedKeepsReserves(b, p);
    ReplacedKeepsProposals(c, h, b, p);
  }

  lemma {:induction false} AppliedReservesAgree(b: Books, p: Proposal, reserves: seq<Reserve>)
    requires ReservesAgree(b) && p.status.AppliedStatus? && p.id in b.proposals && !b.proposals[p.id].status.AppliedStatus?
    requires AddShares(b.reserves, p.resolved) == Success(reserves)
    ensures ReservesAgree(b.(reserves := reserves, proposals := b.proposals[p.id := p]))
  {
    AddSharesAdds(b.reserves, p.resolved);
    forall k | 0 <= k < |reserves|
      ensures reserves[k].allocation == MapSum(b.proposals[p.id := p], AppliedShare(reserves[k].id))
    {
      MapSumUpdate(b.proposals, p.id, p, AppliedShare(reserves[k].id));
    }
  }

  lemma {:induction false} ApplicationKeepsRecords(c: Config, h: Payload -> string, initial: nat, b: Books, current: Proposal, hash: string, key: string, eventId: string, at: int)
    requires RecordsOk(c, h, initial, b) && FinishApplication(b, current, hash, key, eventId, at).Success?
    ensures RecordsOk(c, h, initial, FinishApplication(b, current, hash, key, eventId, at).value)
  {
    var p := current.(status := AppliedStatus, appliedAt := Some(at));
    assert IntentPayload(c, p) == IntentPayload(c, current);
    assert WithinTranche(b.tranches, current);
    AppliedReservesAgree(b, p, AddShares(b.reserves, p.resolved).value);
    ReplacedKeepsProposals(c, h, b, p);
    EntriesKeepSettled(b, AllocationEntries(p.resolved, p.id, key, at));
  }

  lemma {:induction false} AddSharesError(reserves: seq<Reserve>, shares: seq<Share>)
    requires AddShares(reserves, shares).Failure?
    ensures AddShares(reserves, shares).error == InvalidState
  {
    if shares != [] && AddShares(reserves, shares[..|shares| - 1]).Failure? { AddSharesError(reserves, shares[..|shares| - 1]); }
  }

  /** An approved proposal always still matches its approved intent: PROPOSAL_ALTERED is unreachable. */
  lemma {:induction false} NeverAltered(c: Config, h: Payload -> string, b: Books, current: Proposal, key: string, eventId: string, at: int)
    requires ProposalsApproved(c, h, b)
    ensures var r := FinishApplication(b, current, h(IntentPayload(c, current)), key, eventId, at);
            r != Failure(ProposalAltered) && r != Failure(ApprovalMismatch)
  {
    if AddShares(b.reserves, current.resolved).Failure? { AddSharesError(b.reserves, current.resolved); }
    if current.id in b.proposals && b.proposals[current.id] == current { assert ApprovedExactly(c, h, current); }
  }

  /** Nor does an approved proposal ever lack the founder's approval when it is applied. */
  lemma {:induction false} ApprovalNeverMissing(c: Config, h: Payload -> string, b: Books, id: string, at: int)
    requires ProposalsApproved(c, h, b) && id in b.proposals && b.proposals[id].status.ApprovedStatus?
    ensures CheckApplication(c, b, id, at).Success? <==>
            b.proposals[id].approval.Some? && b.proposals[id].approval.value.decidedAt.Some?
            && b.proposals[id].approval.value.decidedAt.value <= at < b.proposals[id].approval.value.expiresAt
    ensures CheckApplication(c, b, id, at) != Failure(ApprovalMismatch)
  {
    assert ApprovedExactly(c, h, b.proposals[id]);
  }

  // ----- tranches -----

  lemma {:induction false} ArrivalKeepsTranches(b: Books, a: Arrival, state: TrancheState, key: string, eventId: string, at: int)
    requires TranchesDistinct(b) && RecordArrival(b, a, state, key, eventId, at).Success?
    ensures TranchesDistinct(RecordArrival(b, a, state, key, eventId, at).value)
  {
    assert a.tx.transactionHash.Some? ==>
        forall id :: id in b.tranches && id != a.trancheId ==> !SharesHash(b.tranches[id], a.tx.transactionHash);
  }

  /** A settlement entry still settles a reconciled tranche when another tranche is replaced. */
  lemma {:induction false} StillSettles(e: LedgerEntry, tranches: map<string, Tranche>, id: string, t: Tranche)
    requires SettlesSome(e, tranches) && (id in tranches ==> !tranches[id].state.ReconciledState?)
    ensures SettlesSome(e, tranches[id := t])
  {
    var j :| j in tranches && tranches[j].state.ReconciledState? && Settles(e, tranches[j]);
    assert tranches[id := t][j] == tranches[j];
  }

  /** A tranche that is not reconciled is replaced by one that is not. */
  lemma {:induction false} ReplacedKeepsSettled(b: Books, id: string, t: Tranche)
    requires SettledOnce(b) && !t.state.ReconciledState? && (id in b.tranches ==> !b.tranches[id].state.ReconciledState?)
    ensures SettledOnce(b.(tranches := b.tranches[id := t]))
  {
    forall k | 0 <= k < |b.ledger| && b.ledger[k].kind.SettlementEntry? ensures SettlesSome(b.ledger[k], b.tranches[id := t]) {
      StillSettles(b.ledger[k], b.tranches, id, t);
    }
  }

  lemma {:induction false} ReplacedKeepsFunding(b: Books, id: string, t: Tranche)
    requires ProposalsFunded(b) && (id in b.tranches ==> !b.tranches[id].state.ReconciledState?)
    ensures ProposalsFunded(b.(tranches := b.tranches[id := t]))
  {
    forall p | p in b.proposals ensures WithinTranche(b.tranches[id := t], b.proposals[p]) {
      assert WithinTranche(b.tranches, b.proposals[p]);
    }
  }

  lemma {:induction false} ArrivalKeepsRecords(c: Config, h: Payload -> string, initial: nat, b: Books, a: Arrival, state: TrancheState, key: string, eventId: string, at: int)
    requires RecordsOk(c, h, initial, b) && !state.ReconciledState? && RecordArrival(b, a, state, key, eventId, at).Success?
    ensures RecordsOk(c, h, initial, RecordArrival(b, a, state, key, eventId, at).value)
  {
    var after := RecordArrival(b, a, state, key, eventId, at).value;
    var t := after.tranches[a.trancheId];
    ArrivalKeepsTranches(b, a, state, key, eventId, at);
    ReplacedKeepsSettled(b, a.trancheId, t);
    ReplacedKeepsFunding(b, a.trancheId, t);
    MapSumUpdate(b.tranches, a.trancheId, t, ReconciledAmount);
    assert after == b.(tranches := b.tranches[a.trancheId := t], audit := after.audit);
    assert !t.state.ReconciledState?;
  }

  lemma {:induction false} TrancheIdsInjective(i: string, j: string)
    requires "ledger:tranche:" + i == "ledger:tranche:" + j
    ensures i == j
  {
    assert ("ledger:tranche:" + i)[15..] == i;
    assert ("ledger:tranche:" + j)[15..] == j;
  }

  lemma {:induction false} SettledLast(ledger: seq<LedgerEntry>, e: LedgerEntry, t: Tranche)
    requires Settles(e, t)
    ensures Settled(ledger + [e], t)
  {
    assert Settles((ledger + [e])[|ledger|], t);
  }

  /** The settlement entry of a newly reconciled tranche is its first. */
  lemma {:induction false} ReconcileSettles(b: Books, id: string, t: Tranche, e: LedgerEntry)
    requires SettledOnce(b) && TranchesDistinct(b) && id in b.tranches && !b.tranches[id].state.ReconciledState?
    requires t.state.ReconciledState? && t.id == id && Settles(e, t)
    ensures SettledOnce(b.(ledger := b.ledger + [e], tranches := b.tranches[id := t]))
  {
    var ledger, tranches := b.ledger + [e], b.tranches[id := t];
    forall j | j in tranches && tranches[j].state.ReconciledState? ensures Settled(ledger, tranches[j]) {
      if j == id { SettledLast(b.ledger, e, t); } else { SettledStays(b.ledger, e, b.tranches[j]); }
    }
    forall k | 0 <= k < |ledger| && ledger[k].kind.SettlementEntry? ensures SettlesSome(ledger[k], tranches) {
      if k < |b.ledger| { StillSettles(b.ledger[k], b.tranches, id, t); } else { assert Settles(ledger[k], tranches[id]); }
    }
    NotYetSettled(b, id, e);
  }

  lemma {:induction false} NotYetSettled(b: Books, id: string, e: LedgerEntry)
    requires SettledOnce(b) && TranchesDistinct(b) && id in b.tranches && !b.tranches[id].state.ReconciledState?
    requires e.id == "ledger:tranche:" + id
    ensures forall k :: 0 <= k < |b.ledger| && b.ledger[k].kind.SettlementEntry? ==> b.ledger[k].id != e.id
  {
    forall k | 0 <= k < |b.ledger| && b.ledger[k].kind.SettlementEntry? ensures b.ledger[k].id != e.id {
      var j :| j in b.tranches && b.tranches[j].state.ReconciledState? && Settles(b.ledger[k], b.tranches[j]);
      if b.ledger[k].id == e.id { TrancheIdsInjective(j, id); }
    }
  }

  /** Crediting one more tranche, with its settlement entry. */
  function Credited(b: Books, id: string, t: Tranche, e: LedgerEntry): Books
    requires id in b.tranches
  {
    b.(confirmed := b.confirmed + t.amount, ledger := b.ledger + [e], tranches := b.tranches[id := t])
  }

  lemma {:induction false} CreditingKeepsRecords(c: Config, h: Payload -> string, initial: nat, b: Books, id: string, t: Tranche, e: LedgerEntry)
    requires RecordsOk(c, h, initial, b) && id in b.tranches && !b.tranches[id].state.ReconciledState?
    requires t == b.tranches[id].(state := ReconciledState, reconciledAt := t.reconciledAt) && Settles(e, t)
    ensures RecordsOk(c, h, initial, Credited(b, id, t, e))
  {
    ReconcileSettles(b, id, t, e);
    ReplacedKeepsFunding(b, id, t);
    MapSumUpdate(b.tranches, id, t, ReconciledAmount);
  }

  lemma {:induction false} ReconcileCredits(b: Books, id: string, key: string, eventId: string, at: int)
    requires Reconcile(b, id, key, eventId, at).Success?
    ensures var after := Reconcile(b, id, key, eventId, at).value;
            && id in b.tranches && b.tranches[id].state.ConfirmedState?
            && var t := b.tranches[id].(state := ReconciledState, reconciledAt := Some(at));
            && after == Credited(b, id, t, SettlementEntryOf(b.tranches[id], key, at)).(totalCapital := after.totalCapital, audit := after.audit)
  {
  }

  lemma {:induction false} ReconcileKeepsRecords(c: Config, h: Payload -> string, initial: nat, b: Books, id: string, key: string, eventId: string, at: int)
    requires RecordsOk(c, h, initial, b) && Reconcile(b, id, key, eventId, at).Success?
    ensures RecordsOk(c, h, initial, Reconcile(b, id, key, eventId, at).value)
  {
    ReconcileCredits(b, id, key, eventId, at);
    var e := SettlementEntryOf(b.tranches[id], key, at);
    var t := b.tranches[id].(state := ReconciledState, reconciledAt := Some(at));
    assert b.tranches[id].id == id;
    CreditingKeepsRecords(c, h, initial, b, id, t, e);
    TotalIgnored(c, h, initial, Credited(b, id, t, e), Reconcile(b, id, key, eventId, at).value);
  }

  lemma {:induction false} TotalIgnored(c: Config, h: Payload -> string, initial: nat, b: Books, d: Books)
    requires RecordsOk(c, h, initial, b) && d == b.(totalCapital := d.totalCapital, audit := d.audit)
    ensures RecordsOk(c, h, initial, d)
  {
  }
}
