/**
 The treasury object. Its methods update the fields in place as the callbacks of the treasury specification say, and keep
 its balances, ledger, reserves, proposals and tranches in agreement.
 */
module LaunchVault {
  import opened Wrappers
  import opened Sorting
  import opened Allocation
  import opened Treasury
  import opened TreasuryInvariants
  import opened TreasuryRecords
  import opened TreasuryOperations

  /** A callback returned, leaving the specified books, or threw, leaving the books as they were. */
  predicate Effected(before: Books, after: Books, spec: Result<Books, TreasuryError>, r: Result<(), TreasuryError>) {
    match spec
    case Success(b) => r.Success? && after == b
    case Failure(e) => r == Failure(e) && after == before
  }

  // ----- what the callbacks achieve on books that agree -----

  lemma {:induction false} CreationResult(c: Config, h: Payload -> string, initial: nat, b: Books, r: Request)
    requires TreasuryInv(c, h, initial, b)
    ensures CreateProposal(c, b, r).Success? ==>
              var after := CreateProposal(c, b, r).value;
              && TreasuryInv(c, h, initial, after) && r.proposalId in after.proposals
              && after == b.(proposals := b.proposals[r.proposalId := after.proposals[r.proposalId]], audit := after.audit)
              && after.proposals[r.proposalId].status.ProposedStatus?
              && Allocated(b.reserves) + b.escrowed + Sum(after.proposals[r.proposalId].resolved, AmountOf) <= b.confirmed
              && WithinTranche(b.tranches, after.proposals[r.proposalId])
  {
    if CreateProposal(c, b, r).Success? {
      CreatedProposal(c, b, r);
      CreateStepKeepsInv(c, h, initial, b, r);
      SnapshotNeverThrows(b);
      CreatedFits(c, b, r);
      assert WithinTranche(b.tranches, CreateProposal(c, b, r).value.proposals[r.proposalId]);
    }
  }

  lemma {:induction false} CreatedFits(c: Config, b: Books, r: Request)
    requires CreateProposal(c, b, r).Success?
    ensures Snapshot(b).Success? && r.proposalId in CreateProposal(c, b, r).value.proposals
    ensures Sum(CreateProposal(c, b, r).value.proposals[r.proposalId].resolved, AmountOf) <= Snapshot(b).value.unallocated
  {
    var linked := SourceTranche(c, b, r).value;
    var snapshot := Snapshot(b).value;
    var shares := Resolved(if linked.Some? then linked.value.amount else snapshot.unallocated, r.instructions, ReserveIds(b.reserves)).value;
    assert CreateProposal(c, b, r).value.proposals[r.proposalId].resolved == shares;
  }

  lemma {:induction false} ApplicationResult(c: Config, h: Payload -> string, initial: nat, b: Books, current: Proposal, key: string, eventId: string, at: int)
    requires TreasuryInv(c, h, initial, b)
    ensures var r := FinishApplication(b, current, h(IntentPayload(c, current)), key, eventId, at);
            && r != Failure(ProposalAltered) && r != Failure(ApprovalMismatch)
            && (r.Success? ==>
                  && TreasuryInv(c, h, initial, r.value) && current.id in b.proposals && b.proposals[current.id] == current && current.status.ApprovedStatus?
                  && SameIds(b.reserves, r.value.reserves)
                  && (forall k :: 0 <= k < |b.reserves| ==> r.value.reserves[k].allocation == b.reserves[k].allocation + Total(current.resolved, b.reserves[k].id)))
  {
    var hash := h(IntentPayload(c, current));
    NeverAltered(c, h, b, current, key, eventId, at);
    if FinishApplication(b, current, hash, key, eventId, at).Success? {
      ApplicationStepKeepsInv(c, h, initial, b, current, hash, key, eventId, at);
      AddSharesAdds(b.reserves, current.resolved);
    }
  }

  lemma {:induction false} ArrivalResult(c: Config, h: Payload -> string, initial: nat, b: Books, a: Arrival, state: TrancheState, key: string, eventId: string, at: int)
    requires TreasuryInv(c, h, initial, b) && !state.ReconciledState?
    ensures RecordArrival(b, a, state, key, eventId, at).Success? ==>
              var after := RecordArrival(b, a, state, key, eventId, at).value;
              && TreasuryInv(c, h, initial, after) && NoOtherShares(after.tranches, a)
  {
    if RecordArrival(b, a, state, key, eventId, at).Success? {
      ArrivalStepKeepsInv(c, h, initial, b, a, state, key, eventId, at);
      NotTaken(b, a);
    }
  }

  /** No other tranche has the transaction hash of this evidence. */
  predicate NoOtherShares(tranches: map<string, Tranche>, a: Arrival) {
    a.tx.transactionHash.Some? ==> forall id :: id in tranches && id != a.trancheId ==> !SharesHash(tranches[id], a.tx.transactionHash)
  }

  lemma {:induction false} NotTaken(b: Books, a: Arrival)
    requires !HashTaken(b, a)
    ensures NoOtherShares(b.tranches, a)
  {
  }

  lemma {:induction false} ReconcileResult(c: Config, h: Payload -> string, initial: nat, b: Books, id: string, key: string, eventId: string, at: int)
    requires TreasuryInv(c, h, initial, b)
    ensures Reconcile(b, id, key, eventId, at).Success? <==>
            id in b.tranches && b.tranches[id].state.ConfirmedState? && key != ""
            && b.tranches[id].tx.operationType.SettlementTx? && b.tranches[id].tx.status.ConfirmedTx?
    ensures Reconcile(b, id, key, eventId, at).Success? ==> TreasuryInv(c, h, initial, Reconcile(b, id, key, eventId, at).value)
  {
    ReconcileRefusals(b, id, key, eventId, at);
    if Reconcile(b, id, key, eventId, at).Success? { ReconcileStepKeepsInv(c, h, initial, b, id, key, eventId, at); }
  }

  class LaunchVaultTreasury {
    const config: Config
    /** The hash of a proposal's intent. */
    const digest: Payload -> string
    /** The capital that the treasury was opened with. */
    ghost const opening: nat
    var totalCapital: nat
    var confirmed: nat
    var escrowed: nat
    var reserves: seq<Reserve>
    var ledger: seq<LedgerEntry>
    var proposals: map<string, Proposal>
    var tranches: map<string, Tranche>
    var audit: seq<string>

    function State(): Books
      reads this
    {
      Books(totalCapital, confirmed, escrowed, reserves, ledger, proposals, tranches, audit)
    }

    ghost predicate Valid()
      reads this
    {
      TreasuryInv(config, digest, opening, State())
    }

    constructor (config: Config, digest: Payload -> string, capital: nat, reserveIds: seq<string>, at: int)
      requires Open(config, capital, reserveIds, at).Success?
      ensures Valid() && this.config == config && this.digest == digest && opening == capital
      ensures State() == Open(config, capital, reserveIds, at).value
    {
      this.config, this.digest, opening := config, digest, capital;
      totalCapital, confirmed, escrowed := capital, capital, 0;
      reserves := Fresh(reserveIds);
      ledger := if config.mode.ArcTestnet? then []
                else [LedgerEntry("ledger:seed-capital", CapitalEntry, None, capital, "seed:capital", at, None)];
      proposals, tranches := map[], map[];
      audit := ["audit:treasury-initialized"];
      new;
      OpenEstablishesInv(config, digest, capital, reserveIds, at);
    }

    /** `#computeBalances`. */
    static method BalancesOf(reserves: seq<Reserve>, confirmed: nat, escrowed: nat) returns (r: Result<Balances, TreasuryError>)
      ensures r == ComputeBalances(reserves, confirmed, escrowed)
    {
      var total: nat := 0;
      for k := 0 to |reserves|
        invariant total == Sum(reserves[..k], AllocatedOf)
      {
        assert reserves[..k + 1] == reserves[..k] + [reserves[k]];
        SumOne(reserves[..k], reserves[k], AllocatedOf);
        total := total + reserves[k].allocation;
      }
      assert reserves[..|reserves|] == reserves;
      if total + escrowed > confirmed { return Failure(Underflow); }
      return Success(Balances(confirmed, escrowed, confirmed - escrowed, total, confirmed - escrowed - total));
    }

    /** The totals that the ledger stands for, in one pass over its entries. */
    static method LedgerTotals(ledger: seq<LedgerEntry>) returns (confirmedTotal: int, escrowedTotal: int, allocatedTotal: int)
      ensures confirmedTotal == Sum(ledger, ConfirmedOf) && escrowedTotal == Sum(ledger, EscrowedOf) && allocatedTotal == Sum(ledger, AllocationOf)
    {
      confirmedTotal, escrowedTotal, allocatedTotal := 0, 0, 0;
      for k := 0 to |ledger|
        invariant confirmedTotal == Sum(ledger[..k], ConfirmedOf)
        invariant escrowedTotal == Sum(ledger[..k], EscrowedOf)
        invariant allocatedTotal == Sum(ledger[..k], AllocationOf)
      {
        var e := ledger[k];
        assert ledger[..k + 1] == ledger[..k] + [e];
        SumOne(ledger[..k], e, ConfirmedOf);
        SumOne(ledger[..k], e, EscrowedOf);
        SumOne(ledger[..k], e, AllocationOf);
        if e.kind.CapitalEntry? || e.kind.SettlementEntry? { confirmedTotal := confirmedTotal + e.amount; }
        if e.kind.RefundEntry? { confirmedTotal := confirmedTotal - e.amount; }
        if e.kind.CommitmentEntry? { escrowedTotal := escrowedTotal + e.amount; }
        if e.kind.ReversalEntry? { escrowedTotal := escrowedTotal - e.amount; }
        if e.kind.AllocationEntry? { allocatedTotal := allocatedTotal + e.amount; }
      }
      assert ledger[..|ledger|] == ledger;
    }

    /** `#deriveLedgerReconciliationInvariant`, reduced to its verdict. */
    static method Reconciles(reserves: seq<Reserve>, confirmed: nat, escrowed: nat, ledger: seq<LedgerEntry>, totalCapital: nat)
      returns (r: Result<bool, TreasuryError>)
      ensures r == IsConsistent(reserves, confirmed, escrowed, ledger, totalCapital)
    {
      var c, e, a := LedgerTotals(ledger);
      var balances := BalancesOf(reserves, confirmed, escrowed);
      r := Consistency(c, e, a, totalCapital, balances);
    }

    method ComputeSnapshot() returns (r: Result<Balances, TreasuryError>)
      ensures r == Snapshot(State())
    {
      var balances :- BalancesOf(reserves, confirmed, escrowed);
      var consistent :- Reconciles(reserves, confirmed, escrowed, ledger, totalCapital);
      if !consistent { return Failure(InvalidState); }
      return Success(balances);
    }

    /** It never throws, and what it shows adds up. */
    method GetSnapshot() returns (r: Result<Balances, TreasuryError>)
      requires Valid()
      ensures r.Success? && r.value.confirmed == confirmed && r.value.escrowed == escrowed
      ensures r.value.escrowed + r.value.allocation + r.value.unallocated == confirmed
    {
      SnapshotNeverThrows(State());
      r := ComputeSnapshot();
    }

    /** The amount of a commitment that the ledger has reversed so far. */
    static method ReversedAmount(ledger: seq<LedgerEntry>, id: string) returns (total: nat)
      ensures total == Reversed(ledger, id)
    {
      total := 0;
      for k := 0 to |ledger|
        invariant total == Sum(ledger[..k], ReversalOf(id))
      {
        assert ledger[..k + 1] == ledger[..k] + [ledger[k]];
        SumOne(ledger[..k], ledger[k], ReversalOf(id));
        if ledger[k].kind.ReversalEntry? && ledger[k].reversesEntryId == Some(id) { total := total + ledger[k].amount; }
      }
      assert ledger[..|ledger|] == ledger;
    }

    /** It is refused only for a used event, an empty key, or capital that is not unallocated. */
    method RecordEscrowedCapital(amount: nat, key: string, eventId: string, at: int) returns (r: Result<(), TreasuryError>)
      requires Valid()
      modifies this
      ensures Valid()
      ensures Effected(old(State()), State(), RecordEscrow(old(State()), amount, key, eventId, at), r)
      ensures r.Success? <==> key != "" && old(eventId !in audit && FindEntry(ledger, "ledger:escrow:" + eventId).None?
                                               && Allocated(reserves) + escrowed + amount <= confirmed)
      ensures r.Success? ==> escrowed == old(escrowed) + amount
    {
      ghost var before := State();
      var ledgerId := "ledger:escrow:" + eventId;
      if eventId in audit { return Failure(InvalidState); }
      if FindEntry(ledger, ledgerId).Some? { return Failure(InvalidState); }
      var now := BalancesOf(reserves, confirmed, escrowed);
      match now {
        case Failure(e) => return Failure(e);
        case Success(balances) => if balances.allocation + escrowed + amount > confirmed { return Failure(Underflow); }
      }
      var after := BalancesOf(reserves, confirmed, escrowed + amount);
      assert after.Success?;
      if key == "" { return Failure(Malformed); }
      escrowed := escrowed + amount;
      ledger := ledger + [LedgerEntry(ledgerId, CommitmentEntry, None, amount, key, at, None)];
      audit := audit + [eventId];
      EscrowStepKeepsInv(config, digest, opening, before, amount, key, eventId, at);
      return Success(());
    }

    /** It is refused only for a used event, an empty key, or an amount that exceeds what is still held of the commitment. */
    method ReleaseEscrowedCapital(amount: nat, key: string, eventId: string, at: int, target: string) returns (r: Result<(), TreasuryError>)
      requires Valid()
      modifies this
      ensures Valid()
      ensures Effected(old(State()), State(), ReleaseEscrow(old(State()), amount, key, eventId, at, target), r)
      ensures r.Success? <==> key != "" && old(eventId !in audit && FindEntry(ledger, "ledger:escrow-release:" + eventId).None?
                                               && FindEntry(ledger, target).Some? && FindEntry(ledger, target).value.kind.CommitmentEntry?
                                               && Reversed(ledger, target) + amount <= FindEntry(ledger, target).value.amount)
      ensures r.Success? ==> amount <= old(escrowed) && escrowed == old(escrowed) - amount
    {
      ghost var before := State();
      var ledgerId := "ledger:escrow-release:" + eventId;
      if eventId in audit { return Failure(InvalidState); }
      if FindEntry(ledger, ledgerId).Some? { return Failure(InvalidState); }
      var commitment := FindEntry(ledger, target);
      if amount > escrowed {
        if commitment.Some? && commitment.value.kind.CommitmentEntry? && Reversed(ledger, target) + amount <= commitment.value.amount {
          CommitmentGuardSuffices(before, amount, target);
        }
        return Failure(Underflow);
      }
      if commitment.None? || !commitment.value.kind.CommitmentEntry? { return Failure(InvalidTransition); }
      var already := ReversedAmount(ledger, target);
      if already + amount > commitment.value.amount { return Failure(Underflow); }
      if key == "" { return Failure(Malformed); }
      var after := BalancesOf(reserves, confirmed, escrowed - amount);
      match after {
        case Failure(e) => return Failure(e);
        case Success(_) =>
      }
      escrowed := escrowed - amount;
      ledger := ledger + [LedgerEntry(ledgerId, ReversalEntry, None, amount, key, at, Some(target))];
      audit := audit + [eventId];
      ReleaseStepKeepsInv(config, digest, opening, before, amount, key, eventId, at, target);
      return Success(());
    }

    /** The proposal that a request leads to, with every check made before anything is changed. */
    method PrepareProposal(request: Request) returns (r: Result<Proposal, TreasuryError>)
      ensures match CreateProposal(config, State(), request)
              case Success(b) => r.Success? && b == State().(proposals := proposals[request.proposalId := r.value], audit := audit + [request.eventId])
              case Failure(e) => r == Failure(e)
    {
      if request.actor != config.founder { return Failure(InvalidState); }
      if request.eventId == "" { return Failure(Malformed); }
      if request.eventId in audit || request.proposalId in proposals { return Failure(InvalidState); }
      if request.sourceTranche == Some("") { return Failure(Malformed); }
      var linked :- SourceTranche(config, State(), request);
      if !JobsAgree(config, linked, request) { return Failure(InvalidState); }
      if linked.Some? && AlreadyBound(State(), linked.value.id) { return Failure(InvalidState); }
      var snapshot :- ComputeSnapshot();
      if linked.Some? && FixedTotal(request.instructions) > linked.value.amount { return Failure(TreasuryError.InsufficientAvailable); }
      var resolved := ResolveAllocations(if linked.Some? then linked.value.amount else snapshot.unallocated, request.instructions, ReserveIds(reserves));
      if resolved.Failure? { return Failure(ResolveError(resolved.error)); }
      var total := Sum(resolved.value, AmountOf);
      if linked.Some? && total > linked.value.amount { return Failure(TreasuryError.InsufficientAvailable); }
      if total > snapshot.unallocated { return Failure(TreasuryError.InsufficientAvailable); }
      if request.proposalId == "" { return Failure(Malformed); }
      return Success(Proposal(request.proposalId, ProposedStatus, request.instructions, resolved.value,
                              if linked.Some? then linked.value.sourceJob else None, if linked.Some? then Some(linked.value.tx) else None,
                              if linked.Some? then Some(linked.value.id) else None, None, None, None, request.at, None, None));
    }

    /** A new proposal takes nothing yet, and its shares fit into the unallocated capital and into its source tranche. */
    method CreateAllocationProposal(request: Request) returns (r: Result<(), TreasuryError>)
      requires Valid()
      modifies this
      ensures Valid() && SameCapital(old(State()))
      ensures Effected(old(State()), State(), CreateProposal(config, old(State()), request), r)
      ensures r.Success? ==> request.proposalId in proposals && proposals == old(proposals)[request.proposalId := proposals[request.proposalId]]
      ensures r.Success? ==> var p := proposals[request.proposalId];
                p.status.ProposedStatus? && Allocated(reserves) + escrowed + Sum(p.resolved, AmountOf) <= confirmed && WithinTranche(tranches, p)
    {
      CreationResult(config, digest, opening, State(), request);
      var p :- PrepareProposal(request);
      proposals := proposals[request.proposalId := p];
      audit := audit + [request.eventId];
      return Success(());
    }

    /** Capital, reserves, ledger and tranches are as in the given books. */
    predicate SameCapital(b: Books)
      reads this
    {
      && totalCapital == b.totalCapital && confirmed == b.confirmed && escrowed == b.escrowed && reserves == b.reserves
      && ledger == b.ledger && tranches == b.tranches
    }

    /**
     The end of `approveAllocationProposal`, after its await. It records the founder's approval exactly when the proposal is
     still the one that was hashed and the approval is for that hash, and the stored proposal then has that very intent.
     */
    method RecordApproval(current: Proposal, a: ApprovalRecord, eventId: string, at: int) returns (r: Result<(), TreasuryError>)
      requires Valid() && FounderApproves(config, a, current.id)
      modifies this
      ensures Valid() && SameCapital(old(State()))
      ensures Effected(old(State()), State(), FinishApproval(old(State()), current, digest(IntentPayload(config, current)), a, eventId, at), r)
      ensures r.Success? <==> old(current.id in proposals && proposals[current.id] == current) && current.status.ProposedStatus?
                              && a.exactIntentHash == digest(IntentPayload(config, current))
      ensures r.Success? ==> current.id in proposals && proposals == old(proposals)[current.id := proposals[current.id]]
      ensures r.Success? ==> var p := proposals[current.id];
                p.status.ApprovedStatus? && p.resolved == current.resolved && p.approval == Some(a)
                && p.approvedIntentHash == Some(digest(IntentPayload(config, p)))
    {
      ghost var before := State();
      var hash := digest(IntentPayload(config, current));
      if current.id !in proposals || !proposals[current.id].status.ProposedStatus? || proposals[current.id] != current { return Failure(InvalidState); }
      if a.exactIntentHash != hash { return Failure(ApprovalMismatch); }
      var approved := current.(status := ApprovedStatus, approvalId := Some(a.id), approvedIntentHash := Some(hash), approval := Some(a), approvedAt := Some(at));
      proposals := proposals[current.id := approved];
      audit := audit + [eventId];
      ApprovalStepKeepsInv(config, digest, opening, before, current, a, eventId, at);
      return Success(());
    }

    /** The reserves and ledger entries that the shares of a proposal lead to, one share at a time. */
    static method Distribute(reserves: seq<Reserve>, shares: seq<Share>, proposalId: string, key: string, at: int)
      returns (r: Result<seq<Reserve>, TreasuryError>, entries: seq<LedgerEntry>)
      ensures r == AddShares(reserves, shares)
      ensures r.Success? ==> entries == AllocationEntries(shares, proposalId, key, at)
    {
      var next := reserves;
      entries := [];
      for k := 0 to |shares|
        invariant AddShares(reserves, shares[..k]) == Success(next)
        invariant entries == AllocationEntries(shares[..k], proposalId, key, at)
      {
        assert shares[..k + 1][..k] == shares[..k];
        var index := IndexOf(next, shares[k].reserveId);
        if index.None? {
          AddSharesStops(reserves, shares, k + 1);
          return Failure(InvalidState), entries;
        }
        var i := index.value;
        next := next[i := Reserve(next[i].id, next[i].allocation + shares[k].amount, true)];
        entries := entries + [AllocationEntryOf(shares[k], proposalId, key, at)];
      }
      assert shares[..|shares|] == shares;
      r := Success(next);
    }

    static lemma {:induction false} AddSharesStops(reserves: seq<Reserve>, shares: seq<Share>, k: nat)
      requires k <= |shares| && AddShares(reserves, shares[..k]) == Failure(InvalidState)
      ensures AddShares(reserves, shares) == Failure(InvalidState)
      decreases |shares|
    {
      if k < |shares| {
        assert shares[..|shares| - 1][..k] == shares[..k];
        AddSharesStops(reserves, shares[..|shares| - 1], k);
      } else {
        assert shares[..k] == shares;
      }
    }

    /** The reserves and ledger entries of an application, with every check made before anything is changed. */
    method PrepareApplication(current: Proposal, hash: string, key: string, eventId: string, at: int)
      returns (r: Result<seq<Reserve>, TreasuryError>, entries: seq<LedgerEntry>)
      ensures match FinishApplication(State(), current, hash, key, eventId, at)
              case Success(b) =>
                r.Success?
                && b == State().(reserves := r.value, ledger := ledger + entries, audit := audit + [eventId],
                                 proposals := proposals[current.id := current.(status := AppliedStatus, appliedAt := Some(at))])
              case Failure(e) => r == Failure(e)
    {
      entries := [];
      if current.id !in proposals || !proposals[current.id].status.ApprovedStatus? || proposals[current.id] != current {
        return Failure(InvalidState), entries;
      }
      if current.approvedIntentHash != Some(hash) || current.approval.None? || current.approval.value.exactIntentHash != hash {
        return Failure(ProposalAltered), entries;
      }
      var balances := BalancesOf(reserves, confirmed, escrowed);
      if balances.Failure? { return Failure(balances.error), entries; }
      if Sum(current.resolved, AmountOf) > balances.value.unallocated { return Failure(TreasuryError.InsufficientAvailable), entries; }
      r, entries := Distribute(reserves, current.resolved, current.id, key, at);
      if r.Failure? { return; }
      if key == "" { return Failure(Malformed), entries; }
      var after := BalancesOf(r.value, confirmed, escrowed);
      if after.Failure? { return Failure(after.error), entries; }
    }

    /**
     The end of `applyApprovedProposal`, after its await. It never finds the proposal altered, and each reserve receives
     exactly its shares.
     */
    method RecordApplication(current: Proposal, key: string, eventId: string, at: int) returns (r: Result<(), TreasuryError>)
      requires Valid()
      modifies this
      ensures Valid()
      ensures Effected(old(State()), State(), FinishApplication(old(State()), current, digest(IntentPayload(config, current)), key, eventId, at), r)
      ensures r != Failure(ProposalAltered) && r != Failure(ApprovalMismatch)
      ensures r.Success? ==> old(current.id in proposals && proposals[current.id] == current) && current.status.ApprovedStatus?
      ensures r.Success? ==> SameIds(old(reserves), reserves)
                             && forall k :: 0 <= k < |reserves| ==>
                                  reserves[k].allocation == old(reserves)[k].allocation + Total(current.resolved, old(reserves)[k].id)
      ensures confirmed == old(confirmed) && escrowed == old(escrowed) && tranches == old(tranches)
    {
      ApplicationResult(config, digest, opening, State(), current, key, eventId, at);
      var next, entries := PrepareApplication(current, digest(IntentPayload(config, current)), key, eventId, at);
      if next.Failure? { return Failure(next.error); }
      ghost var after := FinishApplication(State(), current, digest(IntentPayload(config, current)), key, eventId, at).value;
      reserves := next.value;
      ledger := ledger + entries;
      proposals := proposals[current.id := current.(status := AppliedStatus, appliedAt := Some(at))];
      audit := audit + [eventId];
      assert State() == after;
      return Success(());
    }

    /**
     The callback of `recordIncomingTranche`, `state` being what its earlier checks concluded. It credits nothing, never
     touches a reconciled or failed tranche, and never lets two tranches share a transaction hash.
     */
    method RecordIncomingTranche(a: Arrival, state: TrancheState, key: string, eventId: string, at: int) returns (r: Result<(), TreasuryError>)
      requires Valid() && !state.ReconciledState?
      modifies this
      ensures Valid()
      ensures Effected(old(State()), State(), RecordArrival(old(State()), a, state, key, eventId, at), r)
      ensures confirmed == old(confirmed) && escrowed == old(escrowed) && totalCapital == old(totalCapital) && reserves == old(reserves)
      ensures ledger == old(ledger) && proposals == old(proposals)
      ensures forall id :: id in old(tranches) && (id != a.trancheId || old(tranches)[id].state.ReconciledState? || old(tranches)[id].state.FailedState?) ==>
                id in tranches && tranches[id] == old(tranches)[id]
      ensures r.Success? ==> a.trancheId in tranches && tranches[a.trancheId].state == state && tranches[a.trancheId].tx == a.tx
                             && NoOtherShares(tranches, a)
    {
      ArrivalResult(config, digest, opening, State(), a, state, key, eventId, at);
      ghost var spec := RecordArrival(State(), a, state, key, eventId, at);
      if eventId in audit || HashTaken(State(), a) { return Failure(InvalidState); }
      var createdAt := at;
      if a.trancheId in tranches {
        var current := tranches[a.trancheId];
        if current.state.ReconciledState? || current.state.FailedState? { return Failure(InvalidState); }
        createdAt := current.createdAt;
      }
      if a.trancheId == "" || key == "" { return Failure(Malformed); }
      tranches := tranches[a.trancheId := Tranche(a.trancheId, a.amount, a.tx, a.sourceJob, state, None, createdAt)];
      audit := audit + [eventId];
      assert spec == Success(State());
      return Success(());
    }

    /** The settlement entry of a reconciliation, with every check made before anything is changed. */
    method PrepareReconciliation(id: string, key: string, eventId: string, at: int) returns (r: Result<LedgerEntry, TreasuryError>)
      ensures match Reconcile(State(), id, key, eventId, at)
              case Success(b) =>
                && r.Success? && id in tranches
                && b == State().(confirmed := confirmed + tranches[id].amount, totalCapital := totalCapital + tranches[id].amount,
                                 ledger := ledger + [r.value], audit := audit + [eventId],
                                 tranches := tranches[id := tranches[id].(state := ReconciledState, reconciledAt := Some(at))])
              case Failure(e) => r == Failure(e)
    {
      if id !in tranches { return Failure(InvalidState); }
      var current := tranches[id];
      if !current.state.ConfirmedState? { return Failure(InvalidTransition); }
      if !current.tx.operationType.SettlementTx? || !current.tx.status.ConfirmedTx? { return Failure(InvalidTransition); }
      var after :- BalancesOf(reserves, confirmed + current.amount, escrowed);
      if key == "" { return Failure(Malformed); }
      var entry := SettlementEntryOf(current, key, at);
      var consistent :- Reconciles(reserves, confirmed + current.amount, escrowed, ledger + [entry], totalCapital + current.amount);
      if !consistent { return Failure(InvalidState); }
      return Success(entry);
    }

    /** It credits the tranche's amount once, exactly when the tranche is a CONFIRMED settlement; the consistency check never fails. */
    method ReconcileConfirmedTranche(id: string, key: string, eventId: string, at: int) returns (r: Result<(), TreasuryError>)
      requires Valid()
      modifies this
      ensures Valid()
      ensures Effected(old(State()), State(), Reconcile(old(State()), id, key, eventId, at), r)
      ensures r.Success? <==> key != "" && old(id in tranches && tranches[id].state.ConfirmedState? && tranches[id].tx.operationType.SettlementTx?
                                               && tranches[id].tx.status.ConfirmedTx?)
      ensures r.Success? ==> id in tranches && tranches[id].state.ReconciledState? && confirmed == old(confirmed) + tranches[id].amount
    {
      ReconcileResult(config, digest, opening, State(), id, key, eventId, at);
      var entry :- PrepareReconciliation(id, key, eventId, at);
      ghost var after := Reconcile(State(), id, key, eventId, at).value;
      var amount := tranches[id].amount;
      confirmed := confirmed + amount;
      totalCapital := totalCapital + amount;
      tranches := tranches[id := tranches[id].(state := ReconciledState, reconciledAt := Some(at))];
      ledger := ledger + [entry];
      audit := audit + [eventId];
      assert State() == after;
      return Success(());
    }
  }
}
