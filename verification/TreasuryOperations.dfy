/** The invariant of the books, and that opening a treasury establishes it and every operation keeps it. */
module TreasuryOperations {
  import opened Wrappers
  import opened Sorting
  import opened Treasury
  import opened TreasuryInvariants
  import opened TreasuryRecords

  ghost predicate TreasuryInv(c: Config, h: Payload -> string, initial: nat, b: Books) {
    BalancesAgree(b) && EscrowConserved(b) && RecordsOk(c, h, initial, b)
  }

  lemma {:induction false} FreshAddsUp(ids: seq<string>)
    ensures Allocated(Fresh(ids)) == 0
  {
    if ids != [] {
      FreshAddsUp(ids[1..]);
      assert Fresh(ids)[1..] == Fresh(ids[1..]);
    }
  }

  lemma {:induction false} SumOfOne<T>(x: T, w: T -> int)
    ensures Sum([x], w) == w(x)
  {
    SumOne([], x, w);
    assert [] + [x] == [x];
  }

  lemma {:induction false} OpenBalances(c: Config, initial: nat, ids: seq<string>, at: int)
    requires Open(c, initial, ids, at).Success?
    ensures BalancesAgree(Open(c, initial, ids, at).value) && EscrowConserved(Open(c, initial, ids, at).value)
  {
    var b := Open(c, initial, ids, at).value;
    FreshAddsUp(ids);
    if b.ledger != [] {
      SumOfOne(b.ledger[0], ConfirmedOf);
      SumOfOne(b.ledger[0], EscrowedOf);
      SumOfOne(b.ledger[0], AllocationOf);
      SumOfOne(b.ledger[0], HeldOf(b.ledger));
    }
  }

  lemma {:induction false} OpenEstablishesInv(c: Config, h: Payload -> string, initial: nat, ids: seq<string>, at: int)
    requires Open(c, initial, ids, at).Success?
    ensures TreasuryInv(c, h, initial, Open(c, initial, ids, at).value)
  {
    OpenBalances(c, initial, ids, at);
  }

  lemma {:induction false} EscrowStepKeepsInv(c: Config, h: Payload -> string, initial: nat, b: Books, amount: nat, key: string, eventId: string, at: int)
    requires TreasuryInv(c, h, initial, b) && RecordEscrow(b, amount, key, eventId, at).Success?
    ensures TreasuryInv(c, h, initial, RecordEscrow(b, amount, key, eventId, at).value)
  {
    RecordEscrowKeepsBalances(b, amount, key, eventId, at);
    RecordEscrowConserves(b, amount, key, eventId, at);
    EscrowKeepsRecords(c, h, initial, b, RecordEscrow(b, amount, key, eventId, at).value,
                       LedgerEntry("ledger:escrow:" + eventId, CommitmentEntry, None, amount, key, at, None));
  }

  lemma {:induction false} ReleaseStepKeepsInv(c: Config, h: Payload -> string, initial: nat, b: Books, amount: nat, key: string, eventId: string, at: int, target: string)
    requires TreasuryInv(c, h, initial, b) && ReleaseEscrow(b, amount, key, eventId, at, target).Success?
    ensures TreasuryInv(c, h, initial, ReleaseEscrow(b, amount, key, eventId, at, target).value)
  {
    ReleaseEscrowKeepsBalances(b, amount, key, eventId, at, target);
    ReleaseEscrowConserves(b, amount, key, eventId, at, target);
    EscrowKeepsRecords(c, h, initial, b, ReleaseEscrow(b, amount, key, eventId, at, target).value,
                       LedgerEntry("ledger:escrow-release:" + eventId, ReversalEntry, None, amount, key, at, Some(target)));
  }

  lemma {:induction false} ReconcileStepKeepsInv(c: Config, h: Payload -> string, initial: nat, b: Books, id: string, key: string, eventId: string, at: int)
    requires TreasuryInv(c, h, initial, b) && Reconcile(b, id, key, eventId, at).Success?
    ensures TreasuryInv(c, h, initial, Reconcile(b, id, key, eventId, at).value)
  {
    ReconcileKeepsBalances(b, id, key, eventId, at);
    PlainEntryKeepsEscrow(b, SettlementEntryOf(b.tranches[id], key, at));
    ReconcileKeepsRecords(c, h, initial, b, id, key, eventId, at);
  }

  lemma {:induction false} ArrivalStepKeepsInv(c: Config, h: Payload -> string, initial: nat, b: Books, a: Arrival, state: TrancheState, key: string, eventId: string, at: int)
    requires TreasuryInv(c, h, initial, b) && !state.ReconciledState? && RecordArrival(b, a, state, key, eventId, at).Success?
    ensures TreasuryInv(c, h, initial, RecordArrival(b, a, state, key, eventId, at).value)
  {
    ArrivalKeepsRecords(c, h, initial, b, a, state, key, eventId, at);
  }

  lemma {:induction false} CreateStepKeepsInv(c: Config, h: Payload -> string, initial: nat, b: Books, r: Request)
    requires TreasuryInv(c, h, initial, b) && CreateProposal(c, b, r).Success?
    ensures TreasuryInv(c, h, initial, CreateProposal(c, b, r).value)
  {
    CreatedProposal(c, b, r);
    CreateKeepsRecords(c, h, initial, b, r);
  }

  lemma {:induction false} ApprovalStepKeepsInv(c: Config, h: Payload -> string, initial: nat, b: Books, current: Proposal, a: ApprovalRecord, eventId: string, at: int)
    requires TreasuryInv(c, h, initial, b) && FounderApproves(c, a, current.id)
    requires FinishApproval(b, current, h(IntentPayload(c, current)), a, eventId, at).Success?
    ensures TreasuryInv(c, h, initial, FinishApproval(b, current, h(IntentPayload(c, current)), a, eventId, at).value)
  {
    ApprovalKeepsRecords(c, h, initial, b, current, a, eventId, at);
  }

  lemma {:induction false} ApplicationStepKeepsInv(c: Config, h: Payload -> string, initial: nat, b: Books, current: Proposal, hash: string, key: string, eventId: string, at: int)
    requires TreasuryInv(c, h, initial, b) && FinishApplication(b, current, hash, key, eventId, at).Success?
    ensures TreasuryInv(c, h, initial, FinishApplication(b, current, hash, key, eventId, at).value)
  {
    ApplicationKeepsBalances(b, current, hash, key, eventId, at);
    AllocationEntriesKeepEscrow(b, AllocationEntries(current.resolved, current.id, key, at));
    ApplicationKeepsRecords(c, h, initial, b, current, hash, key, eventId, at);
  }
}
