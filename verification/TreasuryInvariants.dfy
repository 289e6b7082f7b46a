/**
 What every operation of the treasury keeps: balances that agree with the ledger, conserved escrow, reserves that hold
 exactly what applied proposals gave them, and tranches that are credited once.
 */
module TreasuryInvariants {
  import opened Wrappers
  import opened Sorting
  import opened Allocation
  import opened Treasury

  // ----- balances and the ledger -----

  ghost predicate BalancesAgree(b: Books) {
    && b.totalCapital == b.confirmed
    && Sum(b.ledger, ConfirmedOf) == b.confirmed
    && Sum(b.ledger, EscrowedOf) == b.escrowed
    && Sum(b.ledger, AllocationOf) == Allocated(b.reserves)
    && Allocated(b.reserves) + b.escrowed <= b.confirmed
  }

  /** `getSnapshot` never throws on agreeing books, and its balances add up to the confirmed capital. */
  lemma {:induction false} SnapshotNeverThrows(b: Books)
    requires BalancesAgree(b)
    ensures Snapshot(b).Success?
    ensures var s := Snapshot(b).value;
            s.confirmed == b.confirmed && s.escrowed == b.escrowed && s.escrowed + s.allocation + s.unallocated == s.confirmed
            && s.available == s.allocation + s.unallocated
  {
  }

  lemma {:induction false} EntryKeepsBalances(b: Books, e: LedgerEntry, confirmed: nat, escrowed: nat)
    requires BalancesAgree(b) && !e.kind.AllocationEntry?
    requires confirmed == b.confirmed + ConfirmedOf(e) && escrowed == b.escrowed + EscrowedOf(e)
    requires Allocated(b.reserves) + escrowed <= confirmed
    ensures BalancesAgree(b.(totalCapital := confirmed, confirmed := confirmed, escrowed := escrowed, ledger := b.ledger + [e]))
  {
    SumOne(b.ledger, e, ConfirmedOf);
    SumOne(b.ledger, e, EscrowedOf);
    SumOne(b.ledger, e, AllocationOf);
  }

  lemma {:induction false} RecordEscrowKeepsBalances(b: Books, amount: nat, key: string, eventId: string, at: int)
    requires BalancesAgree(b) && RecordEscrow(b, amount, key, eventId, at).Success?
    ensures BalancesAgree(RecordEscrow(b, amount, key, eventId, at).value)
  {
    var e := LedgerEntry("ledger:escrow:" + eventId, CommitmentEntry, None, amount, key, at, None);
    EntryKeepsBalances(b, e, b.confirmed, b.escrowed + amount);
  }

  lemma {:induction false} ReleaseEscrowKeepsBalances(b: Books, amount: nat, key: string, eventId: string, at: int, target: string)
    requires BalancesAgree(b) && ReleaseEscrow(b, amount, key, eventId, at, target).Success?
    ensures BalancesAgree(ReleaseEscrow(b, amount, key, eventId, at, target).value)
  {
    var e := LedgerEntry("ledger:escrow-release:" + eventId, ReversalEntry, None, amount, key, at, Some(target));
    EntryKeepsBalances(b, e, b.confirmed, b.escrowed - amount);
  }

  lemma {:induction false} ReconcileKeepsBalances(b: Books, id: string, key: string, eventId: string, at: int)
    requires BalancesAgree(b) && Reconcile(b, id, key, eventId, at).Success?
    ensures BalancesAgree(Reconcile(b, id, key, eventId, at).value)
  {
    EntryKeepsBalances(b, SettlementEntryOf(b.tranches[id], key, at), b.confirmed + b.tranches[id].amount, b.escrowed);
  }

  /** The consistency check of a reconciliation never throws: the guards before it are the only ones that can refuse. */
  lemma {:induction false} ReconcileRefusals(b: Books, id: string, key: string, eventId: string, at: int)
    requires BalancesAgree(b)
    ensures Reconcile(b, id, key, eventId, at).Success? <==>
            id in b.tranches && b.tranches[id].state.ConfirmedState? && key != ""
            && b.tranches[id].tx.operationType.SettlementTx? && b.tranches[id].tx.status.ConfirmedTx?
  {
    if id in b.tranches {
      EntryKeepsBalances(b, SettlementEntryOf(b.tranches[id], key, at), b.confirmed + b.tranches[id].amount, b.escrowed);
    }
  }

  // ----- applying a proposal -----

  predicate DistinctReserves(reserves: seq<Reserve>) {
    forall j, k :: 0 <= j < k < |reserves| ==> reserves[j].id != reserves[k].id
  }

  /** The same reserves in the same order, whatever they hold. */
  predicate SameIds(before: seq<Reserve>, after: seq<Reserve>) {
    |before| == |after| && forall k :: 0 <= k < |before| ==> before[k].id == after[k].id
  }

  /** Adding shares gives each reserve exactly the total of its own. */
  lemma {:induction false} AddSharesAdds(reserves: seq<Reserve>, shares: seq<Share>)
    requires DistinctReserves(reserves) && AddShares(reserves, shares).Success?
    ensures var after := AddShares(reserves, shares).value;
            && SameIds(reserves, after)
            && (forall k :: 0 <= k < |reserves| ==> after[k].allocation == reserves[k].allocation + Total(shares, reserves[k].id))
  {
    if shares != [] {
      var init, last := shares[..|shares| - 1], shares[|shares| - 1];
      AddSharesAdds(reserves, init);
      assert shares == init + [last];
      forall k | 0 <= k < |reserves|
        ensures AddShares(reserves, shares).value[k].allocation == reserves[k].allocation + Total(shares, reserves[k].id)
      {
        TotalOne(init, last, reserves[k].id);
      }
    }
  }

  lemma {:induction false} AddSharesTotal(reserves: seq<Reserve>, shares: seq<Share>)
    requires AddShares(reserves, shares).Success?
    ensures Allocated(AddShares(reserves, shares).value) == Allocated(reserves) + Sum(shares, AmountOf)
  {
    if shares != [] {
      var init, last := shares[..|shares| - 1], shares[|shares| - 1];
      AddSharesTotal(reserves, init);
      assert shares == init + [last];
      SumOne(init, last, AmountOf);
      var before := AddShares(reserves, init).value;
      var k := IndexOf(before, last.reserveId).value;
      SumUpdate(before, k, Reserve(before[k].id, before[k].allocation + last.amount, true), AllocatedOf);
    }
  }

  lemma {:induction false} AllocationEntriesAddUp(shares: seq<Share>, id: string, key: string, at: int)
    ensures var es := AllocationEntries(shares, id, key, at);
            Sum(es, AllocationOf) == Sum(shares, AmountOf) && Sum(es, ConfirmedOf) == 0 && Sum(es, EscrowedOf) == 0
  {
    if shares != [] {
      AllocationEntriesAddUp(shares[1..], id, key, at);
      assert AllocationEntries(shares, id, key, at)[1..] == AllocationEntries(shares[1..], id, key, at);
    }
  }

  lemma {:induction false} ApplicationKeepsBalances(b: Books, p: Proposal, hash: string, key: string, eventId: string, at: int)
    requires BalancesAgree(b) && FinishApplication(b, p, hash, key, eventId, at).Success?
    ensures BalancesAgree(FinishApplication(b, p, hash, key, eventId, at).value)
  {
    var es := AllocationEntries(p.resolved, p.id, key, at);
    SumAppend(b.ledger, es, ConfirmedOf);
    SumAppend(b.ledger, es, EscrowedOf);
    SumAppend(b.ledger, es, AllocationOf);
    AllocationEntriesAddUp(p.resolved, p.id, key, at);
    AddSharesTotal(b.reserves, p.resolved);
  }

  // ----- escrow -----

  /** No two commitments share an id, and every reversal names a commitment. */
  ghost predicate ReversalsGrounded(ledger: seq<LedgerEntry>) {
    && (forall j, k :: 0 <= j < k < |ledger| && ledger[j].kind.CommitmentEntry? && ledger[k].kind.CommitmentEntry? ==> ledger[j].id != ledger[k].id)
    && (forall k :: 0 <= k < |ledger| && ledger[k].kind.ReversalEntry? ==> ledger[k].reversesEntryId.Some? && Commits(ledger, ledger[k].reversesEntryId.value))
  }

  ghost predicate Commits(ledger: seq<LedgerEntry>, id: string) {
    exists j :: 0 <= j < |ledger| && ledger[j].kind.CommitmentEntry? && ledger[j].id == id
  }

  /** What is still held of a commitment. */
  function HeldOf(ledger: seq<LedgerEntry>): LedgerEntry -> int {
    (e: LedgerEntry) => if e.kind.CommitmentEntry? then e.amount - Reversed(ledger, e.id) else 0
  }

  ghost predicate NotOverReversed(ledger: seq<LedgerEntry>) {
    forall k :: 0 <= k < |ledger| ==> HeldOf(ledger)(ledger[k]) >= 0
  }

  /** Escrowed capital is what is still held of all commitments together. */
  ghost predicate EscrowConserved(b: Books) {
    ReversalsGrounded(b.ledger) && NotOverReversed(b.ledger) && b.escrowed == Sum(b.ledger, HeldOf(b.ledger))
  }

  lemma {:induction false} FindEntryIs(ledger: seq<LedgerEntry>, id: string)
    ensures match FindEntry(ledger, id)
            case Some(e) => e in ledger && e.id == id
            case None => forall k :: 0 <= k < |ledger| ==> ledger[k].id != id
  {
    if ledger != [] && ledger[0].id != id { FindEntryIs(ledger[1..], id); }
  }

  /** Two weights that agree on every entry give the same sum. */
  lemma {:induction false} SumSame<T>(xs: seq<T>, v: T -> int, w: T -> int)
    requires forall k :: 0 <= k < |xs| ==> v(xs[k]) == w(xs[k])
    ensures Sum(xs, v) == Sum(xs, w)
  {
    if xs != [] { SumSame(xs[1..], v, w); }
  }

  /** Two weights that differ by `d` at one entry only. */
  lemma {:induction false} SumDiffers<T>(xs: seq<T>, v: T -> int, w: T -> int, at: nat, d: int)
    requires at < |xs| && w(xs[at]) == v(xs[at]) + d
    requires forall k :: 0 <= k < |xs| && k != at ==> v(xs[k]) == w(xs[k])
    ensures Sum(xs, w) == Sum(xs, v) + d
  {
    if at == 0 { SumSame(xs[1..], v, w); } else { SumDiffers(xs[1..], v, w, at - 1, d); }
  }

  lemma {:induction false} ReversedOne(ledger: seq<LedgerEntry>, e: LedgerEntry, id: string)
    ensures Reversed(ledger + [e], id) == Reversed(ledger, id) + ReversalOf(id)(e)
  {
    SumOne(ledger, e, ReversalOf(id));
  }

  lemma {:induction false} NothingReversed(ledger: seq<LedgerEntry>, id: string)
    requires forall k :: 0 <= k < |ledger| && ledger[k].kind.ReversalEntry? ==> ledger[k].reversesEntryId != Some(id)
    ensures Reversed(ledger, id) == 0
  {
    if ledger != [] { NothingReversed(ledger[1..], id); }
  }

  /** An entry that reverses nothing leaves the remainders of the others as they are. */
  lemma {:induction false} OthersKeepHeld(ledger: seq<LedgerEntry>, e: LedgerEntry)
    requires !e.kind.ReversalEntry?
    ensures forall x :: HeldOf(ledger + [e])(x) == HeldOf(ledger)(x)
  {
    forall x: LedgerEntry ensures HeldOf(ledger + [e])(x) == HeldOf(ledger)(x) { ReversedOne(ledger, e, x.id); }
  }

  /** An entry that neither commits nor reverses changes no escrow. */
  lemma {:induction false} PlainEntryKeepsEscrow(b: Books, e: LedgerEntry)
    requires EscrowConserved(b) && !e.kind.CommitmentEntry? && !e.kind.ReversalEntry?
    ensures EscrowConserved(b.(ledger := b.ledger + [e]))
  {
    GroundedExtends(b.ledger, e);
    OthersKeepHeld(b.ledger, e);
    SumOne(b.ledger, e, HeldOf(b.ledger + [e]));
    SumSame(b.ledger, HeldOf(b.ledger), HeldOf(b.ledger + [e]));
  }

  lemma {:induction false} GroundedExtends(ledger: seq<LedgerEntry>, e: LedgerEntry)
    requires ReversalsGrounded(ledger)
    requires e.kind.CommitmentEntry? ==> forall k :: 0 <= k < |ledger| ==> ledger[k].id != e.id
    requires e.kind.ReversalEntry? ==> e.reversesEntryId.Some? && Commits(ledger, e.reversesEntryId.value)
    ensures ReversalsGrounded(ledger + [e])
  {
    var after := ledger + [e];
    forall k | 0 <= k < |after| && after[k].kind.ReversalEntry? ensures after[k].reversesEntryId.Some? && Commits(after, after[k].reversesEntryId.value) {
      var id := after[k].reversesEntryId.value;
      assert Commits(ledger, id);
      var j :| 0 <= j < |ledger| && ledger[j].kind.CommitmentEntry? && ledger[j].id == id;
      assert after[j] == ledger[j];
    }
  }

  lemma {:induction false} CommitmentKeepsEscrow(b: Books, e: LedgerEntry)
    requires EscrowConserved(b) && e.kind.CommitmentEntry? && forall k :: 0 <= k < |b.ledger| ==> b.ledger[k].id != e.id
    ensures EscrowConserved(b.(ledger := b.ledger + [e], escrowed := b.escrowed + e.amount))
  {
    GroundedExtends(b.ledger, e);
    OthersKeepHeld(b.ledger, e);
    NothingReversed(b.ledger, e.id);
    SumOne(b.ledger, e, HeldOf(b.ledger + [e]));
    SumSame(b.ledger, HeldOf(b.ledger), HeldOf(b.ledger + [e]));
  }

  lemma {:induction false} ReversalKeepsEscrow(b: Books, e: LedgerEntry, at: nat)
    requires EscrowConserved(b) && e.kind.ReversalEntry? && at < |b.ledger| && b.ledger[at].kind.CommitmentEntry?
    requires e.reversesEntryId == Some(b.ledger[at].id) && Reversed(b.ledger, b.ledger[at].id) + e.amount <= b.ledger[at].amount
    ensures e.amount <= b.escrowed && EscrowConserved(b.(ledger := b.ledger + [e], escrowed := b.escrowed - e.amount))
  {
    var after := b.ledger + [e];
    SumCovers(b.ledger, HeldOf(b.ledger), at);
    assert Commits(b.ledger, b.ledger[at].id);
    GroundedExtends(b.ledger, e);
    forall k | 0 <= k < |b.ledger|
      ensures HeldOf(after)(b.ledger[k]) == HeldOf(b.ledger)(b.ledger[k]) - if k == at then e.amount else 0
    {
      ReversedOne(b.ledger, e, b.ledger[k].id);
    }
    SumDiffers(b.ledger, HeldOf(b.ledger), HeldOf(after), at, -(e.amount as int));
    SumOne(b.ledger, e, HeldOf(after));
  }

  lemma {:induction false} SumCovers<T>(xs: seq<T>, w: T -> int, at: nat)
    requires at < |xs| && forall k :: 0 <= k < |xs| ==> w(xs[k]) >= 0
    ensures w(xs[at]) <= Sum(xs, w)
  {
    if at == 0 { SumIsNat(xs[1..], w); } else { SumCovers(xs[1..], w, at - 1); }
  }

  lemma {:induction false} RecordEscrowConserves(b: Books, amount: nat, key: string, eventId: string, at: int)
    requires EscrowConserved(b) && RecordEscrow(b, amount, key, eventId, at).Success?
    ensures EscrowConserved(RecordEscrow(b, amount, key, eventId, at).value)
  {
    var e := LedgerEntry("ledger:escrow:" + eventId, CommitmentEntry, None, amount, key, at, None);
    FindEntryIs(b.ledger, e.id);
    CommitmentKeepsEscrow(b, e);
  }

  lemma {:induction false} CommitmentFound(ledger: seq<LedgerEntry>, id: string) returns (at: nat)
    requires FindEntry(ledger, id).Some?
    ensures at < |ledger| && ledger[at] == FindEntry(ledger, id).value && ledger[at].id == id
  {
    FindEntryIs(ledger, id);
    at :| at < |ledger| && ledger[at] == FindEntry(ledger, id).value;
  }

  lemma {:induction false} ReleaseEscrowConserves(b: Books, amount: nat, key: string, eventId: string, at: int, target: string)
    requires EscrowConserved(b) && ReleaseEscrow(b, amount, key, eventId, at, target).Success?
    ensures EscrowConserved(ReleaseEscrow(b, amount, key, eventId, at, target).value)
  {
    var k := CommitmentFound(b.ledger, target);
    ReversalKeepsEscrow(b, LedgerEntry("ledger:escrow-release:" + eventId, ReversalEntry, None, amount, key, at, Some(target)), k);
  }

  /** The guard against releasing more than is escrowed is implied by the one against exceeding the commitment. */
  lemma {:induction false} CommitmentGuardSuffices(b: Books, amount: nat, target: string)
    requires EscrowConserved(b)
    requires FindEntry(b.ledger, target).Some? && FindEntry(b.ledger, target).value.kind.CommitmentEntry?
    requires Reversed(b.ledger, target) + amount <= FindEntry(b.ledger, target).value.amount
    ensures amount <= b.escrowed
  {
    var k := CommitmentFound(b.ledger, target);
    SumCovers(b.ledger, HeldOf(b.ledger), k);
  }

  lemma {:induction false} AllocationEntriesKeepEscrow(b: Books, es: seq<LedgerEntry>)
    requires EscrowConserved(b) && forall k :: 0 <= k < |es| ==> es[k].kind.AllocationEntry?
    ensures EscrowConserved(b.(ledger := b.ledger + es))
    decreases |es|
  {
    if es == [] {
      assert b.ledger + es == b.ledger;
    } else {
      PlainEntryKeepsEscrow(b, es[0]);
      AllocationEntriesKeepEscrow(b.(ledger := b.ledger + [es[0]]), es[1..]);
      assert b.ledger + [es[0]] + es[1..] == b.ledger + es;
    }
  }
}
