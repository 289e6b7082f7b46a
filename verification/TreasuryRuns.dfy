/**
 Runs of the treasury. A call does its checks and leaves an entry in the idempotency repository; the callback of the entry
 runs later, and approving or applying a proposal pauses once more while its intent is hashed. Anything may happen between.
 */
module TreasuryRuns {
  import opened Wrappers
  import opened Sorting
  import opened MapSums
  import opened Allocation
  import opened Actors
  import opened Treasury
  import opened TreasuryInvariants
  import opened TreasuryRecords
  import opened TreasuryOperations
  import Idempotency

  datatype Call =
    | EscrowCall(amount: nat, eventId: string, at: int)
    | ReleaseCall(amount: nat, eventId: string, at: int, target: string)
    | ApproveCall(proposalId: string, approval: ApprovalRecord, eventId: string, at: int)
    | ApplyCall(proposalId: string, eventId: string, at: int)
    | ArrivalCall(arrival: Arrival, eventId: string, at: int)
    | ReconcileCall(trancheId: string, eventId: string, at: int)

  datatype Scope = EscrowRecord | EscrowRelease | AllocationApprove | AllocationApply | TrancheRecord | TrancheReconcile

  function ScopeOf(call: Call): Scope {
    match call
    case EscrowCall(_, _, _) => EscrowRecord
    case ReleaseCall(_, _, _, _) => EscrowRelease
    case ApproveCall(_, _, _, _) => AllocationApprove
    case ApplyCall(_, _, _) => AllocationApply
    case ArrivalCall(_, _, _) => TrancheRecord
    case ReconcileCall(_, _, _) => TrancheReconcile
  }

  /** What two uses of a key must have in common; for an arrival it also fixes the state that the callback will record. */
  datatype Fingerprint =
    | AmountPrint(amount: nat)
    | ReleasePrint(amount: nat, target: string)
    | ApprovePrint(proposalId: string, approvalId: string, exactIntentHash: string, key: string)
    | ApplyPrint(proposalId: string, appliedApproval: Option<string>, approvedIntentHash: Option<string>, resolved: seq<Share>)
    | ArrivalPrint(trancheId: string, amount: nat, tx: TxRef, sourceJob: Option<JobRef>, actor: Actor, state: TrancheState)
    | ReconcilePrint(trancheId: string, amount: nat, hash: Option<string>)

  datatype Slot = Slot(scope: Scope, key: string)

  datatype Stage = Queued | Hashing(current: Proposal) | Resolved | Refused(error: TreasuryError)

  datatype Entry = Entry(fingerprint: Fingerprint, call: Call, stage: Stage)

  datatype System = System(books: Books, entries: map<Slot, Entry>)

  function KeyOf(call: Call, key: string): string {
    if call.ApproveCall? then call.approval.idempotencyKey else key
  }

  /** The checks a call makes before it hands its callback to the idempotency repository, and the fingerprint it uses. */
  function Checks(c: Config, b: Books, call: Call, actor: Actor): Result<Fingerprint, TreasuryError> {
    var required := if call.ApproveCall? then c.founder else c.operator;
    :- Need(actor == required, InvalidState);
    :- Need(call.eventId != "", Malformed);
    match call
    case EscrowCall(amount, _, _) => Success(AmountPrint(amount))
    case ReleaseCall(amount, _, _, target) => if target == "" then Failure(Malformed) else Success(ReleasePrint(amount, target))
    case ApproveCall(id, a, _, _) =>
      if id !in b.proposals then Failure(InvalidState)
      else Success(ApprovePrint(b.proposals[id].id, a.id, a.exactIntentHash, a.idempotencyKey))
    case ApplyCall(id, _, _) =>
      if id !in b.proposals then Failure(InvalidState)
      else Success(ApplyPrint(b.proposals[id].id, b.proposals[id].approvalId, b.proposals[id].approvedIntentHash, b.proposals[id].resolved))
    case ArrivalCall(a, _, _) =>
      (match CheckArrival(c, b, a)
       case Failure(e) => Failure(e)
       case Success(state) => Success(ArrivalPrint(a.trancheId, a.amount, TxFingerprint(a.tx), JobFingerprint(a.sourceJob), actor, state)))
    case ReconcileCall(id, _, _) =>
      if id !in b.tranches then Failure(InvalidState)
      else Success(ReconcilePrint(id, b.tranches[id].amount, b.tranches[id].tx.transactionHash))
  }

  /** `execute`: a used key conflicts or answers with what it did before; an unused one queues the callback. */
  function Invoked(c: Config, s: System, call: Call, key: string, actor: Actor): System {
    var slot := Slot(ScopeOf(call), KeyOf(call, key));
    match Checks(c, s.books, call, actor)
    case Failure(_) => s
    case Success(mark) => if slot in s.entries then s else s.(entries := s.entries[slot := Entry(mark, call, Queued)])
  }

  function Settle(s: System, slot: Slot, r: Result<Books, TreasuryError>): System
    requires slot in s.entries
  {
    match r
    case Success(b) => System(b, s.entries[slot := s.entries[slot].(stage := Resolved)])
    case Failure(e) => s.(entries := s.entries[slot := s.entries[slot].(stage := Refused(e))])
  }

  /** A callback pauses at the hash of the proposal it read, or is rejected. */
  function Pause(s: System, slot: Slot, r: Result<Proposal, TreasuryError>): System
    requires slot in s.entries
  {
    match r
    case Success(p) => s.(entries := s.entries[slot := s.entries[slot].(stage := Hashing(p))])
    case Failure(e) => s.(entries := s.entries[slot := s.entries[slot].(stage := Refused(e))])
  }

  /** The queued callback of an entry runs, up to its await if it has one. */
  function Ran(c: Config, s: System, slot: Slot): System
    requires slot in s.entries
  {
    var e := s.entries[slot];
    if e.stage != Queued then s else
      match e.call
      case EscrowCall(amount, eventId, at) => Settle(s, slot, RecordEscrow(s.books, amount, slot.key, eventId, at))
      case ReleaseCall(amount, eventId, at, target) => Settle(s, slot, ReleaseEscrow(s.books, amount, slot.key, eventId, at, target))
      case ApproveCall(id, a, _, at) => Pause(s, slot, CheckApproval(c, s.books, id, a, at))
      case ApplyCall(id, _, at) => Pause(s, slot, CheckApplication(c, s.books, id, at))
      case ArrivalCall(a, eventId, at) =>
        if !e.fingerprint.ArrivalPrint? then s
        else Settle(s, slot, RecordArrival(s.books, a, e.fingerprint.state, slot.key, eventId, at))
      case ReconcileCall(id, eventId, at) => Settle(s, slot, Reconcile(s.books, id, slot.key, eventId, at))
  }

  /** The digest has arrived and the callback goes on. */
  function Resumed(c: Config, h: Payload -> string, s: System, slot: Slot): System
    requires slot in s.entries
  {
    var e := s.entries[slot];
    if !e.stage.Hashing? then s else
      var current, hash := e.stage.current, h(IntentPayload(c, e.stage.current));
      match e.call
      case ApproveCall(_, a, eventId, at) => Settle(s, slot, FinishApproval(s.books, current, hash, a, eventId, at))
      case ApplyCall(_, eventId, at) => Settle(s, slot, FinishApplication(s.books, current, hash, slot.key, eventId, at))
      case _ => s
  }

  datatype Event = Propose(request: Request) | Invoke(call: Call, key: string, actor: Actor) | Callback(slot: Slot) | Resume(slot: Slot)

  predicate Possible(s: System, e: Event) {
    e.Callback? || e.Resume? ==> e.slot in s.entries
  }

  function Next(c: Config, h: Payload -> string, s: System, e: Event): System
    requires Possible(s, e)
  {
    match e
    case Propose(r) => (match CreateProposal(c, s.books, r) case Success(b) => s.(books := b) case Failure(_) => s)
    case Invoke(call, key, actor) => Invoked(c, s, call, key, actor)
    case Callback(slot) => Ran(c, s, slot)
    case Resume(slot) => Resumed(c, h, s, slot)
  }

  /** A run of a treasury opened with `initial` capital. */
  ghost predicate Run(c: Config, h: Payload -> string, initial: nat, reserveIds: seq<string>, openedAt: int, states: seq<System>, events: seq<Event>) {
    && |states| == |events| + 1
    && Open(c, initial, reserveIds, openedAt).Success? && states[0] == System(Open(c, initial, reserveIds, openedAt).value, map[])
    && forall n :: 0 <= n < |events| ==> Possible(states[n], events[n]) && states[n + 1] == Next(c, h, states[n], events[n])
  }

  // ----- the invariant -----

  predicate EntryOk(c: Config, e: Entry) {
    && (e.call.ArrivalCall? ==> e.fingerprint.ArrivalPrint? && !e.fingerprint.state.ReconciledState?)
    && (e.call.ApproveCall? && e.stage.Hashing? ==> FounderApproves(c, e.call.approval, e.stage.current.id))
    && (e.call.ApplyCall? ==> e.stage != Refused(ProposalAltered) && e.stage != Refused(ApprovalMismatch))
  }

  ghost predicate SystemInv(c: Config, h: Payload -> string, initial: nat, s: System) {
    TreasuryInv(c, h, initial, s.books) && forall slot :: slot in s.entries ==> EntryOk(c, s.entries[slot])
  }

  lemma {:induction false} RanKeepsInv(c: Config, h: Payload -> string, initial: nat, s: System, slot: Slot)
    requires SystemInv(c, h, initial, s) && slot in s.entries
    ensures TreasuryInv(c, h, initial, Ran(c, s, slot).books)
  {
    var e, b := s.entries[slot], s.books;
    assert EntryOk(c, e);
    if e.stage == Queued {
      match e.call {
        case EscrowCall(amount, eventId, at) =>
          if RecordEscrow(b, amount, slot.key, eventId, at).Success? { EscrowStepKeepsInv(c, h, initial, b, amount, slot.key, eventId, at); }
        case ReleaseCall(amount, eventId, at, target) =>
          if ReleaseEscrow(b, amount, slot.key, eventId, at, target).Success? { ReleaseStepKeepsInv(c, h, initial, b, amount, slot.key, eventId, at, target); }
        case ArrivalCall(a, eventId, at) =>
          if RecordArrival(b, a, e.fingerprint.state, slot.key, eventId, at).Success? {
            ArrivalStepKeepsInv(c, h, initial, b, a, e.fingerprint.state, slot.key, eventId, at);
          }
        case ReconcileCall(id, eventId, at) =>
          if Reconcile(b, id, slot.key, eventId, at).Success? { ReconcileStepKeepsInv(c, h, initial, b, id, slot.key, eventId, at); }
        case _ =>
      }
    }
  }

  lemma {:induction false} RanKeepsEntry(c: Config, h: Payload -> string, initial: nat, s: System, slot: Slot)
    requires SystemInv(c, h, initial, s) && slot in s.entries
    ensures EntryOk(c, Ran(c, s, slot).entries[slot])
    ensures var t := Ran(c, s, slot); t.entries == s.entries[slot := t.entries[slot]]
  {
    var e := s.entries[slot];
    assert EntryOk(c, e);
    if e.stage == Queued && e.call.ApproveCall? { assert CheckApproval(c, s.books, e.call.proposalId, e.call.approval, e.call.at).Success? ==> FounderApproves(c, e.call.approval, CheckApproval(c, s.books, e.call.proposalId, e.call.approval, e.call.at).value.id); }
    if e.stage == Queued && e.call.ApplyCall? && e.call.proposalId in s.books.proposals && s.books.proposals[e.call.proposalId].status.ApprovedStatus? {
      ApprovalNeverMissing(c, h, s.books, e.call.proposalId, e.call.at);
    }
  }

  /** A settled entry leaves the others as they are. */
  lemma {:induction false} SettleKeepsInv(c: Config, h: Payload -> string, initial: nat, s: System, slot: Slot, r: Result<Books, TreasuryError>)
    requires SystemInv(c, h, initial, s) && slot in s.entries && s.entries[slot].stage.Hashing?
    requires r.Success? ==> TreasuryInv(c, h, initial, r.value)
    requires s.entries[slot].call.ApplyCall? ==> r != Failure(ProposalAltered) && r != Failure(ApprovalMismatch)
    ensures SystemInv(c, h, initial, Settle(s, slot, r))
  {
    assert EntryOk(c, s.entries[slot]);
  }

  lemma {:induction false} ResumedKeepsInv(c: Config, h: Payload -> string, initial: nat, s: System, slot: Slot)
    requires SystemInv(c, h, initial, s) && slot in s.entries
    ensures SystemInv(c, h, initial, Resumed(c, h, s, slot))
  {
    var e, b := s.entries[slot], s.books;
    assert EntryOk(c, e);
    if e.stage.Hashing? && e.call.ApproveCall? {
      var r := FinishApproval(b, e.stage.current, h(IntentPayload(c, e.stage.current)), e.call.approval, e.call.eventId, e.call.at);
      if r.Success? { ApprovalStepKeepsInv(c, h, initial, b, e.stage.current, e.call.approval, e.call.eventId, e.call.at); }
      SettleKeepsInv(c, h, initial, s, slot, r);
    } else if e.stage.Hashing? && e.call.ApplyCall? {
      var hash := h(IntentPayload(c, e.stage.current));
      var r := FinishApplication(b, e.stage.current, hash, slot.key, e.call.eventId, e.call.at);
      NeverAltered(c, h, b, e.stage.current, slot.key, e.call.eventId, e.call.at);
      if r.Success? { ApplicationStepKeepsInv(c, h, initial, b, e.stage.current, hash, slot.key, e.call.eventId, e.call.at); }
      SettleKeepsInv(c, h, initial, s, slot, r);
    }
  }

  lemma {:induction false} InvokedKeepsInv(c: Config, h: Payload -> string, initial: nat, s: System, call: Call, key: string, actor: Actor)
    requires SystemInv(c, h, initial, s)
    ensures SystemInv(c, h, initial, Invoked(c, s, call, key, actor))
  {
    var checks := Checks(c, s.books, call, actor);
    if checks.Success? { assert EntryOk(c, Entry(checks.value, call, Queued)); }
  }

  lemma {:induction false} NextKeepsInv(c: Config, h: Payload -> string, initial: nat, s: System, e: Event)
    requires SystemInv(c, h, initial, s) && Possible(s, e)
    ensures SystemInv(c, h, initial, Next(c, h, s, e))
  {
    match e {
      case Propose(r) => if CreateProposal(c, s.books, r).Success? { CreateStepKeepsInv(c, h, initial, s.books, r); }
      case Invoke(call, key, actor) => InvokedKeepsInv(c, h, initial, s, call, key, actor);
      case Callback(slot) =>
        RanKeepsInv(c, h, initial, s, slot);
        RanKeepsEntry(c, h, initial, s, slot);
      case Resume(slot) => ResumedKeepsInv(c, h, initial, s, slot);
    }
  }

  lemma {:induction false} RunKeepsInv(c: Config, h: Payload -> string, initial: nat, ids: seq<string>, at: int, states: seq<System>, events: seq<Event>, n: nat)
    requires Run(c, h, initial, ids, at, states, events) && n < |states|
    ensures SystemInv(c, h, initial, states[n])
  {
    if n == 0 {
      OpenEstablishesInv(c, h, initial, ids, at);
    } else {
      RunKeepsInv(c, h, initial, ids, at, states, events, n - 1);
      NextKeepsInv(c, h, initial, states[n - 1], events[n - 1]);
    }
  }

  // ----- what never goes back -----

  function Rank(s: ProposalStatus): nat {
    match s
    case ProposedStatus => 0
    case ApprovedStatus => 1
    case AppliedStatus => 2
  }

  /** What a proposal was created with. */
  function Terms(p: Proposal): Proposal {
    p.(status := ProposedStatus, approvalId := None, approvedIntentHash := None, approval := None, approvedAt := None, appliedAt := None)
  }

  predicate Final(t: Tranche) {
    t.state.ReconciledState? || t.state.FailedState?
  }

  ghost predicate ProposalsAdvance(b: Books, after: Books) {
    forall id :: id in b.proposals ==>
      id in after.proposals && Terms(after.proposals[id]) == Terms(b.proposals[id])
      && Rank(b.proposals[id].status) <= Rank(after.proposals[id].status)
      && (Rank(b.proposals[id].status) == Rank(after.proposals[id].status) ==> after.proposals[id] == b.proposals[id])
  }

  ghost predicate FinalTranchesStay(b: Books, after: Books) {
    forall id :: id in b.tranches && Final(b.tranches[id]) ==> id in after.tranches && after.tranches[id] == b.tranches[id]
  }

  ghost predicate EntriesSettle(s: System, after: System) {
    forall slot :: slot in s.entries ==>
      slot in after.entries && after.entries[slot].fingerprint == s.entries[slot].fingerprint && after.entries[slot].call == s.entries[slot].call
      && (s.entries[slot].stage.Resolved? || s.entries[slot].stage.Refused? ==> after.entries[slot] == s.entries[slot])
  }

  ghost predicate BooksAdvance(b: Books, after: Books) {
    b.ledger <= after.ledger && ProposalsAdvance(b, after) && FinalTranchesStay(b, after)
  }

  ghost predicate Advances(s: System, after: System) {
    BooksAdvance(s.books, after.books) && EntriesSettle(s, after)
  }

  lemma {:induction false} EscrowAdvances(b: Books, amount: nat, key: string, eventId: string, at: int)
    ensures RecordEscrow(b, amount, key, eventId, at).Success? ==> BooksAdvance(b, RecordEscrow(b, amount, key, eventId, at).value)
  {
  }

  lemma {:induction false} ReleaseAdvances(b: Books, amount: nat, key: string, eventId: string, at: int, target: string)
    ensures ReleaseEscrow(b, amount, key, eventId, at, target).Success? ==> BooksAdvance(b, ReleaseEscrow(b, amount, key, eventId, at, target).value)
  {
  }

  lemma {:induction false} ArrivalAdvances(b: Books, a: Arrival, state: TrancheState, key: string, eventId: string, at: int)
    ensures RecordArrival(b, a, state, key, eventId, at).Success? ==> BooksAdvance(b, RecordArrival(b, a, state, key, eventId, at).value)
  {
  }

  lemma {:induction false} ReconcileAdvances(b: Books, id: string, key: string, eventId: string, at: int)
    ensures Reconcile(b, id, key, eventId, at).Success? ==> BooksAdvance(b, Reconcile(b, id, key, eventId, at).value)
  {
  }

  lemma {:induction false} ApprovalAdvances(b: Books, p: Proposal, hash: string, a: ApprovalRecord, eventId: string, at: int)
    ensures FinishApproval(b, p, hash, a, eventId, at).Success? ==> BooksAdvance(b, FinishApproval(b, p, hash, a, eventId, at).value)
  {
  }

  lemma {:induction false} ApplicationAdvances(b: Books, p: Proposal, hash: string, key: string, eventId: string, at: int)
    ensures FinishApplication(b, p, hash, key, eventId, at).Success? ==> BooksAdvance(b, FinishApplication(b, p, hash, key, eventId, at).value)
  {
  }

  lemma {:induction false} SettleAdvances(s: System, slot: Slot, r: Result<Books, TreasuryError>)
    requires slot in s.entries && (s.entries[slot].stage.Queued? || s.entries[slot].stage.Hashing?)
    requires r.Success? ==> BooksAdvance(s.books, r.value)
    ensures Advances(s, Settle(s, slot, r))
  {
    BooksStay(s.books);
  }

  lemma {:induction false} BooksStay(b: Books)
    ensures BooksAdvance(b, b)
  {
  }

  lemma {:induction false} RanAdvances(c: Config, s: System, slot: Slot)
    requires slot in s.entries
    ensures Advances(s, Ran(c, s, slot))
  {
    var e, b := s.entries[slot], s.books;
    BooksStay(b);
    if e.stage == Queued {
      match e.call {
        case EscrowCall(amount, eventId, at) =>
          EscrowAdvances(b, amount, slot.key, eventId, at);
          SettleAdvances(s, slot, RecordEscrow(b, amount, slot.key, eventId, at));
        case ReleaseCall(amount, eventId, at, target) =>
          ReleaseAdvances(b, amount, slot.key, eventId, at, target);
          SettleAdvances(s, slot, ReleaseEscrow(b, amount, slot.key, eventId, at, target));
        case ArrivalCall(a, eventId, at) =>
          if e.fingerprint.ArrivalPrint? {
            ArrivalAdvances(b, a, e.fingerprint.state, slot.key, eventId, at);
            SettleAdvances(s, slot, RecordArrival(b, a, e.fingerprint.state, slot.key, eventId, at));
          }
        case ReconcileCall(id, eventId, at) =>
          ReconcileAdvances(b, id, slot.key, eventId, at);
          SettleAdvances(s, slot, Reconcile(b, id, slot.key, eventId, at));
        case _ =>
      }
    }
  }

  lemma {:induction false} ResumedAdvances(c: Config, h: Payload -> string, s: System, slot: Slot)
    requires slot in s.entries
    ensures Advances(s, Resumed(c, h, s, slot))
  {
    var e, b := s.entries[slot], s.books;
    BooksStay(b);
    if e.stage.Hashing? {
      var current, hash := e.stage.current, h(IntentPayload(c, e.stage.current));
      if e.call.ApproveCall? {
        ApprovalAdvances(b, current, hash, e.call.approval, e.call.eventId, e.call.at);
        SettleAdvances(s, slot, FinishApproval(b, current, hash, e.call.approval, e.call.eventId, e.call.at));
      } else if e.call.ApplyCall? {
        ApplicationAdvances(b, current, hash, slot.key, e.call.eventId, e.call.at);
        SettleAdvances(s, slot, FinishApplication(b, current, hash, slot.key, e.call.eventId, e.call.at));
      }
    }
  }

  lemma {:induction false} NextAdvances(c: Config, h: Payload -> string, s: System, e: Event)
    requires Possible(s, e)
    ensures Advances(s, Next(c, h, s, e))
  {
    BooksStay(s.books);
    match e {
      case Propose(r) => if CreateProposal(c, s.books, r).Success? { CreatedProposal(c, s.books, r); }
      case Invoke(_, _, _) =>
      case Callback(slot) => RanAdvances(c, s, slot);
      case Resume(slot) => ResumedAdvances(c, h, s, slot);
    }
  }

  /** One event leads from the one system to the other. */
  ghost predicate Leads(c: Config, h: Payload -> string, s: System, t: System) {
    exists e :: Possible(s, e) && t == Next(c, h, s, e)
  }

  lemma {:induction false} LeadsAdvances(c: Config, h: Payload -> string, s: System, t: System)
    requires Leads(c, h, s, t)
    ensures Advances(s, t)
  {
    var e :| Possible(s, e) && t == Next(c, h, s, e);
    NextAdvances(c, h, s, e);
  }

  ghost predicate Linked(c: Config, h: Payload -> string, states: seq<System>) {
    forall n :: 0 < n < |states| ==> Leads(c, h, states[n - 1], states[n])
  }

  lemma {:induction false} RunIsLinked(c: Config, h: Payload -> string, initial: nat, ids: seq<string>, at: int, states: seq<System>, events: seq<Event>)
    requires Run(c, h, initial, ids, at, states, events)
    ensures Linked(c, h, states)
  {
    forall n | 0 < n < |states| ensures Leads(c, h, states[n - 1], states[n]) {
      assert Possible(states[n - 1], events[n - 1]) && states[n] == Next(c, h, states[n - 1], events[n - 1]);
    }
  }

  lemma {:induction false} AdvancesSelf(s: System)
    ensures Advances(s, s)
  {
  }

  lemma {:induction false} AdvancesCompose(r: System, s: System, t: System)
    requires Advances(r, s) && Advances(s, t)
    ensures Advances(r, t)
  {
    assert t.books.ledger[..|r.books.ledger|] == s.books.ledger[..|r.books.ledger|];
  }

  ghost predicate IsPreorder<T(!new)>(rel: (T, T) -> bool) {
    (forall x :: rel(x, x)) && (forall x, y, z :: rel(x, y) && rel(y, z) ==> rel(x, z))
  }

  /** A preorder that holds between neighbours holds along the whole sequence. */
  lemma {:induction false} AlongChain<T(!new)>(rel: (T, T) -> bool, xs: seq<T>, m: nat, n: nat)
    requires IsPreorder(rel) && m <= n < |xs| && forall k :: 0 < k < |xs| ==> rel(xs[k - 1], xs[k])
    ensures rel(xs[m], xs[n])
    decreases n
  {
    if m < n { AlongChain(rel, xs, m, n - 1); }
  }

  lemma {:induction false} AdvancesIsPreorder()
    ensures IsPreorder(Advances)
  {
    forall s ensures Advances(s, s) { AdvancesSelf(s); }
    forall r, s, t | Advances(r, s) && Advances(s, t) ensures Advances(r, t) { AdvancesCompose(r, s, t); }
  }

  lemma {:induction false} NeighboursAdvance(c: Config, h: Payload -> string, states: seq<System>)
    requires Linked(c, h, states)
    ensures forall k :: 0 < k < |states| ==> Advances(states[k - 1], states[k])
  {
    forall k | 0 < k < |states| ensures Advances(states[k - 1], states[k]) { LeadsAdvances(c, h, states[k - 1], states[k]); }
  }

  /**
   Along a run the ledger only grows, proposals keep their terms and move only from proposed to approved to applied,
   final tranches never change, and an idempotency entry that has settled stays as it is.
   */
  lemma {:induction false} RunAdvances(c: Config, h: Payload -> string, initial: nat, ids: seq<string>, at: int, states: seq<System>, events: seq<Event>, m: nat, n: nat)
    requires Run(c, h, initial, ids, at, states, events) && m <= n < |states|
    ensures Advances(states[m], states[n])
  {
    RunIsLinked(c, h, initial, ids, at, states, events);
    NeighboursAdvance(c, h, states);
    AdvancesIsPreorder();
    AlongChain(Advances, states, m, n);
  }

  // ----- each key acts once -----

  predicate Acts(e: Event, slot: Slot) {
    (e.Callback? || e.Resume?) && e.slot == slot
  }

  lemma {:induction false} ChangeSettles(c: Config, h: Payload -> string, s: System, e: Event, slot: Slot)
    requires Possible(s, e) && Acts(e, slot) && Next(c, h, s, e).books != s.books
    ensures slot in s.entries && (s.entries[slot].stage.Queued? || s.entries[slot].stage.Hashing?)
    ensures slot in Next(c, h, s, e).entries && Next(c, h, s, e).entries[slot].stage.Resolved?
  {
  }

  /** However often a key is used within its scope, its callback changes the books at most once. */
  lemma {:induction false} KeyActsOnce(c: Config, h: Payload -> string, initial: nat, ids: seq<string>, at: int, states: seq<System>, events: seq<Event>, m: nat, n: nat, slot: Slot)
    requires Run(c, h, initial, ids, at, states, events) && m < n < |events| && Acts(events[m], slot) && Acts(events[n], slot)
    requires states[m + 1].books != states[m].books
    ensures states[n + 1].books == states[n].books
  {
    ChangeSettles(c, h, states[m], events[m], slot);
    RunAdvances(c, h, initial, ids, at, states, events, m + 1, n);
    if states[n + 1].books != states[n].books { ChangeSettles(c, h, states[n], events[n], slot); }
  }

  function StatusOf(stage: Stage): Idempotency.Status<(), TreasuryError> {
    match stage
    case Queued => Idempotency.InFlight
    case Hashing(_) => Idempotency.InFlight
    case Resolved => Idempotency.Resolved(())
    case Refused(e) => Idempotency.Rejected(e)
  }

  /** What `execute` answers when a call reaches it with this fingerprint. */
  function AnswerTo(s: System, slot: Slot, mark: Fingerprint): Idempotency.Answer<(), TreasuryError> {
    Idempotency.Answered(if slot in s.entries then Some(Idempotency.Record(s.entries[slot].fingerprint, StatusOf(s.entries[slot].stage))) else None, mark)
  }

  /** Once a key has settled, every later use of it gets the same answer as the first one after that, and changes nothing. */
  lemma {:induction false} SettledKeyAnswersForever(c: Config, h: Payload -> string, initial: nat, ids: seq<string>, at: int, states: seq<System>, events: seq<Event>, m: nat, n: nat)
    requires Run(c, h, initial, ids, at, states, events) && m <= n < |events| && events[n].Invoke?
    requires var slot := Slot(ScopeOf(events[n].call), KeyOf(events[n].call, events[n].key));
             slot in states[m].entries && (states[m].entries[slot].stage.Resolved? || states[m].entries[slot].stage.Refused?)
    ensures states[n + 1] == states[n]
    ensures var slot := Slot(ScopeOf(events[n].call), KeyOf(events[n].call, events[n].key));
            forall mark :: AnswerTo(states[n], slot, mark) == AnswerTo(states[m], slot, mark) && !AnswerTo(states[n], slot, mark).Starts?
                           && !AnswerTo(states[n], slot, mark).Awaits?
  {
    RunAdvances(c, h, initial, ids, at, states, events, m, n);
    assert states[n + 1] == Invoked(c, states[n], events[n].call, events[n].key, events[n].actor);
  }

  // ----- the theorems -----

  /**
   Every reachable treasury has consistent books: `getSnapshot` never throws and shows what the ledger stands for; every
   reversal names one existing commitment, and no commitment is reversed by more than its amount.
   */
  lemma {:induction false} ReachableBooksAgree(c: Config, h: Payload -> string, initial: nat, ids: seq<string>, at: int, states: seq<System>, events: seq<Event>, n: nat)
    requires Run(c, h, initial, ids, at, states, events) && n < |states|
    ensures var b := states[n].books;
            && b.totalCapital == b.confirmed == Sum(b.ledger, ConfirmedOf)
            && b.escrowed == Sum(b.ledger, EscrowedOf) == Sum(b.ledger, HeldOf(b.ledger))
            && ReversalsGrounded(b.ledger) && NotOverReversed(b.ledger)
            && Allocated(b.reserves) == Sum(b.ledger, AllocationOf)
            && Allocated(b.reserves) + b.escrowed <= b.confirmed
            && Snapshot(b).Success?
  {
    RunKeepsInv(c, h, initial, ids, at, states, events, n);
    SnapshotNeverThrows(states[n].books);
  }

  /** Each reserve holds the sum of its shares of the applied proposals, and each proposal is applied at most once. */
  lemma {:induction false} ReservesHoldAppliedShares(c: Config, h: Payload -> string, initial: nat, ids: seq<string>, at: int, states: seq<System>, events: seq<Event>, n: nat, k: nat)
    requires Run(c, h, initial, ids, at, states, events) && n < |states| && k < |states[n].books.reserves|
    ensures var b := states[n].books; b.reserves[k].allocation == MapSum(b.proposals, AppliedShare(b.reserves[k].id))
  {
    RunKeepsInv(c, h, initial, ids, at, states, events, n);
  }

  /** Applying never fails with PROPOSAL_ALTERED, nor for a lost founder approval. */
  lemma {:induction false} ApplicationNeverAltered(c: Config, h: Payload -> string, initial: nat, ids: seq<string>, at: int, states: seq<System>, events: seq<Event>, n: nat, slot: Slot)
    requires Run(c, h, initial, ids, at, states, events) && n < |states| && slot in states[n].entries && states[n].entries[slot].call.ApplyCall?
    ensures states[n].entries[slot].stage != Refused(ProposalAltered) && states[n].entries[slot].stage != Refused(ApprovalMismatch)
  {
    RunKeepsInv(c, h, initial, ids, at, states, events, n);
    assert EntryOk(c, states[n].entries[slot]);
  }

  /** Confirmed capital is the initial capital and every reconciled tranche once; tranches have distinct transaction hashes. */
  lemma {:induction false} TranchesCreditedOnce(c: Config, h: Payload -> string, initial: nat, ids: seq<string>, at: int, states: seq<System>, events: seq<Event>, n: nat)
    requires Run(c, h, initial, ids, at, states, events) && n < |states|
    ensures var b := states[n].books;
            && b.confirmed == initial + MapSum(b.tranches, ReconciledAmount)
            && SettledOnce(b) && TranchesDistinct(b) && ProposalsFunded(b)
  {
    RunKeepsInv(c, h, initial, ids, at, states, events, n);
  }
}
