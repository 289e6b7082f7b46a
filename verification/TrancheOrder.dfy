/**
 When incoming tranches move forward only: the callback that records an arrival re-reads the tranche but rules out only the
 two final states, so two overlapping calls can take a confirmed tranche back.
 */
module TrancheOrder {
  import opened Wrappers
  import opened Actors
  import opened Treasury
  import opened TreasuryRecords
  import opened TreasuryRuns

  // ----- arrivals that do not overlap -----

  /** An arrival of this tranche that was accepted, and whose callback has not run yet. */
  predicate Pending(s: System, slot: Slot, id: string) {
    && slot in s.entries && s.entries[slot].stage.Queued?
    && s.entries[slot].call.ArrivalCall? && s.entries[slot].call.arrival.trancheId == id
    && s.entries[slot].fingerprint.ArrivalPrint?
  }

  /** The state that the callback of a pending arrival will record. */
  function Claimed(s: System, slot: Slot): TrancheState
    requires slot in s.entries && s.entries[slot].fingerprint.ArrivalPrint?
  {
    s.entries[slot].fingerprint.state
  }

  ghost predicate NonePending(s: System, id: string) {
    forall slot :: !Pending(s, slot, id)
  }

  predicate InvokesArrival(e: Event, id: string) {
    e.Invoke? && e.call.ArrivalCall? && e.call.arrival.trancheId == id
  }

  /** From the first to the second state nobody calls `recordIncomingTranche` for this tranche while such a call is pending. */
  ghost predicate CallsSerially(states: seq<System>, events: seq<Event>, id: string, first: nat, second: nat) {
    && first <= second <= |events| && |events| < |states|
    && forall k :: first <= k < second && InvokesArrival(events[k], id) ==> NonePending(states[k], id)
  }

  /** The state of the tranche stays, follows the order of `allowedTransitions`, or goes from CONFIRMED to RECONCILED. */
  predicate MovesForward(b: Books, after: Books, id: string) {
    id in b.tranches ==>
      && id in after.tranches
      && var from, to := b.tranches[id].state, after.tranches[id].state;
         from == to || Allowed(from, to) || (from.ConfirmedState? && to.ReconciledState?)
  }

  /** What later evidence for a tranche may not change: the amount, the kind of transaction, a known hash, confirmed evidence, the job. */
  predicate SameEvidence(from: Tranche, to: Tranche) {
    && to.amount == from.amount && to.tx.operationType == from.tx.operationType && to.tx.isMock == from.tx.isMock
    && to.tx.network == from.tx.network && to.tx.chainId == from.tx.chainId
    && (from.tx.status.ConfirmedTx? ==> TxFingerprint(to.tx) == TxFingerprint(from.tx))
    && (from.tx.transactionHash.Some? ==> HashIdentity(to.tx.transactionHash) == HashIdentity(from.tx.transactionHash))
    && JobFingerprint(to.sourceJob) == JobFingerprint(from.sourceJob)
  }

  predicate KeepsEvidence(b: Books, after: Books, id: string) {
    id in b.tranches ==> id in after.tranches && SameEvidence(b.tranches[id], after.tranches[id])
  }

  /** The arrival of this entry is evidence that the tranche may be replaced by. */
  predicate InOrder(e: Entry, t: Tranche)
    requires e.call.ArrivalCall? && e.fingerprint.ArrivalPrint?
  {
    var a := e.call.arrival;
    Allowed(t.state, e.fingerprint.state) && SameEvidence(t, t.(amount := a.amount, tx := a.tx, sourceJob := a.sourceJob))
  }

  /** At most one arrival is pending, and the tranche may be replaced by its evidence, unless the tranche is final. */
  ghost predicate PendingInOrder(s: System, id: string) {
    && (forall slot, other :: Pending(s, slot, id) && Pending(s, other, id) ==> slot == other)
    && (forall slot :: Pending(s, slot, id) && id in s.books.tranches ==>
          Final(s.books.tranches[id]) || InOrder(s.entries[slot], s.books.tranches[id]))
  }

  lemma {:induction false} CheckedInOrder(c: Config, b: Books, a: Arrival)
    requires CheckArrival(c, b, a).Success? && a.trancheId in b.tranches
    ensures var t := b.tranches[a.trancheId];
            Allowed(t.state, CheckArrival(c, b, a).value) && SameEvidence(t, t.(amount := a.amount, tx := a.tx, sourceJob := a.sourceJob))
  {
  }

  lemma {:induction false} InvokedKeepsOrder(c: Config, s: System, call: Call, key: string, actor: Actor, id: string)
    requires PendingInOrder(s, id) && (InvokesArrival(Invoke(call, key, actor), id) ==> NonePending(s, id))
    ensures PendingInOrder(Invoked(c, s, call, key, actor), id) && Invoked(c, s, call, key, actor).books == s.books
  {
    var t, own := Invoked(c, s, call, key, actor), Slot(ScopeOf(call), KeyOf(call, key));
    forall slot | Pending(t, slot, id)
      ensures Pending(s, slot, id) || (slot == own && InvokesArrival(Invoke(call, key, actor), id))
      ensures id in s.books.tranches ==> Final(s.books.tranches[id]) || InOrder(t.entries[slot], s.books.tranches[id])
    {
      if !Pending(s, slot, id) && id in s.books.tranches { CheckedInOrder(c, s.books, call.arrival); }
    }
  }

  /** The tranche is the same as before, or it went from CONFIRMED to RECONCILED. */
  predicate KeptOrReconciled(b: Books, after: Books, id: string) {
    && (id in after.tranches <==> id in b.tranches)
    && (id in b.tranches ==>
          || after.tranches[id] == b.tranches[id]
          || (b.tranches[id].state.ConfirmedState?
              && after.tranches[id] == b.tranches[id].(state := ReconciledState, reconciledAt := after.tranches[id].reconciledAt)))
  }

  lemma {:induction false} OtherArrivalKeeps(b: Books, a: Arrival, state: TrancheState, key: string, eventId: string, at: int, id: string)
    requires a.trancheId != id && RecordArrival(b, a, state, key, eventId, at).Success?
    ensures KeptOrReconciled(b, RecordArrival(b, a, state, key, eventId, at).value, id)
  {
  }

  lemma {:induction false} ReconcileKeeps(b: Books, other: string, key: string, eventId: string, at: int, id: string)
    requires Reconcile(b, other, key, eventId, at).Success?
    ensures KeptOrReconciled(b, Reconcile(b, other, key, eventId, at).value, id)
  {
  }

  lemma {:induction false} EscrowKeeps(b: Books, amount: nat, key: string, eventId: string, at: int, target: string)
    ensures RecordEscrow(b, amount, key, eventId, at).Success? ==> RecordEscrow(b, amount, key, eventId, at).value.tranches == b.tranches
    ensures ReleaseEscrow(b, amount, key, eventId, at, target).Success? ==> ReleaseEscrow(b, amount, key, eventId, at, target).value.tranches == b.tranches
  {
  }

  /** Only the arrivals of a tranche can do more to it than reconcile it. */
  lemma {:induction false} TranchesElsewhere(c: Config, s: System, slot: Slot, id: string)
    requires slot in s.entries && !Pending(s, slot, id)
    ensures KeptOrReconciled(s.books, Ran(c, s, slot).books, id)
  {
    var e, b := s.entries[slot], s.books;
    if e.stage == Queued {
      match e.call {
        case EscrowCall(amount, eventId, at) => EscrowKeeps(b, amount, slot.key, eventId, at, "");
        case ReleaseCall(amount, eventId, at, target) => EscrowKeeps(b, amount, slot.key, eventId, at, target);
        case ArrivalCall(a, eventId, at) =>
          if e.fingerprint.ArrivalPrint? && RecordArrival(b, a, e.fingerprint.state, slot.key, eventId, at).Success? {
            OtherArrivalKeeps(b, a, e.fingerprint.state, slot.key, eventId, at, id);
          }
        case ReconcileCall(other, eventId, at) =>
          if Reconcile(b, other, slot.key, eventId, at).Success? { ReconcileKeeps(b, other, slot.key, eventId, at, id); }
        case _ =>
      }
    }
  }

  /** A callback leaves the other entries as they are, and its own is no longer queued. */
  lemma {:induction false} RanEntries(c: Config, s: System, slot: Slot, other: Slot, id: string)
    requires slot in s.entries
    ensures Pending(Ran(c, s, slot), other, id) ==> Pending(s, other, id) && Ran(c, s, slot).entries[other] == s.entries[other]
    ensures Pending(s, slot, id) ==> !Pending(Ran(c, s, slot), slot, id)
  {
  }

  /** The callback of a pending arrival in order moves the tranche forward and keeps its evidence, or changes nothing. */
  lemma {:induction false} ArrivesInOrder(c: Config, s: System, slot: Slot, id: string)
    requires Pending(s, slot, id)
    requires id in s.books.tranches ==> Final(s.books.tranches[id]) || InOrder(s.entries[slot], s.books.tranches[id])
    ensures MovesForward(s.books, Ran(c, s, slot).books, id) && KeepsEvidence(s.books, Ran(c, s, slot).books, id)
  {
  }

  lemma {:induction false} RanKeepsOrder(c: Config, s: System, slot: Slot, id: string)
    requires PendingInOrder(s, id) && slot in s.entries
    ensures PendingInOrder(Ran(c, s, slot), id)
    ensures MovesForward(s.books, Ran(c, s, slot).books, id) && KeepsEvidence(s.books, Ran(c, s, slot).books, id)
  {
    var t := Ran(c, s, slot);
    forall other | Pending(t, other, id) ensures Pending(s, other, id) && t.entries[other] == s.entries[other] && !Pending(s, slot, id) {
      RanEntries(c, s, slot, other, id);
      RanEntries(c, s, slot, slot, id);
    }
    if Pending(s, slot, id) { ArrivesInOrder(c, s, slot, id); } else { TranchesElsewhere(c, s, slot, id); }
  }

  lemma {:induction false} ResumedKeepsOrder(c: Config, h: Payload -> string, s: System, slot: Slot, id: string)
    requires PendingInOrder(s, id) && slot in s.entries
    ensures PendingInOrder(Resumed(c, h, s, slot), id) && Resumed(c, h, s, slot).books.tranches == s.books.tranches
  {
    var t := Resumed(c, h, s, slot);
    assert t.books.tranches == s.books.tranches;
    forall other | Pending(t, other, id) ensures Pending(s, other, id) && t.entries[other] == s.entries[other] {}
  }

  lemma {:induction false} ProposedKeepsOrder(c: Config, h: Payload -> string, s: System, r: Request, id: string)
    requires PendingInOrder(s, id)
    ensures var t := Next(c, h, s, Propose(r)); PendingInOrder(t, id) && t.books.tranches == s.books.tranches
  {
    var t := Next(c, h, s, Propose(r));
    if CreateProposal(c, s.books, r).Success? { CreatedProposal(c, s.books, r); }
    assert t.entries == s.entries && t.books.tranches == s.books.tranches;
    forall slot | Pending(t, slot, id) ensures Pending(s, slot, id) && t.entries[slot] == s.entries[slot] {}
  }

  lemma {:induction false} NextKeepsOrder(c: Config, h: Payload -> string, s: System, e: Event, id: string)
    requires PendingInOrder(s, id) && Possible(s, e) && (InvokesArrival(e, id) ==> NonePending(s, id))
    ensures PendingInOrder(Next(c, h, s, e), id)
    ensures MovesForward(s.books, Next(c, h, s, e).books, id) && KeepsEvidence(s.books, Next(c, h, s, e).books, id)
  {
    match e {
      case Propose(r) => ProposedKeepsOrder(c, h, s, r, id);
      case Invoke(call, key, actor) => InvokedKeepsOrder(c, s, call, key, actor, id);
      case Callback(slot) => RanKeepsOrder(c, s, slot, id);
      case Resume(slot) => ResumedKeepsOrder(c, h, s, slot, id);
    }
  }

  lemma {:induction false} SerialKeepsOrder(c: Config, h: Payload -> string, initial: nat, ids: seq<string>, openedAt: int,
      states: seq<System>, events: seq<Event>, id: string, first: nat, n: nat)
    requires Run(c, h, initial, ids, openedAt, states, events) && CallsSerially(states, events, id, first, n) && NonePending(states[first], id)
    ensures PendingInOrder(states[n], id)
    decreases n
  {
    if n > first {
      SerialKeepsOrder(c, h, initial, ids, openedAt, states, events, id, first, n - 1);
      NextKeepsOrder(c, h, states[n - 1], events[n - 1], id);
    }
  }

  /**
   As long as the calls that record arrivals of a tranche do not overlap, every event of the run, whatever else is pending
   or interleaved, moves the tranche forward and keeps its amount, its hash, its job and its confirmed evidence. A caller can
   see to that: at the start of a run, and whenever all earlier calls have settled, none is pending.
   */
  lemma {:induction false} SerialArrivalsMoveForward(c: Config, h: Payload -> string, initial: nat, ids: seq<string>, openedAt: int,
      states: seq<System>, events: seq<Event>, id: string, first: nat, n: nat)
    requires Run(c, h, initial, ids, openedAt, states, events) && first <= n < |events|
    requires NonePending(states[first], id) && CallsSerially(states, events, id, first, n + 1)
    ensures MovesForward(states[n].books, states[n + 1].books, id) && KeepsEvidence(states[n].books, states[n + 1].books, id)
  {
    SerialKeepsOrder(c, h, initial, ids, openedAt, states, events, id, first, n);
    NextKeepsOrder(c, h, states[n], events[n], id);
  }

  // ----- exactly when pending arrivals can move a tranche backward -----

  /** The books after these callbacks have run one after another. */
  function RanAll(c: Config, s: System, order: seq<Slot>): System {
    if order == [] then s else
      var before, last := RanAll(c, s, order[..|order| - 1]), order[|order| - 1];
      if last in before.entries then Ran(c, before, last) else before
  }

  predicate GoesBack(b: Books, after: Books, id: string) {
    && id in b.tranches && id in after.tranches && after.tranches[id].state != b.tranches[id].state
    && !Allowed(b.tranches[id].state, after.tranches[id].state)
  }

  /** One of these callbacks, run in this order, takes the tranche to a state that may not follow. */
  predicate MovesBackward(c: Config, s: System, order: seq<Slot>, id: string) {
    order != []
    && var init := order[..|order| - 1];
       MovesBackward(c, s, init, id) || GoesBack(RanAll(c, s, init).books, RanAll(c, s, order).books, id)
  }

  /** A pending arrival that its callback would not refuse as it stands. */
  predicate Recordable(s: System, slot: Slot, id: string) {
    && Pending(s, slot, id) && id != "" && slot.key != ""
    && s.entries[slot].call.eventId !in s.books.audit && !HashTaken(s.books, s.entries[slot].call.arrival)
  }

  /** A pending arrival claims a state that may not follow the one the tranche is in, or the one another pending arrival claims. */
  ghost predicate Conflict(s: System, id: string)
    requires id in s.books.tranches
  {
    exists e :: Recordable(s, e, id) && (!Allowed(s.books.tranches[id].state, Claimed(s, e)) || Overtakes(s, e, id))
  }

  ghost predicate Overtakes(s: System, e: Slot, id: string)
    requires Recordable(s, e, id)
  {
    exists f :: Recordable(s, f, id) && s.entries[f].call.eventId != s.entries[e].call.eventId
                && !Claimed(s, f).FailedState? && !Allowed(Claimed(s, f), Claimed(s, e))
  }

  ghost predicate AllPending(s: System, order: seq<Slot>, id: string) {
    forall k :: 0 <= k < |order| ==> Pending(s, order[k], id)
  }

  /** What running pending arrivals of one tranche leaves: only that tranche changes, to what the last recorded one claims. */
  ghost predicate RanOnly(s: System, t: System, id: string)
    requires id in s.books.tranches
  {
    && t.entries.Keys == s.entries.Keys
    && (forall slot :: slot in s.entries ==> t.entries[slot].call == s.entries[slot].call && t.entries[slot].fingerprint == s.entries[slot].fingerprint)
    && (forall eventId :: eventId in s.books.audit ==> eventId in t.books.audit)
    && t.books.tranches.Keys == s.books.tranches.Keys
    && (forall other :: other in s.books.tranches && other != id ==> t.books.tranches[other] == s.books.tranches[other])
    && (t.books.tranches[id] == s.books.tranches[id] || exists f :: LastRecorded(s, t, f, id))
  }

  ghost predicate LastRecorded(s: System, t: System, f: Slot, id: string)
    requires id in t.books.tranches
  {
    Recordable(s, f, id) && s.entries[f].call.eventId in t.books.audit && t.books.tranches[id].state == Claimed(s, f)
  }

  /** One more callback: it changes nothing but its entry, or it records an arrival that was recordable from the start. */
  lemma {:induction false} RanOneMore(c: Config, s: System, t: System, e: Slot, id: string)
    requires id in s.books.tranches && RanOnly(s, t, id) && Pending(s, e, id)
    ensures var u := Ran(c, t, e);
            u.books == t.books || (Recordable(s, e, id) && s.entries[e].call.eventId !in t.books.audit && !Final(t.books.tranches[id])
                                   && u.books.audit == t.books.audit + [s.entries[e].call.eventId]
                                   && u.books.tranches == t.books.tranches[id := u.books.tranches[id]] && u.books.tranches[id].state == Claimed(s, e))
    ensures Ran(c, t, e).entries.Keys == t.entries.Keys
    ensures forall slot :: slot in t.entries ==> Ran(c, t, e).entries[slot].call == t.entries[slot].call
                                                 && Ran(c, t, e).entries[slot].fingerprint == t.entries[slot].fingerprint
  {
    var a := s.entries[e].call.arrival;
    if HashTaken(s.books, a) {
      var other :| other in s.books.tranches && other != a.trancheId && SharesHash(s.books.tranches[other], a.tx.transactionHash);
      assert t.books.tranches[other] == s.books.tranches[other];
      assert HashTaken(t.books, a);
    }
  }

  lemma {:induction false} RanAllOnly(c: Config, s: System, order: seq<Slot>, id: string)
    requires id in s.books.tranches && AllPending(s, order, id)
    ensures RanOnly(s, RanAll(c, s, order), id)
  {
    if order != [] {
      var init, e := order[..|order| - 1], order[|order| - 1];
      RanAllOnly(c, s, init, id);
      var t := RanAll(c, s, init);
      RanOneMore(c, s, t, e, id);
      RanOnlyStep(s, t, Ran(c, t, e), e, id);
    }
  }

  lemma {:induction false} RanOnlyStep(s: System, t: System, u: System, e: Slot, id: string)
    requires id in s.books.tranches && RanOnly(s, t, id) && Pending(s, e, id) && u.entries.Keys == t.entries.Keys
    requires u.books == t.books || (Recordable(s, e, id) && u.books.audit == t.books.audit + [s.entries[e].call.eventId] && id in u.books.tranches
                                    && u.books.tranches == t.books.tranches[id := u.books.tranches[id]] && u.books.tranches[id].state == Claimed(s, e))
    requires forall slot :: slot in t.entries ==> u.entries[slot].call == t.entries[slot].call && u.entries[slot].fingerprint == t.entries[slot].fingerprint
    ensures RanOnly(s, u, id)
  {
    if u.books == t.books {
      if t.books.tranches[id] != s.books.tranches[id] {
        var f :| LastRecorded(s, t, f, id);
        assert LastRecorded(s, u, f, id);
      }
    } else {
      assert LastRecorded(s, u, e, id);
    }
  }

  lemma {:induction false} BackwardNeedsConflict(c: Config, s: System, order: seq<Slot>, id: string)
    requires id in s.books.tranches && AllPending(s, order, id) && MovesBackward(c, s, order, id)
    ensures Conflict(s, id)
  {
    var init, e := order[..|order| - 1], order[|order| - 1];
    if MovesBackward(c, s, init, id) {
      BackwardNeedsConflict(c, s, init, id);
    } else {
      RanAllOnly(c, s, init, id);
      var t := RanAll(c, s, init);
      RanOneMore(c, s, t, e, id);
      if t.books.tranches[id] != s.books.tranches[id] {
        var f :| LastRecorded(s, t, f, id);
        assert Overtakes(s, e, id);
      }
    }
  }

  lemma {:induction false} RecordableIsRecorded(c: Config, s: System, e: Slot, id: string)
    requires Recordable(s, e, id) && id in s.books.tranches && !Final(s.books.tranches[id])
    ensures var t := Ran(c, s, e);
            && t.books.audit == s.books.audit + [s.entries[e].call.eventId]
            && id in t.books.tranches && t.books.tranches[id].state == Claimed(s, e)
            && t.books.tranches == s.books.tranches[id := t.books.tranches[id]]
            && forall slot :: slot in s.entries && slot != e ==> slot in t.entries && t.entries[slot] == s.entries[slot]
  {
  }

  lemma {:induction false} StaysRecordable(s: System, t: System, e: Slot, id: string, recorded: string)
    requires Recordable(s, e, id) && id in s.books.tranches && id in t.books.tranches && e in t.entries && t.entries[e] == s.entries[e]
    requires t.books.audit == s.books.audit + [recorded] && recorded != s.entries[e].call.eventId
    requires t.books.tranches == s.books.tranches[id := t.books.tranches[id]]
    ensures Recordable(t, e, id)
  {
  }

  lemma {:induction false} ConflictMovesBackward(c: Config, s: System, id: string) returns (order: seq<Slot>)
    requires id in s.books.tranches && !Final(s.books.tranches[id]) && Conflict(s, id)
    requires forall slot :: Pending(s, slot, id) ==> !Claimed(s, slot).ReconciledState?
    ensures AllPending(s, order, id) && MovesBackward(c, s, order, id)
  {
    var e :| Recordable(s, e, id) && (!Allowed(s.books.tranches[id].state, Claimed(s, e)) || Overtakes(s, e, id));
    if !Allowed(s.books.tranches[id].state, Claimed(s, e)) {
      order := [e];
      RanOne(c, s, e);
      RecordableIsRecorded(c, s, e, id);
    } else {
      var f :| Recordable(s, f, id) && s.entries[f].call.eventId != s.entries[e].call.eventId
               && !Claimed(s, f).FailedState? && !Allowed(Claimed(s, f), Claimed(s, e));
      order := [f, e];
      var t := Ran(c, s, f);
      RecordableIsRecorded(c, s, f, id);
      StaysRecordable(s, t, e, id, s.entries[f].call.eventId);
      RecordableIsRecorded(c, t, e, id);
      RanOne(c, s, f);
      assert order[..1] == [f];
    }
  }

  lemma {:induction false} RanOne(c: Config, s: System, e: Slot)
    requires e in s.entries
    ensures RanAll(c, s, [e]) == Ran(c, s, e)
  {
    assert [e][..0] == [];
  }

  /**
   In a reachable treasury, the pending arrivals of a tranche that is not final can run in an order that moves it backward
   exactly when one of them claims a state that may not follow the current one or the one that another of them claims.
   */
  lemma {:induction false} SomeOrderMovesBackwardIff(c: Config, h: Payload -> string, initial: nat, ids: seq<string>, openedAt: int,
      states: seq<System>, events: seq<Event>, n: nat, id: string)
    requires Run(c, h, initial, ids, openedAt, states, events) && n < |states|
    requires id in states[n].books.tranches && !Final(states[n].books.tranches[id])
    ensures (exists order :: AllPending(states[n], order, id) && MovesBackward(c, states[n], order, id)) <==> Conflict(states[n], id)
  {
    var s := states[n];
    RunKeepsInv(c, h, initial, ids, openedAt, states, events, n);
    if Conflict(s, id) {
      assert forall slot :: Pending(s, slot, id) ==> EntryOk(c, s.entries[slot]);
      var order := ConflictMovesBackward(c, s, id);
    }
    if exists order :: AllPending(s, order, id) && MovesBackward(c, s, order, id) {
      var order :| AllPending(s, order, id) && MovesBackward(c, s, order, id);
      BackwardNeedsConflict(c, s, order, id);
    }
  }

  // ----- a run in which a tranche moves backward -----

  ghost predicate RunTo(c: Config, h: Payload -> string, states: seq<System>, events: seq<Event>, s: System) {
    Run(c, h, 0, [], 0, states, events) && states[|events|] == s
  }

  ghost predicate Reachable(c: Config, h: Payload -> string, s: System) {
    exists states, events :: RunTo(c, h, states, events, s)
  }

  lemma {:induction false} RunExtends(c: Config, h: Payload -> string, states: seq<System>, events: seq<Event>, e: Event, t: System)
    requires Run(c, h, 0, [], 0, states, events) && Possible(states[|events|], e) && t == Next(c, h, states[|events|], e)
    ensures Run(c, h, 0, [], 0, states + [t], events + [e])
  {
    var more, longer := states + [t], events + [e];
    assert forall n :: 0 <= n <= |events| ==> more[n] == states[n];
    assert forall n :: 0 <= n < |events| ==> longer[n] == events[n];
    assert more[|events| + 1] == t && longer[|events|] == e;
  }

  lemma {:induction false} Then(c: Config, h: Payload -> string, s: System, e: Event)
    requires Reachable(c, h, s) && Possible(s, e)
    ensures Reachable(c, h, Next(c, h, s, e))
  {
    var t := Next(c, h, s, e);
    var states, events :| RunTo(c, h, states, events, s);
    RunExtends(c, h, states, events, e, t);
    assert RunTo(c, h, states + [t], events + [e], t);
  }

  function Evidence(status: TxStatus): Arrival {
    Arrival("tranche", 5, TxRef("arc-testnet", "5042002", if status.PreparedTx? then None else Some("0xa"), status,
                                if status.ConfirmedTx? then Some("7") else None, if status.ConfirmedTx? then Some("0xb") else None,
                                None, SettlementTx, true, None), None)
  }

  function Recorded(status: TxStatus, state: TrancheState): Tranche {
    Tranche("tranche", 5, Evidence(status).tx, None, state, None, 1)
  }

  function Arriving(status: TxStatus): Call {
    ArrivalCall(Evidence(status), if status.PreparedTx? then "p" else if status.SubmittedTx? then "s" else "c", 1)
  }

  function EntryFor(c: Config, status: TxStatus, state: TrancheState, stage: Stage): Entry {
    Entry(ArrivalPrint("tranche", 5, Evidence(status).tx, None, c.operator, state), Arriving(status), stage)
  }

  function OpenBooks(): Books {
    Books(0, 0, 0, [], [LedgerEntry("ledger:seed-capital", CapitalEntry, None, 0, "seed:capital", 0, None)], map[], map[], ["audit:treasury-initialized"])
  }

  const KP := Slot(TrancheRecord, "p")
  const KS := Slot(TrancheRecord, "s")
  const KC := Slot(TrancheRecord, "c")

  /** The tranche is prepared; its submission and its confirmation have both been checked, but neither is recorded yet. */
  function BothChecked(c: Config): System {
    System(OpenBooks().(tranches := map["tranche" := Recorded(PreparedTx, PreparedState)], audit := ["audit:treasury-initialized", "p"]),
           map[KP := EntryFor(c, PreparedTx, PreparedState, Resolved), KS := EntryFor(c, SubmittedTx, SubmittedState, Queued),
               KC := EntryFor(c, ConfirmedTx, ConfirmedState, Queued)])
  }

  lemma {:induction false} CanBePrepared(c: Config, h: Payload -> string)
    requires c.mode.Mock?
    ensures Reachable(c, h, System(BothChecked(c).books, map[KP := EntryFor(c, PreparedTx, PreparedState, Resolved)]))
  {
    var s := System(OpenBooks(), map[]);
    assert Open(c, 0, [], 0).value == OpenBooks();
    assert RunTo(c, h, [s], [], s);
    Then(c, h, s, Invoke(Arriving(PreparedTx), "p", c.operator));
    s := System(OpenBooks(), map[KP := EntryFor(c, PreparedTx, PreparedState, Queued)]);
    Then(c, h, s, Callback(KP));
    assert Ran(c, s, KP) == System(BothChecked(c).books, map[KP := EntryFor(c, PreparedTx, PreparedState, Resolved)]);
  }

  lemma {:induction false} BothCanBeChecked(c: Config, h: Payload -> string)
    requires c.mode.Mock?
    ensures Reachable(c, h, BothChecked(c))
  {
    CanBePrepared(c, h);
    var s := System(BothChecked(c).books, map[KP := EntryFor(c, PreparedTx, PreparedState, Resolved)]);
    Then(c, h, s, Invoke(Arriving(SubmittedTx), "s", c.operator));
    s := s.(entries := s.entries[KS := EntryFor(c, SubmittedTx, SubmittedState, Queued)]);
    Then(c, h, s, Invoke(Arriving(ConfirmedTx), "c", c.operator));
    assert s.(entries := s.entries[KC := EntryFor(c, ConfirmedTx, ConfirmedState, Queued)]) == BothChecked(c);
  }

  /** The confirmation is recorded first and the submission after it: the tranche goes from CONFIRMED back to SUBMITTED. */
  lemma {:induction false} OverlappingArrivalsMoveBackward(c: Config, h: Payload -> string)
    requires c.mode.Mock?
    ensures exists s, e :: Reachable(c, h, s) && Possible(s, e)
              && "tranche" in s.books.tranches && s.books.tranches["tranche"].state == ConfirmedState
              && "tranche" in Next(c, h, s, e).books.tranches && Next(c, h, s, e).books.tranches["tranche"].state == SubmittedState
  {
    BothCanBeChecked(c, h);
    Then(c, h, BothChecked(c), Callback(KC));
    var s := Next(c, h, BothChecked(c), Callback(KC));
    assert s.books.tranches["tranche"].state == ConfirmedState;
    assert s.entries[KS] == EntryFor(c, SubmittedTx, SubmittedState, Queued);
    assert Next(c, h, s, Callback(KS)).books.tranches["tranche"].state == SubmittedState;
  }
}
