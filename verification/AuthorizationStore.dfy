/**
 The store as an object whose operations rewrite the persisted maps in place, each proved to have exactly
 the effect that module DurableStore specifies and to keep that module's invariant.
 */
module AuthorizationStore {
  import opened Wrappers
  import opened Records
  import opened DurableStore
  import opened DurableStoreProperties

  class FileTransferAuthorizationStore {
    var authorizations: map<string, Authorization>
    var resultHistory: map<string, seq<TransferResult>>
    var latestResultKey: Option<string>
    var reconciliations: seq<Reconciliation>
    var retryClaims: map<string, RetryClaim>

    function State(): DurableState
      reads this
    {
      DurableState(authorizations, resultHistory, latestResultKey, reconciliations, retryClaims)
    }

    ghost predicate Valid()
      reads this
    {
      Inv(State())
    }

    constructor ()
      ensures Valid() && State() == EMPTY_STATE
    {
      authorizations, resultHistory, latestResultKey, reconciliations, retryClaims := map[], map[], None, [], map[];
    }

    /** `Object.values(state.authorizations).find(...)` by idempotency key. */
    method FindAuthorization(key: string) returns (found: Option<Authorization>)
      requires Valid()
      ensures found == FindByKey(authorizations, key)
    {
      var unseen := authorizations.Keys;
      while unseen != {}
        invariant unseen <= authorizations.Keys
        invariant forall b :: HoldsKey(authorizations, b, key) ==> b in unseen
        decreases |unseen|
      {
        var b :| b in unseen;
        if authorizations[b].transaction.idempotencyKey == key {
          FindByKeyIs(authorizations, b, key);
          return Some(authorizations[b]);
        }
        unseen := unseen - {b};
      }
      return None;
    }

    method Persist(a: Authorization) returns (created: bool)
      requires Valid()
      modifies this`authorizations
      ensures Valid() && (State(), created) == DurableStore.Persist(old(State()), a)
    {
      PersistKeepsInv(State(), a);
      var sameKey := FindAuthorization(a.transaction.idempotencyKey);
      if sameKey.Some? || a.binding.id in authorizations {
        assert a.binding.id in authorizations ==> authorizations[a.binding.id].binding.id == a.binding.id;
        return false;
      }
      assert forall b :: b in authorizations ==> authorizations[b].binding.id == b;
      authorizations := authorizations[a.binding.id := a];
      return true;
    }

    method Load(i: Intent) returns (found: Option<Authorization>)
      requires Valid()
      ensures found == DurableStore.Load(State(), i)
      ensures found.Some? ==> found.value.binding.id == i.authorizationBindingId
    {
      if i.authorizationBindingId !in authorizations || !ReferencesMatch(authorizations[i.authorizationBindingId], i) {
        return None;
      }
      return Some(authorizations[i.authorizationBindingId]);
    }

    method Consume(i: Intent, expectedHash: string, asOf: int) returns (before: Option<Authorization>)
      requires Valid()
      modifies this`authorizations
      ensures Valid() && (State(), before) == DurableStore.Consume(old(State()), i, expectedHash, asOf)
    {
      ConsumeKeepsInv(State(), i, expectedHash, asOf);
      if !CanConsume(State(), i, expectedHash, asOf) {
        return None;
      }
      var a := authorizations[i.authorizationBindingId];
      var binding := a.binding.(status := Consumed, consumedAt := Some(asOf), consumedByTransactionId := Some(i.transactionRecordId));
      authorizations := authorizations[i.authorizationBindingId := a.(binding := binding)];
      return Some(a);
    }

    method RecordResult(r: TransferResult) returns (error: Option<StoreError>)
      requires Valid()
      modifies this`resultHistory, this`latestResultKey
      ensures Valid()
      ensures match error
              case None => DurableStore.RecordResult(old(State()), r) == Success(State())
              case Some(e) => DurableStore.RecordResult(old(State()), r) == Failure(e) && State() == old(State())
    {
      if r.idempotencyKey.None? || r.idempotencyKey.value == "" {
        return Some(KeyRequired);
      }
      var key := r.idempotencyKey.value;
      var history := Entries(resultHistory, key);
      var stored := FindAuthorization(key);
      match CanAppendResult(history, r, stored) {
        case Failure(e) => return Some(e);
        case Success(append) =>
          RecordKeepsInv(State(), r);
          if append {
            resultHistory, latestResultKey := resultHistory[key := history + [r]], Some(key);
          }
          return None;
      }
    }

    method ClaimPreSubmissionRetry(i: Intent, now: int, freshToken: string) returns (token: Option<string>)
      requires Valid()
      modifies this`retryClaims
      ensures Valid() && (State(), token) == ClaimRetry(old(State()), i, now, freshToken)
    {
      ClaimKeepsInv(State(), i, now, freshToken);
      if !CanClaim(State(), i, now) {
        return None;
      }
      var history := Entries(resultHistory, i.idempotencyKey);
      retryClaims := retryClaims[i.idempotencyKey :=
        RetryClaim(freshToken, i.proposalId, i.authorizationBindingId, now, Some(|history|), Last(history))];
      return Some(freshToken);
    }

    method CompletePreSubmissionRetryClaim(token: string, r: TransferResult) returns (error: Option<StoreError>)
      requires Valid()
      modifies this`resultHistory, this`latestResultKey, this`retryClaims
      ensures Valid()
      ensures match error
              case None => CompleteClaim(old(State()), token, r) == Success(State())
              case Some(e) => CompleteClaim(old(State()), token, r) == Failure(e) && State() == old(State())
    {
      if r.idempotencyKey.None? || r.idempotencyKey.value == "" {
        return Some(KeyRequired);
      }
      var key := r.idempotencyKey.value;
      var history := Entries(resultHistory, key);
      var stored := FindAuthorization(key);
      error := CompletionRefused(State(), token, r, stored);
      if error.Some? {
        return;
      }
      CompleteKeepsInv(State(), token, r);
      resultHistory, latestResultKey := resultHistory[key := history + [r]], Some(key);
      retryClaims := retryClaims - {key};
    }

    method RecordReconciliation(c: Reconciliation) returns (error: Option<StoreError>)
      requires Valid()
      modifies this`reconciliations
      ensures Valid()
      ensures match error
              case None => DurableStore.RecordReconciliation(old(State()), c) == Success(State())
              case Some(e) => DurableStore.RecordReconciliation(old(State()), c) == Failure(e) && State() == old(State())
    {
      var last := Last(Entries(resultHistory, c.idempotencyKey));
      if last.None? || !Evidences(last.value, c) {
        return Some(ConfirmationMismatch);
      }
      ReconcileKeepsInvIfAccepted(State(), c);
      match FindReconciliation(reconciliations, c.idempotencyKey) {
        case Some(existing) =>
          if existing.(reconciledAt := c.reconciledAt) != c { return Some(AlreadyRecorded); }
        case None =>
          reconciliations := reconciliations + [c];
      }
      return None;
    }
  }

  lemma ReconcileKeepsInvIfAccepted(s: DurableState, c: Reconciliation)
    requires Inv(s)
    ensures DurableStore.RecordReconciliation(s, c).Success? ==> Inv(DurableStore.RecordReconciliation(s, c).value)
  {
    if DurableStore.RecordReconciliation(s, c).Success? { ReconcileKeepsInv(s, c); }
  }
}
