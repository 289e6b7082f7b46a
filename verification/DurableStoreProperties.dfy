/** What every run of the durable store keeps: append-only histories, absorbing states, claim fencing. */
module DurableStoreProperties {
  import opened Wrappers
  import opened Records
  import opened DurableStore

  // ----- the invariant -----

  ghost predicate Keyed(auths: map<string, Authorization>) {
    && (forall b :: b in auths ==> auths[b].binding.id == b)
    && (forall b, c, key :: HoldsKey(auths, b, key) && HoldsKey(auths, c, key) ==> b == c)
  }

  /** `next` may stand directly after position `i` of history `h`. */
  predicate LegalNext(h: seq<TransferResult>, i: nat, next: TransferResult)
    requires i < |h|
  {
    || next.status in Follows(h[i].status)
    || (h[i].status == Failed && next.status in {Prepared, Failed} && NoOperations(h[..i + 1]))
  }

  predicate LegalHistory(key: string, h: seq<TransferResult>) {
    && (forall i :: 0 <= i < |h| ==> h[i].idempotencyKey == Some(key))
    && (forall i :: 1 <= i < |h| ==> LegalNext(h, i - 1, h[i]))
  }

  /** A claim was taken on a FAILED entry with nothing submitted before it, for the authorization of its key. */
  ghost predicate ClaimGrounded(s: DurableState, key: string, c: RetryClaim) {
    && c.resultHistoryLength.Some? && 0 < c.resultHistoryLength.value <= |s.History(key)|
    && var n := c.resultHistoryLength.value;
    && c.failedResult == Some(s.History(key)[n - 1])
    && s.History(key)[n - 1].status == Failed
    && NoOperations(s.History(key)[..n])
    && HoldsKey(s.authorizations, c.authorizationBindingId, key)
  }

  ghost predicate ReconciliationGrounded(s: DurableState, c: Reconciliation) {
    Last(s.History(c.idempotencyKey)).Some? && Evidences(Last(s.History(c.idempotencyKey)).value, c)
  }

  ghost predicate HistoriesLegal(s: DurableState) {
    forall key :: key in s.resultHistory ==> s.resultHistory[key] != [] && LegalHistory(key, s.resultHistory[key])
  }

  ghost predicate ClaimsGrounded(s: DurableState) {
    forall key :: key in s.retryClaims ==> ClaimGrounded(s, key, s.retryClaims[key])
  }

  ghost predicate ReconciliationsGrounded(s: DurableState) {
    forall i :: 0 <= i < |s.reconciliations| ==> ReconciliationGrounded(s, s.reconciliations[i])
  }

  predicate OnePerKey(rs: seq<Reconciliation>) {
    forall i, j :: 0 <= i < j < |rs| ==> rs[i].idempotencyKey != rs[j].idempotencyKey
  }

  ghost predicate Inv(s: DurableState) {
    Keyed(s.authorizations) && HistoriesLegal(s) && ClaimsGrounded(s) && ReconciliationsGrounded(s) && OnePerKey(s.reconciliations)
  }

  // ----- lookups -----

  lemma {:induction false} FindByKeyIs(auths: map<string, Authorization>, b: string, key: string)
    requires Keyed(auths) && HoldsKey(auths, b, key)
    ensures FindByKey(auths, key) == Some(auths[b])
  {
  }

  lemma {:induction false} FindReconciliationIs(rs: seq<Reconciliation>, key: string)
    ensures match FindReconciliation(rs, key)
            case Some(c) => c in rs && c.idempotencyKey == key
            case None => forall i :: 0 <= i < |rs| ==> rs[i].idempotencyKey != key
  {
    if rs != [] && rs[0].idempotencyKey != key {
      FindReconciliationIs(rs[1..], key);
      forall i | 0 <= i < |rs| && FindReconciliation(rs, key).None? ensures rs[i].idempotencyKey != key {
        if i > 0 { assert rs[i] == rs[1..][i - 1]; }
      }
    }
  }

  // ----- one step -----

  /** What any later state keeps of an earlier one. */
  ghost predicate Grows(s: DurableState, t: DurableState) {
    && (forall b :: b in s.authorizations ==>
          && b in t.authorizations
          && Unconsumed(t.authorizations[b]) == Unconsumed(s.authorizations[b])
          && (t.authorizations[b] == s.authorizations[b] || s.authorizations[b].binding.status == Active))
    && (forall key :: s.History(key) <= t.History(key))
    && (forall key :: Last(s.History(key)).Some? && Last(s.History(key)).value.status == Confirmed ==> t.History(key) == s.History(key))
    && s.reconciliations <= t.reconciliations
  }

  lemma {:induction false} AppendKeepsLegal(key: string, h: seq<TransferResult>, r: TransferResult)
    requires LegalHistory(key, h) && r.idempotencyKey == Some(key)
    requires h != [] ==> LegalNext(h, |h| - 1, r)
    ensures LegalHistory(key, h + [r])
  {
    var g := h + [r];
    forall i | 1 <= i < |g| ensures LegalNext(g, i - 1, g[i]) {
      assert g[..i] == h[..i];
      if i < |h| { assert LegalNext(h, i - 1, h[i]); }
    }
  }

  lemma {:induction false} AppendKeepsClaims(s: DurableState, t: DurableState, key: string, r: TransferResult)
    requires ClaimsGrounded(s) && AppendsTo(s, t, key, r)
    ensures ClaimsGrounded(t)
  {
    forall k | k in t.retryClaims ensures ClaimGrounded(t, k, t.retryClaims[k]) {
      var c := s.retryClaims[k];
      assert ClaimGrounded(s, k, c);
      var n := c.resultHistoryLength.value;
      assert t.History(k)[..n] == s.History(k)[..n];
      assert t.History(k)[n - 1] == s.History(k)[n - 1];
    }
  }

  ghost predicate AppendsTo(s: DurableState, t: DurableState, key: string, r: TransferResult) {
    && t.resultHistory == s.resultHistory[key := s.History(key) + [r]]
    && t.authorizations == s.authorizations && t.reconciliations == s.reconciliations
    && (forall k :: k in t.retryClaims ==> k in s.retryClaims && t.retryClaims[k] == s.retryClaims[k])
    && r.idempotencyKey == Some(key)
    && (s.History(key) != [] ==> LegalNext(s.History(key), |s.History(key)| - 1, r))
  }

  lemma {:induction false} AppendKeepsHistories(s: DurableState, t: DurableState, key: string, r: TransferResult)
    requires HistoriesLegal(s) && AppendsTo(s, t, key, r)
    ensures HistoriesLegal(t)
  {
    AppendKeepsLegal(key, s.History(key), r);
  }

  lemma {:induction false} AppendKeepsReconciliations(s: DurableState, t: DurableState, key: string, r: TransferResult)
    requires ReconciliationsGrounded(s) && AppendsTo(s, t, key, r)
    ensures ReconciliationsGrounded(t)
  {
    forall i | 0 <= i < |t.reconciliations| ensures ReconciliationGrounded(t, t.reconciliations[i]) {
      assert ReconciliationGrounded(s, s.reconciliations[i]);
      assert s.reconciliations[i].idempotencyKey != key;
    }
  }

  lemma {:induction false} AppendGrows(s: DurableState, t: DurableState, key: string, r: TransferResult)
    requires AppendsTo(s, t, key, r)
    ensures Grows(s, t)
  {
    forall k ensures s.History(k) <= t.History(k) {}
    forall k | Last(s.History(k)).Some? && Last(s.History(k)).value.status == Confirmed ensures t.History(k) == s.History(k) {}
  }

  /** Appending one legal result keeps the invariant; a claim may be dropped with it. */
  lemma {:induction false} AppendKeepsInv(s: DurableState, key: string, r: TransferResult, t: DurableState)
    requires Inv(s) && AppendsTo(s, t, key, r)
    ensures Inv(t) && Grows(s, t)
  {
    AppendKeepsHistories(s, t, key, r);
    AppendKeepsClaims(s, t, key, r);
    AppendKeepsReconciliations(s, t, key, r);
    AppendGrows(s, t, key, r);
  }

  lemma {:induction false} PersistKeepsInv(s: DurableState, a: Authorization)
    requires Inv(s)
    ensures Inv(Persist(s, a).0) && Grows(s, Persist(s, a).0)
  {
    var t := Persist(s, a).0;
    if Persist(s, a).1 {
      assert a.binding.id !in s.authorizations;
      forall b, c, key | HoldsKey(t.authorizations, b, key) && HoldsKey(t.authorizations, c, key) ensures b == c {
        assert b in s.authorizations ==> HoldsKey(s.authorizations, b, key);
        assert c in s.authorizations ==> HoldsKey(s.authorizations, c, key);
      }
      ClaimsStayGrounded(s, t);
    }
  }

  lemma {:induction false} ClaimsStayGrounded(s: DurableState, t: DurableState)
    requires Inv(s) && t.resultHistory == s.resultHistory && t.reconciliations == s.reconciliations
    requires forall b, key :: HoldsKey(s.authorizations, b, key) ==> HoldsKey(t.authorizations, b, key)
    ensures forall key :: key in s.retryClaims ==> ClaimGrounded(t, key, s.retryClaims[key])
    ensures forall i :: 0 <= i < |t.reconciliations| ==> ReconciliationGrounded(t, t.reconciliations[i])
  {
    forall key | key in s.retryClaims ensures ClaimGrounded(t, key, s.retryClaims[key]) {
      assert ClaimGrounded(s, key, s.retryClaims[key]);
      assert t.History(key) == s.History(key);
    }
    forall i | 0 <= i < |t.reconciliations| ensures ReconciliationGrounded(t, t.reconciliations[i]) {
      assert ReconciliationGrounded(s, s.reconciliations[i]);
    }
  }

  lemma {:induction false} ConsumeKeepsInv(s: DurableState, i: Intent, hash: string, asOf: int)
    requires Inv(s)
    ensures Inv(Consume(s, i, hash, asOf).0) && Grows(s, Consume(s, i, hash, asOf).0)
  {
    var t := Consume(s, i, hash, asOf).0;
    forall b, key ensures HoldsKey(s.authorizations, b, key) <==> HoldsKey(t.authorizations, b, key) {}
    ClaimsStayGrounded(s, t);
  }

  lemma {:induction false} RecordKeepsInv(s: DurableState, r: TransferResult)
    requires Inv(s) && RecordResult(s, r).Success?
    ensures Inv(RecordResult(s, r).value) && Grows(s, RecordResult(s, r).value)
  {
    var key := r.idempotencyKey.value;
    var h := s.History(key);
    if CanAppendResult(h, r, FindByKey(s.authorizations, key)) == Success(true) {
      if h != [] { assert h[..|h|] == h; }
      AppendKeepsInv(s, key, r, RecordResult(s, r).value);
    }
  }

  lemma {:induction false} ClaimKeepsInv(s: DurableState, i: Intent, now: int, token: string)
    requires Inv(s)
    ensures Inv(ClaimRetry(s, i, now, token).0) && Grows(s, ClaimRetry(s, i, now, token).0)
  {
    var t := ClaimRetry(s, i, now, token).0;
    if CanClaim(s, i, now) {
      ClaimsStayGrounded(s, t);
      var h := s.History(i.idempotencyKey);
      assert h[..|h|] == h;
      assert HoldsKey(s.authorizations, i.authorizationBindingId, i.idempotencyKey);
      forall key | key in t.retryClaims ensures ClaimGrounded(t, key, t.retryClaims[key]) {}
    }
  }

  lemma {:induction false} CompleteKeepsInv(s: DurableState, token: string, r: TransferResult)
    requires Inv(s) && CompleteClaim(s, token, r).Success?
    ensures Inv(CompleteClaim(s, token, r).value) && Grows(s, CompleteClaim(s, token, r).value)
  {
    var key := r.idempotencyKey.value;
    var h := s.History(key);
    assert ClaimGrounded(s, key, s.retryClaims[key]);
    assert h[..|h|] == h;
    AppendKeepsInv(s, key, r, CompleteClaim(s, token, r).value);
  }

  lemma {:induction false} ReconcileKeepsInv(s: DurableState, c: Reconciliation)
    requires Inv(s) && RecordReconciliation(s, c).Success?
    ensures Inv(RecordReconciliation(s, c).value) && Grows(s, RecordReconciliation(s, c).value)
  {
    FindReconciliationIs(s.reconciliations, c.idempotencyKey);
    var t := RecordReconciliation(s, c).value;
    forall i | 0 <= i < |t.reconciliations| ensures ReconciliationGrounded(t, t.reconciliations[i]) {
      if i < |s.reconciliations| { assert ReconciliationGrounded(s, s.reconciliations[i]); }
    }
    forall key | key in s.retryClaims ensures ClaimGrounded(t, key, s.retryClaims[key]) {
      assert ClaimGrounded(s, key, s.retryClaims[key]);
    }
  }

  lemma {:induction false} GrowsSelf(s: DurableState)
    ensures Grows(s, s)
  {
  }

  /** Every locked operation, successful or not, keeps the invariant and only grows the state. */
  lemma {:induction false} StepKeepsInv(s: DurableState, op: StoreOp)
    requires Inv(s)
    ensures Inv(Apply(s, op)) && Grows(s, Apply(s, op))
  {
    GrowsSelf(s);
    match op
    case PersistOp(a) => PersistKeepsInv(s, a);
    case ConsumeOp(i, h, t) => ConsumeKeepsInv(s, i, h, t);
    case RecordOp(r) => if RecordResult(s, r).Success? { RecordKeepsInv(s, r); }
    case ClaimOp(i, now, token) => ClaimKeepsInv(s, i, now, token);
    case CompleteOp(token, r) => if CompleteClaim(s, token, r).Success? { CompleteKeepsInv(s, token, r); }
    case ReconcileOp(c) => if RecordReconciliation(s, c).Success? { ReconcileKeepsInv(s, c); }
  }

  // ----- whole runs -----

  lemma {:induction false} ReachableInv(ops: seq<StoreOp>)
    ensures Inv(After(ops))
  {
    if ops != [] {
      ReachableInv(ops[..|ops| - 1]);
      StepKeepsInv(After(ops[..|ops| - 1]), ops[|ops| - 1]);
    }
  }

  lemma {:induction false} GrowsTransitive(s: DurableState, t: DurableState, u: DurableState)
    requires Grows(s, t) && Grows(t, u)
    ensures Grows(s, u)
  {
    forall key ensures s.History(key) <= u.History(key) {
      assert s.History(key) <= t.History(key) <= u.History(key);
    }
    forall key | Last(s.History(key)).Some? && Last(s.History(key)).value.status == Confirmed
      ensures u.History(key) == s.History(key)
    {
      assert t.History(key) == s.History(key);
    }
  }

  /** Histories are append-only, CONFIRMED is absorbing and authorizations keep their fields over any run. */
  lemma {:induction false} RunGrows(ops: seq<StoreOp>, n: nat)
    requires n <= |ops|
    ensures Grows(After(ops[..n]), After(ops))
    decreases |ops|
  {
    if n == |ops| {
      assert ops[..n] == ops;
    } else {
      var init := ops[..|ops| - 1];
      assert init[..n] == ops[..n];
      RunGrows(init, n);
      ReachableInv(init);
      StepKeepsInv(After(init), ops[|ops| - 1]);
      GrowsTransitive(After(ops[..n]), After(init), After(ops));
    }
  }

  ghost predicate AppendsAtMostOne(s: DurableState, t: DurableState, key: string) {
    || t.History(key) == s.History(key)
    || exists r :: t.History(key) == s.History(key) + [r] && LegalAppend(s, key, r)
  }

  lemma {:induction false} RecordAppendsOne(s: DurableState, r: TransferResult, key: string)
    requires Inv(s) && RecordResult(s, r).Success?
    ensures AppendsAtMostOne(s, RecordResult(s, r).value, key)
  {
    var h := s.History(key);
    var t := RecordResult(s, r).value;
    if t != s && r.idempotencyKey == Some(key) {
      assert h[..|h|] == h;
      assert LegalAppend(s, key, r);
      assert t.History(key) == h + [r];
    } else {
      assert t.History(key) == h;
    }
  }

  lemma {:induction false} CompleteAppendsOne(s: DurableState, token: string, r: TransferResult, key: string)
    requires Inv(s) && CompleteClaim(s, token, r).Success?
    ensures AppendsAtMostOne(s, CompleteClaim(s, token, r).value, key)
  {
    var h := s.History(key);
    var t := CompleteClaim(s, token, r).value;
    if r.idempotencyKey == Some(key) {
      assert ClaimGrounded(s, key, s.retryClaims[key]);
      assert h[..|h|] == h;
      assert LegalAppend(s, key, r);
      assert t.History(key) == h + [r];
    } else {
      assert t.History(key) == h;
    }
  }

  /** A step lengthens a history by at most one result, and only in a way the store's rules allow. */
  lemma {:induction false} StepAppendsOne(s: DurableState, op: StoreOp, key: string)
    requires Inv(s)
    ensures AppendsAtMostOne(s, Apply(s, op), key)
  {
    match op {
      case RecordOp(r) => if RecordResult(s, r).Success? { RecordAppendsOne(s, r, key); }
      case CompleteOp(token, r) => if CompleteClaim(s, token, r).Success? { CompleteAppendsOne(s, token, r, key); }
      case _ =>
    }
  }

  /** A PREPARED after other results is a retry: nothing was ever submitted and the approval is still unused. */
  ghost predicate LegalAppend(s: DurableState, key: string, r: TransferResult) {
    var h := s.History(key);
    h != [] ==>
      && LegalNext(h, |h| - 1, r)
      && (r.status == Prepared ==>
            && NoOperations(h) && h[|h| - 1].status == Failed
            && FindByKey(s.authorizations, key).Some? && FindByKey(s.authorizations, key).value.binding.status == Active)
  }

  /** Once a reconciliation is stored it stays, it is the only one of its key, and it always agrees with the last result. */
  lemma {:induction false} ReconciliationAgreesForever(ops: seq<StoreOp>, n: nat, c: Reconciliation)
    requires n <= |ops| && c in After(ops[..n]).reconciliations
    ensures c in After(ops).reconciliations
    ensures Last(After(ops).History(c.idempotencyKey)).Some? && Evidences(Last(After(ops).History(c.idempotencyKey)).value, c)
    ensures forall d :: d in After(ops).reconciliations && d.idempotencyKey == c.idempotencyKey ==> d == c
  {
    RunGrows(ops, n);
    ReachableInv(ops);
    var s, t := After(ops[..n]), After(ops);
    var i :| 0 <= i < |s.reconciliations| && s.reconciliations[i] == c;
    assert t.reconciliations[i] == c;
    assert ReconciliationGrounded(t, t.reconciliations[i]);
    forall d | d in t.reconciliations && d.idempotencyKey == c.idempotencyKey ensures d == c {
      var j :| 0 <= j < |t.reconciliations| && t.reconciliations[j] == d;
      assert !(i < j) && !(j < i);
    }
  }

  // ----- a FAILED end of a used approval -----

  /** The history of this approval's key ends with FAILED, and the approval can no longer be used. */
  ghost predicate FailedForGood(s: DurableState, b: string, key: string) {
    && HoldsKey(s.authorizations, b, key) && s.authorizations[b].binding.status != Active
    && Last(s.History(key)).Some? && Last(s.History(key)).value.status == Failed
  }

  lemma {:induction false} RecordKeepsFailure(s: DurableState, r: TransferResult, b: string, key: string)
    requires Inv(s) && FailedForGood(s, b, key) && RecordResult(s, r).Success?
    ensures RecordResult(s, r).value.History(key) == s.History(key)
  {
    FindByKeyIs(s.authorizations, b, key);
  }

  lemma {:induction false} CompleteKeepsFailure(s: DurableState, token: string, r: TransferResult, b: string, key: string)
    requires Inv(s) && FailedForGood(s, b, key) && CompleteClaim(s, token, r).Success?
    ensures CompleteClaim(s, token, r).value.History(key) == s.History(key)
  {
    FindByKeyIs(s.authorizations, b, key);
  }

  lemma {:induction false} FailureGrows(s: DurableState, t: DurableState, b: string, key: string)
    requires Grows(s, t) && FailedForGood(s, b, key) && t.History(key) == s.History(key)
    ensures FailedForGood(t, b, key)
  {
    assert Unconsumed(t.authorizations[b]).transaction == Unconsumed(s.authorizations[b]).transaction;
  }

  /** Only recorded and completed results touch a history. */
  lemma {:induction false} OthersKeepHistories(s: DurableState, op: StoreOp)
    requires !op.RecordOp? && !op.CompleteOp?
    ensures Apply(s, op).resultHistory == s.resultHistory
  {
  }

  lemma {:induction false} FailureKept(s: DurableState, op: StoreOp, b: string, key: string)
    requires Inv(s) && FailedForGood(s, b, key)
    ensures Apply(s, op).History(key) == s.History(key)
  {
    if op.RecordOp? {
      if RecordResult(s, op.r).Success? { RecordKeepsFailure(s, op.r, b, key); }
    } else if op.CompleteOp? {
      if CompleteClaim(s, op.token, op.r).Success? { CompleteKeepsFailure(s, op.token, op.r, b, key); }
    } else {
      OthersKeepHistories(s, op);
    }
  }

  /** No operation of the store ever adds anything to such a history. */
  lemma {:induction false} FailureStays(s: DurableState, op: StoreOp, b: string, key: string)
    requires Inv(s) && FailedForGood(s, b, key)
    ensures Apply(s, op).History(key) == s.History(key) && FailedForGood(Apply(s, op), b, key)
  {
    StepKeepsInv(s, op);
    FailureKept(s, op, b, key);
    FailureGrows(s, Apply(s, op), b, key);
  }

  /** FAILED is absorbing over any run once the approval is used. */
  lemma {:induction false} FailureIsFinal(ops: seq<StoreOp>, n: nat, b: string, key: string)
    requires n <= |ops| && FailedForGood(After(ops[..n]), b, key)
    ensures After(ops).History(key) == After(ops[..n]).History(key) && FailedForGood(After(ops), b, key)
    decreases |ops|
  {
    if n == |ops| {
      assert ops[..n] == ops;
    } else {
      var init := ops[..|ops| - 1];
      assert init[..n] == ops[..n];
      FailureIsFinal(init, n, b, key);
      ReachableInv(init);
      FailureStays(After(init), ops[|ops| - 1], b, key);
    }
  }

  // ----- retry-claim fencing -----

  ghost predicate TokenStored(s: DurableState, token: string) {
    exists key :: key in s.retryClaims && s.retryClaims[key].claimToken == token
  }

  /** `randomUUID`: no two claims of a run draw the same token. */
  predicate FreshTokens(ops: seq<StoreOp>) {
    forall i, j :: 0 <= i < j < |ops| && ops[i].ClaimOp? && ops[j].ClaimOp? ==> ops[i].token != ops[j].token
  }

  lemma {:induction false} TokensComeFromClaims(s: DurableState, op: StoreOp, token: string)
    requires TokenStored(Apply(s, op), token)
    ensures TokenStored(s, token) || (op.ClaimOp? && op.token == token)
  {
    var t := Apply(s, op);
    var key :| key in t.retryClaims && t.retryClaims[key].claimToken == token;
    assert (key in s.retryClaims && s.retryClaims[key] == t.retryClaims[key]) || (op.ClaimOp? && op.token == token);
  }

  /** Once a drawn token is no longer stored, whether completed or taken over, it is never stored again. */
  lemma {:induction false} DisplacedTokenStaysOut(ops: seq<StoreOp>, issued: nat, n: nat, token: string)
    requires issued < n <= |ops| && FreshTokens(ops)
    requires ops[issued].ClaimOp? && ops[issued].token == token
    requires !TokenStored(After(ops[..n]), token)
    ensures !TokenStored(After(ops), token)
    decreases |ops|
  {
    if n == |ops| {
      assert ops[..n] == ops;
    } else {
      var init := ops[..|ops| - 1];
      assert init[..n] == ops[..n];
      DisplacedTokenStaysOut(init, issued, n, token);
      if TokenStored(After(ops), token) {
        TokensComeFromClaims(After(init), ops[|ops| - 1], token);
      }
    }
  }

  /** A displaced token can never complete its claim: the store refuses it and keeps its state. */
  lemma {:induction false} DisplacedTokenCannotComplete(ops: seq<StoreOp>, issued: nat, n: nat, token: string, r: TransferResult)
    requires issued < n <= |ops| && FreshTokens(ops)
    requires ops[issued].ClaimOp? && ops[issued].token == token
    requires !TokenStored(After(ops[..n]), token)
    ensures CompleteClaim(After(ops), token, r).Failure?
    ensures Apply(After(ops), CompleteOp(token, r)) == After(ops)
  {
    DisplacedTokenStaysOut(ops, issued, n, token);
  }

  /** The n-th operation of a run took the claim that is stored under this key now, and nothing replaced or completed it since. */
  ghost predicate TookClaim(ops: seq<StoreOp>, n: nat, key: string)
    requires key in After(ops).retryClaims
  {
    && n < |ops| && ops[n].ClaimOp? && ops[n].i.idempotencyKey == key
    && CanClaim(After(ops[..n]), ops[n].i, ops[n].now)
    && After(ops).retryClaims[key] == TakenClaim(After(ops[..n]), ops[n])
    && forall m :: n < m <= |ops| ==> key in After(ops[..m]).retryClaims && After(ops[..m]).retryClaims[key] == After(ops).retryClaims[key]
  }

  /** The claim that a successful `ClaimOp` stores. */
  function TakenClaim(s: DurableState, op: StoreOp): RetryClaim
    requires op.ClaimOp?
  {
    var h := s.History(op.i.idempotencyKey);
    RetryClaim(op.token, op.i.proposalId, op.i.authorizationBindingId, op.now, Some(|h|), Last(h))
  }

  lemma {:induction false} ClaimsComeFromClaimOps(s: DurableState, op: StoreOp, key: string)
    requires key in Apply(s, op).retryClaims
    ensures || (key in s.retryClaims && Apply(s, op).retryClaims[key] == s.retryClaims[key])
            || (op.ClaimOp? && op.i.idempotencyKey == key && CanClaim(s, op.i, op.now) && Apply(s, op).retryClaims[key] == TakenClaim(s, op))
  {
  }

  /** Every stored claim was taken by one operation of the run and has been stored ever since. */
  lemma {:induction false} ClaimWasTaken(ops: seq<StoreOp>, key: string) returns (n: nat)
    requires key in After(ops).retryClaims
    ensures TookClaim(ops, n, key)
    decreases |ops|
  {
    var last := |ops| - 1;
    var init, op := ops[..last], ops[last];
    ClaimsComeFromClaimOps(After(init), op, key);
    assert ops[..|ops|] == ops;
    if key in After(init).retryClaims && After(ops).retryClaims[key] == After(init).retryClaims[key] {
      n := ClaimWasTaken(init, key);
      assert init[..n] == ops[..n];
      forall m | n < m <= |ops| ensures key in After(ops[..m]).retryClaims && After(ops[..m]).retryClaims[key] == After(ops).retryClaims[key] {
        if m < |ops| { assert init[..m] == ops[..m]; }
      }
    } else {
      n := last;
    }
  }

  /**
   Fencing over whole runs: a stored claim can be taken over only if the operation that took it was at least 30 s before,
   the claim has stood untouched since, and nothing whatever was recorded under the key in between.
   */
  lemma {:induction false} TakeoverOnlyAfterLease(ops: seq<StoreOp>, i: Intent, now: int)
    requires i.idempotencyKey in After(ops).retryClaims && CanClaim(After(ops), i, now)
    ensures exists n: nat :: TookClaim(ops, n, i.idempotencyKey) && ops[n].now + 30_000 <= now
              && forall m :: n <= m <= |ops| ==> After(ops[..m]).History(i.idempotencyKey) == After(ops).History(i.idempotencyKey)
  {
    var key := i.idempotencyKey;
    var n := ClaimWasTaken(ops, key);
    forall m | n <= m <= |ops| ensures After(ops[..m]).History(key) == After(ops).History(key) {
      RunGrows(ops, m);
      RunGrows(ops[..m], n);
      assert ops[..m][..n] == ops[..n];
    }
  }

  /** Two completions of one key append at different lengths, so each FAILED end receives at most one claimed result. */
  lemma {:induction false} OneCompletionPerEnd(ops: seq<StoreOp>, i: nat, j: nat, key: string)
    requires i < j < |ops|
    requires ops[i].CompleteOp? && CompleteClaim(After(ops[..i]), ops[i].token, ops[i].r).Success? && ops[i].r.idempotencyKey == Some(key)
    requires ops[j].CompleteOp? && CompleteClaim(After(ops[..j]), ops[j].token, ops[j].r).Success? && ops[j].r.idempotencyKey == Some(key)
    ensures |After(ops[..i]).History(key)| < |After(ops[..j]).History(key)|
    ensures After(ops[..j]).History(key)[|After(ops[..i]).History(key)|] == ops[i].r
  {
    var s := After(ops[..i]);
    assert ops[..i + 1][..i] == ops[..i];
    assert After(ops[..i + 1]) == Apply(s, ops[i]);
    assert After(ops[..i + 1]).History(key) == s.History(key) + [ops[i].r];
    assert ops[..j][..i + 1] == ops[..i + 1];
    RunGrows(ops[..j], i + 1);
    assert s.History(key) + [ops[i].r] <= After(ops[..j]).History(key);
  }

  /** At most one token per key, and a claim on the current length names the current last result. */
  lemma {:induction false} ClaimDescribesEnd(ops: seq<StoreOp>, key: string)
    requires key in After(ops).retryClaims
    ensures var c := After(ops).retryClaims[key];
            var h := After(ops).History(key);
            && c.failedResult.Some? && c.failedResult.value.status == Failed && c.failedResult.value in h
            && (c.resultHistoryLength == Some(|h|) ==> Last(h) == c.failedResult && NoOperations(h))
  {
    ReachableInv(ops);
    var s := After(ops);
    assert ClaimGrounded(s, key, s.retryClaims[key]);
    assert s.History(key)[..|s.History(key)|] == s.History(key);
  }
}
