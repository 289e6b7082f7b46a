/** Recovering a missing receipt: who can close the gap, what else it changes, and what a replay does to the audit log. */
module ProofRecovery {
  import opened Wrappers
  import opened Sorting
  import opened Actors
  import opened Milestones
  import opened Evidence
  import opened EvidenceProperties

  datatype AuditEvent = AuditEvent(id: string, aggregateType: string, aggregateId: string, eventType: string, actor: Actor, idempotencyKey: Option<string>,
                                   occurredAt: int, details: map<string, string>)

  datatype RecoveryError = EvaluationFails(error: EvidenceError) | NotTheCurrentGap | NotAnExpenseGap | WrongReceipt | WrongMatch | WrongActor
                         | WrongHash | ConflictingEvent | TooEarly | GapNotCleared

  datatype Recovery = Recovery(input: EvidenceInput, evaluation: Evaluation, originalGap: ProofGap, resolvedGap: ProofGap, auditEvents: seq<AuditEvent>)

  datatype Attempt = Attempt(input: EvidenceInput, gap: ProofGap, receipt: EvidenceItem, match_: EvidenceMatch, actor: Actor, resolvedAt: int)

  function RecoveryEvent(a: Attempt): AuditEvent {
    AuditEvent("audit:" + a.gap.id + ":" + a.receipt.id, "PROOF_GAP", a.gap.id, "PROOF_RECOVERY_ACCEPTED", a.actor,
               Some("recovery:" + a.gap.id + ":" + a.receipt.id), a.resolvedAt,
               map["proofGapId" := a.gap.id, "requirementId" := a.gap.requirementId, "acceptedMatchId" := a.match_.id,
                   "evidenceId" := a.receipt.id, "evidenceHash" := a.receipt.sourceHash, "resolution" := "ADDITIONAL_RECEIPT_ACCEPTED"])
  }

  /** An event of the log that claims the same gap, event id or idempotency key. */
  predicate Collides(a: Attempt, e: AuditEvent) {
    || (e.aggregateType == "PROOF_GAP" && e.aggregateId == a.gap.id && e.eventType == "PROOF_RECOVERY_ACCEPTED")
    || e.id == RecoveryEvent(a).id
    || e.idempotencyKey == RecoveryEvent(a).idempotencyKey
  }

  predicate Conflicts(a: Attempt, log: seq<AuditEvent>) {
    exists k :: 0 <= k < |log| && Collides(a, log[k]) && log[k] != RecoveryEvent(a)
  }

  predicate IsRetry(a: Attempt, log: seq<AuditEvent>) {
    exists k :: 0 <= k < |log| && Collides(a, log[k])
  }

  predicate LaterThan(log: seq<AuditEvent>, at: int) {
    exists k :: 0 <= k < |log| && log[k].occurredAt > at
  }

  function RecoveredInput(a: Attempt): EvidenceInput {
    a.input.(items := a.input.items + [a.receipt], matches := a.input.matches + [a.match_], evaluatedAt := a.resolvedAt)
  }

  predicate HasGap(gaps: seq<ProofGap>, id: string) {
    exists k :: 0 <= k < |gaps| && gaps[k].id == id
  }

  /** The checks before the recovered input is evaluated, `current` being the evaluation of the input as it is. */
  function CheckAttempt(a: Attempt, log: seq<AuditEvent>, current: Result<EvidenceResult, EvidenceError>): Check<RecoveryError> {
    var x := a.input;
    var requirement := FindRequirement(x.requirements, a.gap.requirementId);
    if current.Failure? then Thrown(EvaluationFails(current.error))
    else if a.gap.resolvedAt.Some? || current.value.gaps != [a.gap] then Thrown(NotTheCurrentGap)
    else if requirement.None? || !requirement.value.kind.ExpenseRecords? then Thrown(NotAnExpenseGap)
    else if a.receipt.projectId != x.milestone.projectId || !a.receipt.kind.Receipt? then Thrown(WrongReceipt)
    else if !a.match_.HumanDecision? || a.match_.evidenceId != a.receipt.id || a.match_.requirementId != a.gap.requirementId then Thrown(WrongMatch)
    else if a.match_.acceptedBy != a.actor then Thrown(WrongActor)
    else if a.match_.acceptedEvidenceHash != a.receipt.sourceHash then Thrown(WrongHash)
    else if Conflicts(a, log) then Thrown(ConflictingEvent)
    else Need(a.resolvedAt >= x.evaluatedAt && a.resolvedAt >= a.receipt.submittedAt && (IsRetry(a, log) || !LaterThan(log, a.resolvedAt)), TooEarly)
  }

  /** What the recovery returns, given the evaluations before and after it. */
  function RecoverWith(a: Attempt, log: seq<AuditEvent>, current: Result<EvidenceResult, EvidenceError>, recovered: Result<EvidenceResult, EvidenceError>)
    : Result<Recovery, RecoveryError>
  {
    var retry := IsRetry(a, log);
    :- CheckAttempt(a, log, current);
    match recovered
    case Failure(e) => Failure(EvaluationFails(e))
    case Success(r) =>
      if HasGap(r.gaps, a.gap.id) then Failure(GapNotCleared)
      else Success(Recovery(RecoveredInput(a), r.evaluation, a.gap, a.gap.(resolvedAt := Some(a.resolvedAt)),
                            if retry then log else log + [RecoveryEvent(a)]))
  }

  /** `applyMissingReceiptRecovery`. */
  ghost function Recover(a: Attempt, log: seq<AuditEvent>): Result<Recovery, RecoveryError> {
    RecoverWith(a, log, EvaluateEvidence(a.input), EvaluateEvidence(RecoveredInput(a)))
  }

  // ----- what the new receipt leaves alone -----

  /** The evaluated inputs before and after a recovery. */
  ghost predicate Evaluated(a: Attempt) {
    && EvaluateEvidence(a.input).Success? && EvaluateEvidence(RecoveredInput(a)).Success?
    && a.match_.HumanDecision? && a.match_.evidenceId == a.receipt.id
  }

  lemma {:induction false} BothBounded(a: Attempt)
    requires Evaluated(a)
    ensures Boundary(a.input) && Boundary(RecoveredInput(a)) && RequirementSet(a.input.milestone, a.input.requirements)
    ensures Findings(a.input).Success? && Findings(RecoveredInput(a)).Success?
  {
    EvaluationIs(a.input);
    EvaluationIs(RecoveredInput(a));
  }

  lemma {:induction false} ReceiptIsNew(a: Attempt)
    requires Evaluated(a)
    ensures a.receipt.id !in Keys(a.input.items, ItemId)
  {
    BothBounded(a);
    var items := RecoveredInput(a).items;
    assert items[..|a.input.items|] == a.input.items && items[..|items|] == items;
    KeysStep(items, |a.input.items|, ItemId);
  }

  lemma {:induction false} FindExtends(a: Attempt, id: string)
    ensures Find(RecoveredInput(a).items, id) == if id == a.receipt.id then Some(a.receipt) else Find(a.input.items, id)
  {
    var items := RecoveredInput(a).items;
    assert items[..|items| - 1] == a.input.items;
  }

  lemma {:induction false} OldMatchesInside(a: Attempt, m: EvidenceMatch)
    requires Evaluated(a) && m in a.input.matches
    ensures m.evidenceId != a.receipt.id && Find(RecoveredInput(a).items, m.evidenceId) == Find(a.input.items, m.evidenceId)
    ensures Find(a.input.items, m.evidenceId).Some?
  {
    BothBounded(a);
    ReceiptIsNew(a);
    FindExtends(a, m.evidenceId);
    var k :| 0 <= k < |a.input.matches| && a.input.matches[k] == m;
    assert Inside(a.input, a.input.matches[k]);
    FindIs(a.input.items, m.evidenceId);
  }

  lemma {:induction false} OldMatchesKept(a: Attempt, m: EvidenceMatch)
    requires Evaluated(a) && m in a.input.matches
    ensures IsAuthorized(RecoveredInput(a), m) == IsAuthorized(a.input, m)
  {
    OldMatchesInside(a, m);
  }

  /** The new match does not count for this requirement: it is for another one, or nobody allowed accepted it. */
  predicate DoesNotCount(a: Attempt, r: string) {
    a.match_.requirementId != r || !IsAuthorized(RecoveredInput(a), a.match_)
  }

  lemma {:induction false} SameDecided(a: Attempt, r: string, m: EvidenceMatch)
    requires Evaluated(a) && DoesNotCount(a, r)
    ensures Decides(RecoveredInput(a), RecoveredInput(a).matches, r, m) <==> Decides(a.input, a.input.matches, r, m)
  {
    if m in a.input.matches { OldMatchesKept(a, m); }
  }

  lemma {:induction false} DecidedStep(x: EvidenceInput, y: EvidenceInput, init: seq<EvidenceMatch>, last: EvidenceMatch, r: string)
    requires DecidedIds(x, init, r) == DecidedIds(y, init, r) && IsAuthorized(x, last) == IsAuthorized(y, last)
    ensures DecidedIds(x, init + [last], r) == DecidedIds(y, init + [last], r)
  {
    assert (init + [last])[..|init|] == init;
  }

  lemma {:induction false} DecidedAlike(x: EvidenceInput, y: EvidenceInput, matches: seq<EvidenceMatch>, r: string)
    requires forall m :: m in matches ==> IsAuthorized(x, m) == IsAuthorized(y, m)
    ensures DecidedIds(x, matches, r) == DecidedIds(y, matches, r)
  {
    if matches != [] {
      var init, last := matches[..|matches| - 1], matches[|matches| - 1];
      assert matches == init + [last];
      DecidedAlike(x, y, init, r);
      DecidedStep(x, y, init, last, r);
    }
  }

  lemma {:induction false} SameReferences(a: Attempt, r: string)
    requires Evaluated(a) && DoesNotCount(a, r)
    ensures HumanReferences(RecoveredInput(a), r) == HumanReferences(a.input, r)
  {
    var y := RecoveredInput(a);
    forall m | m in a.input.matches ensures IsAuthorized(a.input, m) == IsAuthorized(y, m) { OldMatchesKept(a, m); }
    DecidedAlike(a.input, y, a.input.matches, r);
    assert y.matches[..|y.matches| - 1] == a.input.matches;
    assert DecidedIds(y, y.matches, r) == DecidedIds(y, a.input.matches, r);
  }

  lemma {:induction false} SamePresence(a: Attempt, r: string)
    requires Evaluated(a) && DoesNotCount(a, r)
    ensures SuggestionPresent(RecoveredInput(a), r) == SuggestionPresent(a.input, r)
  {
    var y := RecoveredInput(a);
    if SuggestionPresent(y, r) {
      var m :| m in y.matches && m.requirementId == r && (m.AiSuggestion? || IsAuthorized(y, m));
      assert m in a.input.matches;
      OldMatchesKept(a, m);
    }
    if SuggestionPresent(a.input, r) {
      var m :| m in a.input.matches && m.requirementId == r && (m.AiSuggestion? || IsAuthorized(a.input, m));
      OldMatchesKept(a, m);
      assert m in y.matches;
    }
  }

  lemma {:induction false} SameObservation(a: Attempt, r: Requirement)
    requires Evaluated(a) && DoesNotCount(a, r.id)
    ensures ObservationOf(RecoveredInput(a), r) == ObservationOf(a.input, r)
  {
    SameReferences(a, r.id);
    SamePresence(a, r.id);
  }

  lemma {:induction false} SameAcceptedOfKind(a: Attempt, r: string, kind: EvidenceKind)
    requires Evaluated(a) && DoesNotCount(a, r)
    ensures AcceptedOfKind(EngineInput(RecoveredInput(a)), r, kind) == AcceptedOfKind(EngineInput(a.input), r, kind)
  {
    var x, y := a.input, RecoveredInput(a);
    BothBounded(a);
    forall id ensures id in AcceptedOfKind(EngineInput(y), r, kind) <==> id in AcceptedOfKind(EngineInput(x), r, kind) {
      AcceptedOfKindIs(x, r, kind, id);
      AcceptedOfKindIs(y, r, kind, id);
      if m :| Decides(y, y.matches, r, m) && m.evidenceId == id && Find(y.items, id).value.kind == kind {
        SameDecided(a, r, m);
        OldMatchesInside(a, m);
        assert Decides(x, x.matches, r, m);
      }
      if m :| Decides(x, x.matches, r, m) && m.evidenceId == id && Find(x.items, id).value.kind == kind {
        SameDecided(a, r, m);
        OldMatchesInside(a, m);
        assert Decides(y, y.matches, r, m);
      }
    }
  }

  lemma {:induction false} SameAccepted(a: Attempt, r: string)
    requires Evaluated(a) && DoesNotCount(a, r)
    ensures AcceptedIds(EngineInput(RecoveredInput(a)), r) == AcceptedIds(EngineInput(a.input), r)
    ensures HasAccepted(EngineInput(RecoveredInput(a)), r) == HasAccepted(EngineInput(a.input), r)
  {
    BothBounded(a);
    ReferencesAreAccepted(a.input, r);
    ReferencesAreAccepted(RecoveredInput(a), r);
    SameReferences(a, r);
    AcceptedNonempty(EngineInput(a.input), r);
    AcceptedNonempty(EngineInput(RecoveredInput(a)), r);
  }

  lemma {:induction false} AcceptedNonempty(i: Input, r: string)
    ensures HasAccepted(i, r) <==> AcceptedIds(i, r) != {}
  {
    if HasAccepted(i, r) {
      var m :| m in i.matches && Accepts(i, m, r);
      assert m.evidenceId in AcceptedIds(i, r);
    }
  }

  lemma {:induction false} SameSuggestion(a: Attempt, r: string, kind: EvidenceKind, m: EvidenceMatch)
    requires Evaluated(a)
    ensures var i, j := EngineInput(a.input), EngineInput(RecoveredInput(a));
            && (m in i.matches && Suggests(i, m, r) <==> m in j.matches && Suggests(j, m, r))
            && (m in i.matches && Suggests(i, m, r) ==> (OfKind(i, m, kind) <==> OfKind(j, m, kind)))
  {
    var x, y := a.input, RecoveredInput(a);
    BothBounded(a);
    SliceIs(x);
    SliceIs(y);
    PolicyMembership(x, x.matches, m);
    PolicyMembership(y, y.matches, m);
    if m in x.matches { OldMatchesInside(a, m); }
  }

  lemma {:induction false} SameSuggestions(a: Attempt, r: string, kind: EvidenceKind)
    requires Evaluated(a)
    ensures SuggestedOfKind(EngineInput(RecoveredInput(a)), r, kind) == SuggestedOfKind(EngineInput(a.input), r, kind)
    ensures HasSuggestion(EngineInput(RecoveredInput(a)), r) == HasSuggestion(EngineInput(a.input), r)
  {
    var i, j := EngineInput(a.input), EngineInput(RecoveredInput(a));
    forall m ensures (m in i.matches && Suggests(i, m, r) <==> m in j.matches && Suggests(j, m, r))
                  && (m in i.matches && Suggests(i, m, r) ==> (OfKind(i, m, kind) <==> OfKind(j, m, kind)))
    {
      SameSuggestion(a, r, kind, m);
    }
    assert forall m :: m in i.matches && Suggests(i, m, r) && OfKind(i, m, kind) ==> m in j.matches && Suggests(j, m, r) && OfKind(j, m, kind);
    assert forall m :: m in j.matches && Suggests(j, m, r) && OfKind(j, m, kind) ==> m in i.matches && Suggests(i, m, r) && OfKind(i, m, kind);
  }

  // ----- outcomes -----

  /** The sets behind two findings are the same, and both findings exist. */
  ghost predicate Alike(i: Input, j: Input, r: Requirement, o: Observation) {
    && AcceptedOfKind(i, r.id, CountedKind(r.kind)) == AcceptedOfKind(j, r.id, CountedKind(r.kind))
    && SuggestedOfKind(i, r.id, CountedKind(r.kind)) == SuggestedOfKind(j, r.id, CountedKind(r.kind))
    && HasAccepted(i, r.id) == HasAccepted(j, r.id) && HasSuggestion(i, r.id) == HasSuggestion(j, r.id)
    && i.verifiedSpend == j.verifiedSpend
    && EvaluateByKind(i, r, o, ApprovalPending).Success? && EvaluateByKind(j, r, o, ApprovalPending).Success?
  }

  lemma {:induction false} CountsSame(i: Input, j: Input, r: Requirement, o: Observation)
    requires Alike(i, j, r, o) && (r.kind.DeliverableKind? || r.kind.ExpenseRecords?)
    ensures EvaluateByKind(i, r, o, ApprovalPending) == EvaluateByKind(j, r, o, ApprovalPending)
  {
  }

  lemma {:induction false} ConfirmationSame(i: Input, j: Input, r: Requirement, o: Observation)
    requires Alike(i, j, r, o) && r.kind.FounderConfirmation?
    ensures EvaluateByKind(i, r, o, ApprovalPending) == EvaluateByKind(j, r, o, ApprovalPending)
  {
  }

  lemma {:induction false} AcceptanceSame(i: Input, j: Input, r: Requirement, o: Observation)
    requires Alike(i, j, r, o) && (r.kind.TransactionMatch? || r.kind.BusinessPurpose?)
    ensures EvaluateByKind(i, r, o, ApprovalPending) == EvaluateByKind(j, r, o, ApprovalPending)
  {
  }

  lemma {:induction false} LimitsSame(i: Input, j: Input, r: Requirement, o: Observation)
    requires Alike(i, j, r, o) && (r.kind.SpendLimit? || r.kind.HumanApproval?)
    ensures EvaluateByKind(i, r, o, ApprovalPending) == EvaluateByKind(j, r, o, ApprovalPending)
  {
  }

  lemma {:induction false} SameFinding(i: Input, j: Input, r: Requirement, o: Observation)
    requires Alike(i, j, r, o) && !r.kind.DueDate?
    ensures EvaluateByKind(i, r, o, ApprovalPending) == EvaluateByKind(j, r, o, ApprovalPending)
  {
    if r.kind.DeliverableKind? || r.kind.ExpenseRecords? { CountsSame(i, j, r, o); }
    else if r.kind.FounderConfirmation? { ConfirmationSame(i, j, r, o); }
    else if r.kind.TransactionMatch? || r.kind.BusinessPurpose? { AcceptanceSame(i, j, r, o); }
    else { LimitsSame(i, j, r, o); }
  }

  /** The same outcome for the same reason on the same references. */
  predicate SameOutcome(e: RequirementEvaluation, f: RequirementEvaluation) {
    e.requirementId == f.requirementId && e.outcome == f.outcome && e.reason == f.reason && e.references == f.references
  }

  lemma {:induction false} SameEvaluation(i: Input, j: Input, r: Requirement, o: Observation)
    requires ObservationFor(i, r.id) == o && ObservationFor(j, r.id) == o && i.approval.None? && j.approval.None?
    requires EvaluateRequirement(i, r, ApprovalPending).Success? && EvaluateRequirement(j, r, ApprovalPending).Success?
    requires EvaluateByKind(i, r, o, ApprovalPending) == EvaluateByKind(j, r, o, ApprovalPending)
    ensures SameOutcome(EvaluateRequirement(i, r, ApprovalPending).value, EvaluateRequirement(j, r, ApprovalPending).value)
  {
  }

  lemma {:induction false} FoundBoth(i: Input, j: Input, r: Requirement, o: Observation)
    requires ObservationFor(i, r.id) == o && ObservationFor(j, r.id) == o
    requires EvaluateRequirement(i, r, ApprovalPending).Success? && EvaluateRequirement(j, r, ApprovalPending).Success?
    ensures EvaluateByKind(i, r, o, ApprovalPending).Success? && EvaluateByKind(j, r, o, ApprovalPending).Success?
  {
  }

  lemma {:induction false} ObservedSame(a: Attempt, r: Requirement)
    requires Evaluated(a) && DoesNotCount(a, r.id) && r in a.input.requirements
    ensures ObservationFor(EngineInput(a.input), r.id) == ObservationOf(a.input, r)
    ensures ObservationFor(EngineInput(RecoveredInput(a)), r.id) == ObservationOf(a.input, r)
  {
    BothBounded(a);
    ObservationKept(a.input, a.input.requirements, r);
    ObservationKept(RecoveredInput(a), a.input.requirements, r);
    SameObservation(a, r);
  }

  lemma {:induction false} RequirementUnchanged(a: Attempt, r: Requirement)
    requires Evaluated(a) && DoesNotCount(a, r.id) && !r.kind.DueDate? && r in a.input.requirements
    requires EvaluateRequirement(EngineInput(a.input), r, ApprovalPending).Success?
    requires EvaluateRequirement(EngineInput(RecoveredInput(a)), r, ApprovalPending).Success?
    ensures SameOutcome(EvaluateRequirement(EngineInput(a.input), r, ApprovalPending).value,
                        EvaluateRequirement(EngineInput(RecoveredInput(a)), r, ApprovalPending).value)
  {
    var i, j, o := EngineInput(a.input), EngineInput(RecoveredInput(a)), ObservationOf(a.input, r);
    ObservedSame(a, r);
    FoundBoth(i, j, r, o);
    SameAcceptedOfKind(a, r.id, CountedKind(r.kind));
    SameSuggestions(a, r.id, CountedKind(r.kind));
    SameAccepted(a, r.id);
    SameFinding(i, j, r, o);
    SameEvaluation(i, j, r, o);
  }

  /** The evaluation of the k-th requirement by id is unchanged when the new match does not count for it. */
  lemma {:induction false} OutcomeUnchanged(a: Attempt, k: nat)
    requires Evaluated(a) && k < |Sort(a.input.requirements, RequirementLe)|
    ensures Findings(a.input).Success? && Findings(RecoveredInput(a)).Success?
    ensures |Findings(a.input).value| == |Findings(RecoveredInput(a)).value| == |Sort(a.input.requirements, RequirementLe)|
    ensures Findings(a.input).value[k].requirementId == Findings(RecoveredInput(a)).value[k].requirementId == Sort(a.input.requirements, RequirementLe)[k].id
    ensures var r := Sort(a.input.requirements, RequirementLe)[k];
            DoesNotCount(a, r.id) && !r.kind.DueDate? ==> SameOutcome(Findings(a.input).value[k], Findings(RecoveredInput(a)).value[k])
  {
    var rs := Sort(a.input.requirements, RequirementLe);
    var r := rs[k];
    BothBounded(a);
    SortedRequirements(a.input.requirements);
    assert r in rs;
    EvaluationAt(EngineInput(a.input), rs, k);
    EvaluationAt(EngineInput(RecoveredInput(a)), rs, k);
    if DoesNotCount(a, r.id) && !r.kind.DueDate? { RequirementUnchanged(a, r); }
  }

  lemma {:induction false} RecoveryFrom(a: Attempt, log: seq<AuditEvent>, current: Result<EvidenceResult, EvidenceError>, recovered: Result<EvidenceResult, EvidenceError>)
    requires RecoverWith(a, log, current, recovered).Success?
    ensures current.Success? && recovered.Success? && current.value.gaps == [a.gap] && !HasGap(recovered.value.gaps, a.gap.id)
    ensures a.match_.HumanDecision? && a.match_.evidenceId == a.receipt.id
    ensures a.match_.requirementId == a.gap.requirementId && a.match_.acceptedBy == a.actor
    ensures RecoverWith(a, log, current, recovered).value.evaluation == recovered.value.evaluation
  {
  }

  /** What a returned recovery was made from. */
  lemma {:induction false} RecoveryIs(a: Attempt, log: seq<AuditEvent>)
    requires Recover(a, log).Success?
    ensures Evaluated(a) && a.match_.requirementId == a.gap.requirementId && a.match_.acceptedBy == a.actor
    ensures EvaluateEvidence(a.input).value.gaps == [a.gap] && !HasGap(EvaluateEvidence(RecoveredInput(a)).value.gaps, a.gap.id)
    ensures Recover(a, log).value.evaluation == EvaluateEvidence(RecoveredInput(a)).value.evaluation
  {
    RecoveryFrom(a, log, EvaluateEvidence(a.input), EvaluateEvidence(RecoveredInput(a)));
  }

  lemma {:induction false} FindingsAre(a: Attempt)
    requires Evaluated(a)
    ensures Findings(a.input).Success? && EvaluateEvidence(a.input).value.evaluation.requirements == Findings(a.input).value
    ensures EvaluateEvidence(a.input).value.gaps == MissingReceiptGap(a.input, Findings(a.input).value)
    ensures Findings(RecoveredInput(a)).Success?
    ensures EvaluateEvidence(RecoveredInput(a)).value.evaluation.requirements == Findings(RecoveredInput(a)).value
    ensures EvaluateEvidence(RecoveredInput(a)).value.gaps == MissingReceiptGap(RecoveredInput(a), Findings(RecoveredInput(a)).value)
  {
    EvaluationIs(a.input);
    EvaluationIs(RecoveredInput(a));
  }

  /** Requirement by requirement, the same outcome except for the gap's own requirement and the due date. */
  ghost predicate OnlyTheGapChanges(a: Attempt, before: seq<RequirementEvaluation>, after: seq<RequirementEvaluation>) {
    var rs := Sort(a.input.requirements, RequirementLe);
    && |before| == |after| == |rs|
    && forall k :: 0 <= k < |rs| ==>
         before[k].requirementId == rs[k].id && after[k].requirementId == rs[k].id
         && (rs[k].id != a.gap.requirementId && !rs[k].kind.DueDate? ==> SameOutcome(before[k], after[k]))
  }

  lemma {:induction false} FindingsChangeOnlyTheGap(a: Attempt)
    requires Evaluated(a) && a.match_.requirementId == a.gap.requirementId
    ensures Findings(a.input).Success? && Findings(RecoveredInput(a)).Success?
    ensures OnlyTheGapChanges(a, Findings(a.input).value, Findings(RecoveredInput(a)).value)
  {
    var rs := Sort(a.input.requirements, RequirementLe);
    BothBounded(a);
    if rs == [] {
    } else {
      OutcomeUnchanged(a, 0);
    }
    forall k | 0 <= k < |rs|
      ensures Findings(a.input).value[k].requirementId == rs[k].id && Findings(RecoveredInput(a)).value[k].requirementId == rs[k].id
      ensures rs[k].id != a.gap.requirementId && !rs[k].kind.DueDate? ==> SameOutcome(Findings(a.input).value[k], Findings(RecoveredInput(a)).value[k])
    {
      OutcomeUnchanged(a, k);
    }
  }

  /** A returned recovery changes the outcome of no requirement but the gap's own and the due date. */
  lemma {:induction false} RecoveryChangesOnlyTheGap(a: Attempt, log: seq<AuditEvent>)
    requires Recover(a, log).Success?
    ensures EvaluateEvidence(a.input).Success?
    ensures OnlyTheGapChanges(a, EvaluateEvidence(a.input).value.evaluation.requirements, Recover(a, log).value.evaluation.requirements)
  {
    RecoveryIs(a, log);
    FindingsAre(a);
    FindingsChangeOnlyTheGap(a);
  }

  // ----- who closed the gap -----

  lemma {:induction false} FindsSamePlace(es: seq<RequirementEvaluation>, fs: seq<RequirementEvaluation>, id: string) returns (k: nat)
    requires |es| == |fs| && forall k :: 0 <= k < |es| ==> es[k].requirementId == fs[k].requirementId
    requires FindEvaluation(es, id).Some?
    ensures k < |es| && FindEvaluation(es, id) == Some(es[k]) && FindEvaluation(fs, id) == Some(fs[k]) && es[k].requirementId == id
  {
    if es[0].requirementId == id {
      k := 0;
    } else {
      var j := FindsSamePlace(es[1..], fs[1..], id);
      k := j + 1;
    }
  }

  lemma {:induction false} IdTellsRequirement(x: EvidenceInput, r: Requirement, s: Requirement)
    requires RequirementSet(x.milestone, x.requirements) && r in x.requirements && s in x.requirements && r.id == s.id
    ensures r == s
  {
    FindRequirementIs(x.requirements, r);
    FindRequirementIs(x.requirements, s);
  }

  lemma {:induction false} SameGap(x: EvidenceInput, y: EvidenceInput, es: seq<RequirementEvaluation>, fs: seq<RequirementEvaluation>, k: nat)
    requires y.milestone.id == x.milestone.id && y.requirements == x.requirements && ExpenseRequirement(x.requirements).Some?
    requires k < |es| && FindEvaluation(es, ExpenseRequirement(x.requirements).value.id) == Some(es[k])
    requires k < |fs| && FindEvaluation(fs, ExpenseRequirement(x.requirements).value.id) == Some(fs[k])
    requires es[k].reason == fs[k].reason
    ensures MissingReceiptGap(x, es) == MissingReceiptGap(y, fs)
  {
  }

  /** If nobody allowed accepted the new receipt, the expense requirement is as short of receipts as it was. */
  lemma {:induction false} ShortAsBefore(a: Attempt, expense: Requirement)
    requires Evaluated(a) && a.match_.requirementId == a.gap.requirementId && !IsAuthorized(RecoveredInput(a), a.match_)
    requires ExpenseRequirement(a.input.requirements) == Some(expense) && Findings(a.input).Success?
    requires FindEvaluation(Findings(a.input).value, expense.id).Some?
    ensures Findings(RecoveredInput(a)).Success?
    ensures MissingReceiptGap(RecoveredInput(a), Findings(RecoveredInput(a)).value) == MissingReceiptGap(a.input, Findings(a.input).value)
  {
    BothBounded(a);
    FindingsChangeOnlyTheGap(a);
    var before, after, rs := Findings(a.input).value, Findings(RecoveredInput(a)).value, Sort(a.input.requirements, RequirementLe);
    var k := FindsSamePlace(before, after, expense.id);
    ExpenseRequirementIs(a.input.requirements);
    SortedRequirements(a.input.requirements);
    assert rs[k] in rs;
    IdTellsRequirement(a.input, rs[k], expense);
    OutcomeUnchanged(a, k);
    SameGap(a.input, RecoveredInput(a), before, after, k);
  }

  lemma {:induction false} GapNamesExpense(x: EvidenceInput, es: seq<RequirementEvaluation>)
    requires MissingReceiptGap(x, es) != []
    ensures ExpenseRequirement(x.requirements).Some? && FindEvaluation(es, ExpenseRequirement(x.requirements).value.id).Some?
  {
  }

  lemma {:induction false} GapStaysOpen(a: Attempt)
    requires Evaluated(a) && a.match_.requirementId == a.gap.requirementId && EvaluateEvidence(a.input).value.gaps == [a.gap]
    requires !IsAuthorized(RecoveredInput(a), a.match_)
    ensures HasGap(EvaluateEvidence(RecoveredInput(a)).value.gaps, a.gap.id)
  {
    FindingsAre(a);
    GapNamesExpense(a.input, Findings(a.input).value);
    ShortAsBefore(a, ExpenseRequirement(a.input.requirements).value);
    assert [a.gap][0].id == a.gap.id;
  }

  lemma {:induction false} AuthorizedBy(a: Attempt)
    requires IsAuthorized(RecoveredInput(a), a.match_)
    ensures ByFounder(a.input, a.match_.acceptedBy) || ByEvaluator(a.input, a.match_.acceptedBy)
  {
  }

  /** A recovery that returns was accepted by the configured founder or evaluator, who is the actor it audits. */
  lemma {:induction false} RecoveryIsAuthorized(a: Attempt, log: seq<AuditEvent>)
    requires Recover(a, log).Success?
    ensures IsAuthorized(RecoveredInput(a), a.match_)
    ensures a.match_.HumanDecision? && a.match_.acceptedBy == a.actor
    ensures ByFounder(a.input, a.actor) || ByEvaluator(a.input, a.actor)
  {
    RecoveryIs(a, log);
    if !IsAuthorized(RecoveredInput(a), a.match_) { GapStaysOpen(a); }
    AuthorizedBy(a);
  }

  // ----- replay -----

  predicate Unrelated(a: Attempt, events: seq<AuditEvent>) {
    forall k :: 0 <= k < |events| ==> !Collides(a, events[k])
  }

  lemma {:induction false} LogsAppend(a: Attempt, log: seq<AuditEvent>, later: seq<AuditEvent>)
    ensures IsRetry(a, log + later) <==> IsRetry(a, log) || IsRetry(a, later)
    ensures Conflicts(a, log + later) <==> Conflicts(a, log) || Conflicts(a, later)
  {
    var whole := log + later;
    assert forall k :: 0 <= k < |log| ==> whole[k] == log[k];
    assert forall k :: 0 <= k < |later| ==> whole[|log| + k] == later[k];
    if IsRetry(a, later) {
      var k :| 0 <= k < |later| && Collides(a, later[k]);
      assert Collides(a, whole[|log| + k]);
    }
    if Conflicts(a, later) {
      var k :| 0 <= k < |later| && Collides(a, later[k]) && later[k] != RecoveryEvent(a);
      assert whole[|log| + k] == later[k];
    }
  }

  /** The log that a recovery returns has its event and nothing against it. */
  lemma {:induction false} OwnLogIsRetry(a: Attempt, log: seq<AuditEvent>)
    requires !Conflicts(a, log)
    ensures var own := if IsRetry(a, log) then log else log + [RecoveryEvent(a)]; IsRetry(a, own) && !Conflicts(a, own)
  {
    LogsAppend(a, log, [RecoveryEvent(a)]);
    assert Collides(a, [RecoveryEvent(a)][0]);
  }

  lemma {:induction false} ReplayWith(a: Attempt, log: seq<AuditEvent>, later: seq<AuditEvent>, current: Result<EvidenceResult, EvidenceError>,
                                      recovered: Result<EvidenceResult, EvidenceError>)
    requires RecoverWith(a, log, current, recovered).Success? && Unrelated(a, later)
    ensures var first := RecoverWith(a, log, current, recovered).value;
            RecoverWith(a, first.auditEvents + later, current, recovered) == Success(first.(auditEvents := first.auditEvents + later))
  {
    OwnLogIsRetry(a, log);
    LogsAppend(a, RecoverWith(a, log, current, recovered).value.auditEvents, later);
  }

  /** A recovery replayed on its own log, with any later unrelated events behind it, returns the same and adds nothing to the log. */
  lemma {:induction false} ReplayAddsNothing(a: Attempt, log: seq<AuditEvent>, later: seq<AuditEvent>)
    requires Recover(a, log).Success? && Unrelated(a, later)
    ensures var first := Recover(a, log).value;
            Recover(a, first.auditEvents + later) == Success(first.(auditEvents := first.auditEvents + later))
  {
    ReplayWith(a, log, later, EvaluateEvidence(a.input), EvaluateEvidence(RecoveredInput(a)));
  }
}
