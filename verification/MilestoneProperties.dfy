/** AI suggestions never decide a milestone: what passes, what is eligible and what needs approval is up to human decisions. */
module MilestoneProperties {
  import opened Wrappers
  import opened Sorting
  import opened Milestones

  /** Two inputs with the same human decisions, whatever their AI suggestions and observations. */
  predicate SameDecisions(i: Input, j: Input) {
    j == i.(matches := j.matches, observations := j.observations) && HumanMatches(i.matches) == HumanMatches(j.matches)
  }

  /** Two inputs that differ at most in their AI suggestions. */
  predicate DiffersInAi(i: Input, j: Input) {
    SameDecisions(i, j) && i.observations == j.observations
  }

  /** The second input has all the AI suggestions of the first. */
  ghost predicate MoreAi(i: Input, j: Input) {
    SameDecisions(i, j) && forall m: EvidenceMatch :: m.AiSuggestion? && m in i.matches ==> m in j.matches
  }

  /** Two observations that differ only in whether something was suggested. */
  predicate Close(o: Observation, p: Observation) {
    && p == o.(transactionMatched := p.transactionMatched, businessPurposePresent := p.businessPurposePresent,
               founderConfirmationPresent := p.founderConfirmationPresent)
    && (o.transactionMatched == p.transactionMatched || (o.transactionMatched != Some(false) && p.transactionMatched != Some(false)))
  }

  predicate SuggestsMore(o: Observation, p: Observation) {
    && (o.transactionMatched == Some(true) ==> p.transactionMatched == Some(true))
    && (o.businessPurposePresent ==> p.businessPurposePresent) && (o.founderConfirmationPresent ==> p.founderConfirmationPresent)
  }

  lemma {:induction false} HumanMembership(matches: seq<EvidenceMatch>, m: EvidenceMatch)
    requires m.HumanDecision?
    ensures m in HumanMatches(matches) <==> m in matches
  {
    if matches != [] {
      HumanMembership(matches[..|matches| - 1], m);
      assert matches == matches[..|matches| - 1] + [matches[|matches| - 1]];
    }
  }

  lemma {:induction false} SameHumans(i: Input, j: Input)
    requires SameDecisions(i, j)
    ensures forall m: EvidenceMatch :: m.HumanDecision? ==> (m in i.matches <==> m in j.matches)
  {
    forall m: EvidenceMatch | m.HumanDecision? ensures m in i.matches <==> m in j.matches {
      HumanMembership(i.matches, m);
      HumanMembership(j.matches, m);
    }
  }

  lemma {:induction false} SameAccepted(i: Input, j: Input, r: string, kind: EvidenceKind)
    requires SameDecisions(i, j)
    ensures AcceptedOfKind(i, r, kind) == AcceptedOfKind(j, r, kind)
  {
    SameHumans(i, j);
    AcceptedSubset(i, j, r, kind);
    AcceptedSubset(j, i, r, kind);
  }

  lemma {:induction false} AcceptedSubset(i: Input, j: Input, r: string, kind: EvidenceKind)
    requires SameDecisions(i, j) && forall m: EvidenceMatch :: m.HumanDecision? ==> (m in i.matches <==> m in j.matches)
    ensures AcceptedOfKind(i, r, kind) <= AcceptedOfKind(j, r, kind) && AcceptedIds(i, r) <= AcceptedIds(j, r)
    ensures HasAccepted(i, r) ==> HasAccepted(j, r)
  {
    assert forall m :: Accepts(i, m, r) <==> Accepts(j, m, r);
    assert forall m :: OfKind(i, m, kind) <==> OfKind(j, m, kind);
    forall id | id in AcceptedOfKind(i, r, kind) ensures id in AcceptedOfKind(j, r, kind) {
      var m :| m in i.matches && Accepts(i, m, r) && OfKind(i, m, kind) && m.evidenceId == id;
      assert m in j.matches;
    }
    forall id | id in AcceptedIds(i, r) ensures id in AcceptedIds(j, r) {
      var m :| m in i.matches && Accepts(i, m, r) && m.evidenceId == id;
      assert m in j.matches;
    }
  }

  lemma {:induction false} SameAnyAccepted(i: Input, j: Input, r: string)
    requires SameDecisions(i, j)
    ensures AcceptedIds(i, r) == AcceptedIds(j, r) && HasAccepted(i, r) == HasAccepted(j, r)
  {
    SameHumans(i, j);
    AcceptedSubset(i, j, r, Receipt);
    AcceptedSubset(j, i, r, Receipt);
  }

  lemma {:induction false} SuggestionsStay(i: Input, j: Input, r: string, kind: EvidenceKind)
    requires MoreAi(i, j)
    ensures HasSuggestion(i, r) ==> HasSuggestion(j, r)
    ensures SuggestedOfKind(i, r, kind) <= SuggestedOfKind(j, r, kind)
  {
    assert forall m :: Suggests(i, m, r) <==> Suggests(j, m, r);
    assert forall m :: OfKind(i, m, kind) <==> OfKind(j, m, kind);
  }

  /** What AI suggestions can do to the finding for one requirement: move it between FAIL and REVIEW. */
  predicate SameButReview(f: Finding, g: Finding) {
    f == g || (f.outcome != Pass && g.outcome != Pass)
  }

  predicate RaisedToReview(f: Finding, g: Finding) {
    f == g || (f.outcome == Fail && g.outcome == Review)
  }

  lemma {:induction false} FindingsAgree(i: Input, j: Input, r: Requirement, o: Observation, p: Observation, approval: Classification)
    requires SameDecisions(i, j) && Close(o, p)
    ensures EvaluateByKind(i, r, o, approval).Success? == EvaluateByKind(j, r, p, approval).Success?
    ensures EvaluateByKind(i, r, o, approval).Success? ==>
              SameButReview(EvaluateByKind(i, r, o, approval).value, EvaluateByKind(j, r, p, approval).value)
  {
    SameAccepted(i, j, r.id, Deliverable);
    SameAccepted(i, j, r.id, Receipt);
    SameAccepted(i, j, r.id, Confirmation);
    SameAnyAccepted(i, j, r.id);
  }

  lemma {:induction false} FindingsRaised(i: Input, j: Input, r: Requirement, o: Observation, p: Observation, approval: Classification)
    requires MoreAi(i, j) && Close(o, p) && SuggestsMore(o, p) && EvaluateByKind(i, r, o, approval).Success?
    ensures EvaluateByKind(j, r, p, approval).Success?
    ensures RaisedToReview(EvaluateByKind(i, r, o, approval).value, EvaluateByKind(j, r, p, approval).value)
  {
    FindingsAgree(i, j, r, o, p, approval);
    SuggestionsStay(i, j, r.id, Receipt);
    SameAnyAccepted(i, j, r.id);
    SameAccepted(i, j, r.id, Receipt);
    SameAccepted(i, j, r.id, Confirmation);
  }

  predicate EvaluationsAgree(es: seq<RequirementEvaluation>, fs: seq<RequirementEvaluation>) {
    |es| == |fs| && forall k :: 0 <= k < |es| ==>
      && es[k].requirementId == fs[k].requirementId && es[k].references == fs[k].references
      && (es[k].outcome == Pass <==> fs[k].outcome == Pass)
      && es[k].blocksEligibility == fs[k].blocksEligibility && es[k].blocksRelease == fs[k].blocksRelease
  }

  predicate OnlyRaised(es: seq<RequirementEvaluation>, fs: seq<RequirementEvaluation>) {
    |es| == |fs| && forall k :: 0 <= k < |es| ==> fs[k] == es[k] || (es[k].outcome == Fail && fs[k].outcome == Review)
  }

  /** The observations of two inputs for one requirement are close, and the second suggests no less. */
  ghost predicate ObservedAlike(i: Input, j: Input, r: string) {
    Close(ObservationFor(i, r), ObservationFor(j, r)) && (MoreAi(i, j) ==> SuggestsMore(ObservationFor(i, r), ObservationFor(j, r)))
  }

  lemma {:induction false} RequirementAgrees(i: Input, j: Input, r: Requirement, approval: Classification)
    requires SameDecisions(i, j) && ObservedAlike(i, j, r.id)
    ensures EvaluateRequirement(i, r, approval).Success? == EvaluateRequirement(j, r, approval).Success?
    ensures EvaluateRequirement(i, r, approval).Success? ==>
              EvaluationsAgree([EvaluateRequirement(i, r, approval).value], [EvaluateRequirement(j, r, approval).value])
    ensures EvaluateRequirement(i, r, approval).Success? && MoreAi(i, j) ==>
              OnlyRaised([EvaluateRequirement(i, r, approval).value], [EvaluateRequirement(j, r, approval).value])
  {
    var o, p := ObservationFor(i, r.id), ObservationFor(j, r.id);
    FindingsAgree(i, j, r, o, p, approval);
    if MoreAi(i, j) && EvaluateByKind(i, r, o, approval).Success? { FindingsRaised(i, j, r, o, p, approval); }
  }

  lemma {:induction false} AllAgree(i: Input, j: Input, rs: seq<Requirement>, approval: Classification)
    requires SameDecisions(i, j) && forall r :: r in rs ==> ObservedAlike(i, j, r.id)
    ensures EvaluateAll(i, rs, approval).Success? == EvaluateAll(j, rs, approval).Success?
    ensures EvaluateAll(i, rs, approval).Success? ==>
              EvaluationsAgree(EvaluateAll(i, rs, approval).value, EvaluateAll(j, rs, approval).value)
    ensures EvaluateAll(i, rs, approval).Success? && MoreAi(i, j) ==>
              OnlyRaised(EvaluateAll(i, rs, approval).value, EvaluateAll(j, rs, approval).value)
  {
    if rs != [] {
      AllAgree(i, j, rs[..|rs| - 1], approval);
      RequirementAgrees(i, j, rs[|rs| - 1], approval);
      if EvaluateAll(i, rs, approval).Success? {
        AppendAgrees(EvaluateAll(i, rs[..|rs| - 1], approval).value, EvaluateAll(j, rs[..|rs| - 1], approval).value,
                     EvaluateRequirement(i, rs[|rs| - 1], approval).value, EvaluateRequirement(j, rs[|rs| - 1], approval).value);
      }
    }
  }

  lemma {:induction false} AppendAgrees(es: seq<RequirementEvaluation>, fs: seq<RequirementEvaluation>, e: RequirementEvaluation, f: RequirementEvaluation)
    ensures EvaluationsAgree(es, fs) && EvaluationsAgree([e], [f]) ==> EvaluationsAgree(es + [e], fs + [f])
    ensures OnlyRaised(es, fs) && OnlyRaised([e], [f]) ==> OnlyRaised(es + [e], fs + [f])
  {
    assert EvaluationsAgree([e], [f]) ==> [e][0].requirementId == [f][0].requirementId && ([e][0].outcome == Pass <==> [f][0].outcome == Pass);
    assert OnlyRaised([e], [f]) ==> [f][0] == [e][0] || ([e][0].outcome == Fail && [f][0].outcome == Review);
  }

  /** Only requirements that did not pass block eligibility. */
  predicate BlocksOnlyUnpassed(es: seq<RequirementEvaluation>) {
    forall k :: 0 <= k < |es| && es[k].blocksEligibility ==> es[k].outcome != Pass
  }

  lemma {:induction false} BlockersDidNotPass(i: Input, rs: seq<Requirement>, approval: Classification)
    requires EvaluateAll(i, rs, approval).Success?
    ensures BlocksOnlyUnpassed(EvaluateAll(i, rs, approval).value)
  {
    if rs != [] { BlockersDidNotPass(i, rs[..|rs| - 1], approval); }
  }

  lemma {:induction false} EligibleIff(es: seq<RequirementEvaluation>)
    requires BlocksOnlyUnpassed(es)
    ensures StatusOf(es).Eligible? <==> forall k :: 0 <= k < |es| ==> !es[k].blocksEligibility
  {
    forall k | 0 <= k < |es| && es[k].blocksEligibility ensures Blocked(es, Fail) || Blocked(es, Review) {
      assert es[k].outcome == Fail || es[k].outcome == Review;
    }
  }

  lemma {:induction false} SameApproval(i: Input, j: Input, h: Subject -> string)
    requires DiffersInAi(i, j)
    ensures Classify(i, h) == Classify(j, h)
  {
    assert Slice(i) == Slice(j);
    assert SubjectOf(i) == SubjectOf(j);
  }

  lemma {:induction false} AgreeingVerdicts(es: seq<RequirementEvaluation>, fs: seq<RequirementEvaluation>)
    requires BlocksOnlyUnpassed(es) && BlocksOnlyUnpassed(fs) && EvaluationsAgree(es, fs)
    ensures StatusOf(es).Eligible? <==> StatusOf(fs).Eligible?
  {
    EligibleIff(es);
    EligibleIff(fs);
  }

  /** What an evaluation needs, and what it concludes. */
  lemma {:induction false} EvaluationConcludes(i: Input, h: Subject -> string)
    ensures var all := EvaluateAll(i, Sort(i.requirements, RequirementLe), Classify(i, h));
            && (Evaluate(i, h).Success? <==>
                  ReferencesOk(i) && RequirementSet(i.milestone, i.requirements) && CheckItems(Slice(i), i.evaluatedAt).Passed? && all.Success?)
            && (Evaluate(i, h).Success? ==> Evaluate(i, h).value == Concluded(i, all.value, Classify(i, h)))
  {
  }

  lemma {:induction false} VerdictsAgree(i: Input, j: Input, rs: seq<Requirement>, approval: Classification)
    requires SameDecisions(i, j) && (forall r :: r in rs ==> ObservedAlike(i, j, r.id)) && EvaluateAll(i, rs, approval).Success?
    ensures EvaluateAll(j, rs, approval).Success?
    ensures var es, fs := EvaluateAll(i, rs, approval).value, EvaluateAll(j, rs, approval).value;
            && EvaluationsAgree(es, fs) && (StatusOf(es).Eligible? <==> StatusOf(fs).Eligible?)
            && (MoreAi(i, j) ==> OnlyRaised(es, fs))
  {
    AllAgree(i, j, rs, approval);
    BlockersDidNotPass(i, rs, approval);
    BlockersDidNotPass(j, rs, approval);
    AgreeingVerdicts(EvaluateAll(i, rs, approval).value, EvaluateAll(j, rs, approval).value);
  }

  /**
   Inputs that differ only in AI suggestions evaluate alike: the same requirements pass, the milestone is eligible for both or
   for neither, and human approval is required for both or for neither. More suggestions can only move a FAIL to REVIEW.
   */
  lemma {:induction false} AiNonInterference(i: Input, j: Input, h: Subject -> string)
    requires DiffersInAi(i, j) && Evaluate(i, h).Success?
    ensures Evaluate(j, h).Success?
    ensures var e, f := Evaluate(i, h).value, Evaluate(j, h).value;
            && EvaluationsAgree(e.requirements, f.requirements)
            && (e.status.Eligible? <==> f.status.Eligible?)
            && e.humanApprovalRequired == f.humanApprovalRequired
            && !e.actionPermitted && !f.actionPermitted
            && (MoreAi(i, j) ==> OnlyRaised(e.requirements, f.requirements))
  {
    EvaluationConcludes(i, h);
    EvaluationConcludes(j, h);
    SameApproval(i, j, h);
    assert Slice(i) == Slice(j);
    VerdictsAgree(i, j, Sort(i.requirements, RequirementLe), Classify(i, h));
  }
}
