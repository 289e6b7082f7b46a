/** AI suggestions do not decide an evaluation of the evidence engine either, although they colour its observations. */
module EvidenceNonInterference {
  import opened Wrappers
  import opened Sorting
  import opened Milestones
  import opened MilestoneProperties
  import opened Evidence
  import opened EvidenceProperties

  /** Two evidence inputs that differ at most in their AI suggestions. */
  predicate OnlyAiDiffers(x: EvidenceInput, y: EvidenceInput) {
    y == x.(matches := y.matches) && HumanMatches(x.matches) == HumanMatches(y.matches)
  }

  lemma {:induction false} DecidedByHumans(x: EvidenceInput, matches: seq<EvidenceMatch>, r: string)
    ensures DecidedIds(x, matches, r) == DecidedIds(x, HumanMatches(matches), r)
  {
    if matches != [] {
      var init, last := matches[..|matches| - 1], matches[|matches| - 1];
      DecidedByHumans(x, init, r);
      if last.HumanDecision? {
        assert HumanMatches(matches)[..|HumanMatches(matches)| - 1] == HumanMatches(init);
      } else {
        assert HumanMatches(matches) == HumanMatches(init);
      }
    }
  }

  lemma {:induction false} HumansExtend(matches: seq<EvidenceMatch>, m: EvidenceMatch)
    ensures HumanMatches(matches + [m]) == if m.HumanDecision? then HumanMatches(matches) + [m] else HumanMatches(matches)
  {
    assert (matches + [m])[..|matches|] == matches;
  }

  lemma {:induction false} PolicyExtends(x: EvidenceInput, matches: seq<EvidenceMatch>, m: EvidenceMatch)
    ensures PolicyMatches(x, matches + [m]) == if m.AiSuggestion? || IsAuthorized(x, m) then PolicyMatches(x, matches) + [m] else PolicyMatches(x, matches)
  {
    assert (matches + [m])[..|matches|] == matches;
  }

  lemma {:induction false} PolicyOfHumans(x: EvidenceInput, matches: seq<EvidenceMatch>)
    ensures HumanMatches(PolicyMatches(x, matches)) == PolicyMatches(x, HumanMatches(matches))
  {
    if matches != [] {
      var init, last := matches[..|matches| - 1], matches[|matches| - 1];
      assert matches == init + [last];
      PolicyOfHumans(x, init);
      PolicyOfOneMore(x, init, last);
    }
  }

  lemma {:induction false} PolicyOfOneMore(x: EvidenceInput, init: seq<EvidenceMatch>, last: EvidenceMatch)
    requires HumanMatches(PolicyMatches(x, init)) == PolicyMatches(x, HumanMatches(init))
    ensures HumanMatches(PolicyMatches(x, init + [last])) == PolicyMatches(x, HumanMatches(init + [last]))
  {
    PolicyExtends(x, init, last);
    HumansExtend(init, last);
    HumansExtend(PolicyMatches(x, init), last);
    PolicyExtends(x, HumanMatches(init), last);
  }

  /** Neither function reads the matches of the input itself. */
  lemma {:induction false} SameForBoth(x: EvidenceInput, y: EvidenceInput, matches: seq<EvidenceMatch>, r: string)
    requires y == x.(matches := y.matches)
    ensures DecidedIds(x, matches, r) == DecidedIds(y, matches, r) && PolicyMatches(x, matches) == PolicyMatches(y, matches)
  {
    if matches != [] { SameForBoth(x, y, matches[..|matches| - 1], r); }
  }

  lemma {:induction false} SameReferences(x: EvidenceInput, y: EvidenceInput, r: string)
    requires OnlyAiDiffers(x, y)
    ensures HumanReferences(x, r) == HumanReferences(y, r)
  {
    DecidedByHumans(x, x.matches, r);
    DecidedByHumans(y, y.matches, r);
    SameForBoth(x, y, HumanMatches(x.matches), r);
  }

  lemma {:induction false} SamePolicy(x: EvidenceInput, y: EvidenceInput)
    requires OnlyAiDiffers(x, y)
    ensures SameDecisions(EngineInput(x), EngineInput(y))
  {
    PolicyOfHumans(x, x.matches);
    PolicyOfHumans(y, y.matches);
    SameForBoth(x, y, HumanMatches(x.matches), "");
  }

  lemma {:induction false} SuggestionsPersist(x: EvidenceInput, y: EvidenceInput, r: string)
    requires OnlyAiDiffers(x, y) && MoreAi(EngineInput(x), EngineInput(y)) && SuggestionPresent(x, r)
    ensures SuggestionPresent(y, r)
  {
    var m :| m in x.matches && m.requirementId == r && (m.AiSuggestion? || IsAuthorized(x, m));
    if m.AiSuggestion? {
      PolicyMembership(x, x.matches, m);
      PolicyMembership(y, y.matches, m);
      assert m in y.matches;
    } else {
      HumanMembership(x.matches, m);
      HumanMembership(y.matches, m);
      assert m in y.matches && IsAuthorized(y, m);
    }
  }

  lemma {:induction false} ObservationForIs(x: EvidenceInput, r: Requirement)
    requires DistinctStrings(RequirementIds(x.requirements)) && r in x.requirements
    ensures ObservationFor(EngineInput(x), r.id) == ObservationOf(x, r)
  {
    ObservationKept(x, x.requirements, r);
  }

  lemma {:induction false} ObservedClose(kind: RequirementKind, references: seq<string>, before: bool, after: bool)
    ensures Close(ObservationWith(kind, references, before), ObservationWith(kind, references, after))
    ensures (before ==> after) ==> SuggestsMore(ObservationWith(kind, references, before), ObservationWith(kind, references, after))
    ensures ObservationWith(kind, references, before).references == ObservationWith(kind, references, after).references
  {
  }

  lemma {:induction false} Alike(x: EvidenceInput, y: EvidenceInput, r: Requirement)
    requires OnlyAiDiffers(x, y) && DistinctStrings(RequirementIds(x.requirements)) && r in x.requirements
    ensures ObservedAlike(EngineInput(x), EngineInput(y), r.id)
  {
    ObservationForIs(x, r);
    ObservationForIs(y, r);
    SameReferences(x, y, r.id);
    ObservedClose(r.kind, HumanReferences(x, r.id), SuggestionPresent(x, r.id), SuggestionPresent(y, r.id));
    if MoreAi(EngineInput(x), EngineInput(y)) && SuggestionPresent(x, r.id) { SuggestionsPersist(x, y, r.id); }
  }

  lemma {:induction false} ReferencesAlikeOne(x: EvidenceInput, y: EvidenceInput, r: Requirement)
    requires OnlyAiDiffers(x, y)
    ensures ObservationOf(x, r).references == ObservationOf(y, r).references
  {
    SameReferences(x, y, r.id);
    ObservedClose(r.kind, HumanReferences(x, r.id), SuggestionPresent(x, r.id), SuggestionPresent(y, r.id));
  }

  /** References of observations do not depend on the AI suggestions. */
  lemma {:induction false} ReferencesAlike(x: EvidenceInput, y: EvidenceInput, rs: seq<Requirement>, id: string)
    requires OnlyAiDiffers(x, y)
    ensures id in Observations(x, rs) <==> id in Observations(y, rs)
    ensures id in Observations(x, rs) ==> Observations(x, rs)[id].references == Observations(y, rs)[id].references
  {
    if rs != [] {
      ReferencesAlike(x, y, rs[..|rs| - 1], id);
      ReferencesAlikeOne(x, y, rs[|rs| - 1]);
    }
  }

  lemma {:induction false} ReferencesStayOk(x: EvidenceInput, y: EvidenceInput)
    requires OnlyAiDiffers(x, y) && ReferencesOk(EngineInput(x))
    ensures ReferencesOk(EngineInput(y))
  {
    forall id | id in EngineInput(y).observations ensures AllReferences(EngineInput(y).observations[id].references) {
      ReferencesAlike(x, y, x.requirements, id);
    }
  }

  lemma {:induction false} RequirementsAgree(x: EvidenceInput, y: EvidenceInput, rs: seq<Requirement>)
    requires OnlyAiDiffers(x, y) && DistinctStrings(RequirementIds(x.requirements)) && forall r :: r in rs ==> r in x.requirements
    requires EvaluateAll(EngineInput(x), rs, ApprovalPending).Success?
    ensures EvaluateAll(EngineInput(y), rs, ApprovalPending).Success?
    ensures var es, fs := EvaluateAll(EngineInput(x), rs, ApprovalPending).value, EvaluateAll(EngineInput(y), rs, ApprovalPending).value;
            && EvaluationsAgree(es, fs) && (StatusOf(es).Eligible? <==> StatusOf(fs).Eligible?)
            && (MoreAi(EngineInput(x), EngineInput(y)) ==> OnlyRaised(es, fs))
  {
    var i, j := EngineInput(x), EngineInput(y);
    SamePolicy(x, y);
    forall r | r in rs ensures ObservedAlike(i, j, r.id) { Alike(x, y, r); }
    AllAgree(i, j, rs, ApprovalPending);
    BlockersDidNotPass(i, rs, ApprovalPending);
    BlockersDidNotPass(j, rs, ApprovalPending);
    AgreeingVerdicts(EvaluateAll(i, rs, ApprovalPending).value, EvaluateAll(j, rs, ApprovalPending).value);
  }

  /**
   Two evidence inputs inside the boundary that differ only in AI suggestions evaluate alike: the same requirements pass and
   the milestone is eligible for both or for neither; more suggestions can only move a FAIL to REVIEW.
   */
  lemma {:induction false} EvidenceAiNonInterference(x: EvidenceInput, y: EvidenceInput)
    requires OnlyAiDiffers(x, y) && Boundary(y) && EvaluateEvidence(x).Success?
    ensures EvaluateEvidence(y).Success?
    ensures var e, f := EvaluateEvidence(x).value.evaluation, EvaluateEvidence(y).value.evaluation;
            && EvaluationsAgree(e.requirements, f.requirements)
            && (e.status.Eligible? <==> f.status.Eligible?)
            && e.humanApprovalRequired && f.humanApprovalRequired
            && (MoreAi(EngineInput(x), EngineInput(y)) ==> OnlyRaised(e.requirements, f.requirements))
  {
    EvaluationIs(x);
    EvaluationIs(y);
    ReferencesStayOk(x, y);
    SortedRequirements(x.requirements);
    RequirementsAgree(x, y, Sort(x.requirements, RequirementLe));
  }
}
