/**
 The references that the evidence engine builds are exactly what the milestone engine accepts, so with plain evidence ids
 an evaluation fails only when a decision accepted evidence of the wrong kind.
 */
module EvidenceProperties {
  import opened Wrappers
  import opened Sorting
  import opened Milestones
  import opened Evidence

  // ----- sets behind sequences -----

  lemma {:induction false} DistinctHolds(xs: seq<string>)
    ensures DistinctStrings(Distinct(xs)) && forall s :: s in Distinct(xs) <==> s in xs
  {
    if xs != [] {
      DistinctHolds(xs[..|xs| - 1]);
      assert xs == xs[..|xs| - 1] + [xs[|xs| - 1]];
    }
  }

  lemma {:induction false} InsertMembers(x: string, xs: seq<string>)
    ensures forall s :: s in Insert(x, xs, IdLe) <==> s == x || s in xs
  {
    if xs != [] && !IdLe(x, xs[0]) {
      InsertMembers(x, xs[1..]);
      assert xs == [xs[0]] + xs[1..];
    }
  }

  lemma {:induction false} SortMembers(xs: seq<string>)
    ensures forall s :: s in Sort(xs, IdLe) <==> s in xs
  {
    if xs != [] {
      SortMembers(xs[1..]);
      InsertMembers(xs[0], Sort(xs[1..], IdLe));
      assert xs == [xs[0]] + xs[1..];
    }
  }

  lemma {:induction false} Prefixed(x: string, xs: seq<string>)
    requires DistinctStrings(xs) && x !in xs
    ensures DistinctStrings([x] + xs)
  {
  }

  lemma {:induction false} InsertDistinct(x: string, xs: seq<string>)
    requires DistinctStrings(xs) && x !in xs
    ensures DistinctStrings(Insert(x, xs, IdLe))
  {
    if xs != [] && !IdLe(x, xs[0]) {
      InsertDistinct(x, xs[1..]);
      InsertMembers(x, xs[1..]);
      Prefixed(xs[0], Insert(x, xs[1..], IdLe));
    } else {
      Prefixed(x, xs);
    }
  }

  lemma {:induction false} SortDistinct(xs: seq<string>)
    requires DistinctStrings(xs)
    ensures DistinctStrings(Sort(xs, IdLe))
  {
    if xs != [] {
      SortDistinct(xs[1..]);
      SortMembers(xs[1..]);
      InsertDistinct(xs[0], Sort(xs[1..], IdLe));
    }
  }

  function Elements(xs: seq<string>): set<string> {
    set s | s in xs
  }

  // ----- lookups -----

  lemma {:induction false} FindIs(items: seq<EvidenceItem>, id: string)
    requires DistinctStrings(Keys(items, ItemId))
    ensures forall e :: Find(items, id) == Some(e) <==> e in items && e.id == id
    ensures Find(items, id).Some? <==> id in Keys(items, ItemId)
  {
    if items != [] {
      var n := |items| - 1;
      KeysStep(items, n, ItemId);
      assert items[..n + 1] == items;
      FindIs(items[..n], id);
      assert items == items[..n] + [items[n]];
      if items[n].id == id {
        assert id !in Keys(items[..n], ItemId);
        forall e | e in items[..n] ensures e.id != id {
          var k :| 0 <= k < n && items[..n][k] == e;
          assert Keys(items[..n], ItemId)[k] == ItemId(e);
        }
      }
    }
  }

  lemma {:induction false} FindRequirementIs(rs: seq<Requirement>, r: Requirement)
    requires DistinctStrings(RequirementIds(rs)) && r in rs
    ensures FindRequirement(rs, r.id) == Some(r)
  {
    if rs[0].id == r.id {
      var k :| 0 <= k < |rs| && rs[k] == r;
      assert RequirementIds(rs)[0] == RequirementIds(rs)[k];
    } else {
      assert rs == [rs[0]] + rs[1..];
      assert RequirementIds(rs)[1..] == RequirementIds(rs[1..]);
      FindRequirementIs(rs[1..], r);
    }
  }

  lemma {:induction false} WholeSlice(items: seq<EvidenceItem>, p: string)
    requires forall k :: 0 <= k < |items| ==> items[k].projectId == p
    ensures ProjectItems(items, p) == items
  {
    if items != [] { WholeSlice(items[..|items| - 1], p); }
  }

  lemma {:induction false} CheckPasses(items: seq<EvidenceItem>, at: int)
    requires DistinctStrings(Keys(items, ItemId)) && forall k :: 0 <= k < |items| ==> items[k].submittedAt <= at
    ensures CheckItems(items, at).Passed?
  {
    if items != [] {
      var n := |items| - 1;
      KeysStep(items, n, ItemId);
      assert items[..n + 1] == items;
      CheckPasses(items[..n], at);
      FindIs(items[..n], items[n].id);
    }
  }

  /** The kind of evidence whose accepted items a requirement counts. */
  function CountedKind(kind: RequirementKind): EvidenceKind {
    if kind.DeliverableKind? then Deliverable else if kind.FounderConfirmation? then Confirmation else Receipt
  }

  /** What the boundary makes of the engine's view of the evidence. */
  lemma {:induction false} SliceIs(x: EvidenceInput)
    requires Boundary(x)
    ensures Slice(EngineInput(x)) == x.items && CheckItems(x.items, x.evaluatedAt).Passed?
  {
    WholeSlice(x.items, x.milestone.projectId);
    CheckPasses(x.items, x.evaluatedAt);
  }

  lemma {:induction false} PolicyMembership(x: EvidenceInput, matches: seq<EvidenceMatch>, m: EvidenceMatch)
    ensures m in PolicyMatches(x, matches) <==> m in matches && (m.AiSuggestion? || IsAuthorized(x, m))
  {
    if matches != [] {
      PolicyMembership(x, matches[..|matches| - 1], m);
      assert matches == matches[..|matches| - 1] + [matches[|matches| - 1]];
    }
  }

  ghost predicate Decides(x: EvidenceInput, matches: seq<EvidenceMatch>, r: string, m: EvidenceMatch) {
    m in matches && m.requirementId == r && IsAuthorized(x, m)
  }

  lemma {:induction false} DecidedMembership(x: EvidenceInput, matches: seq<EvidenceMatch>, r: string)
    ensures forall id :: id in DecidedIds(x, matches, r) <==> exists m :: Decides(x, matches, r, m) && m.evidenceId == id
  {
    if matches != [] {
      var init, last := matches[..|matches| - 1], matches[|matches| - 1];
      DecidedMembership(x, init, r);
      assert matches == init + [last];
      assert forall m :: Decides(x, matches, r, m) <==> Decides(x, init, r, m) || (m == last && last.requirementId == r && IsAuthorized(x, last));
    }
  }

  /** The engine accepts exactly the authorized decisions. */
  lemma {:induction false} AcceptsIs(x: EvidenceInput, r: string, m: EvidenceMatch)
    requires Boundary(x)
    ensures (m in EngineInput(x).matches && Accepts(EngineInput(x), m, r)) <==> Decides(x, x.matches, r, m)
  {
    SliceIs(x);
    PolicyMembership(x, x.matches, m);
  }

  lemma {:induction false} ReferencesHold(x: EvidenceInput, r: string)
    ensures DistinctStrings(HumanReferences(x, r))
    ensures forall id :: id in HumanReferences(x, r) <==> exists m :: Decides(x, x.matches, r, m) && m.evidenceId == id
  {
    var ids := DecidedIds(x, x.matches, r);
    DecidedMembership(x, x.matches, r);
    DistinctHolds(ids);
    SortDistinct(Distinct(ids));
    SortMembers(Distinct(ids));
  }

  /** The built references are exactly the provenance index's accepted evidence. */
  lemma {:induction false} ReferencesAreAccepted(x: EvidenceInput, r: string)
    requires Boundary(x)
    ensures Elements(HumanReferences(x, r)) == AcceptedIds(EngineInput(x), r)
  {
    ReferencesHold(x, r);
    var i := EngineInput(x);
    forall id ensures id in AcceptedIds(i, r) <==> id in HumanReferences(x, r) {
      if id in AcceptedIds(i, r) {
        var m :| m in i.matches && Accepts(i, m, r) && m.evidenceId == id;
        AcceptsIs(x, r, m);
        assert Decides(x, x.matches, r, m);
      }
      if id in HumanReferences(x, r) {
        var m :| Decides(x, x.matches, r, m) && m.evidenceId == id;
        AcceptsIs(x, r, m);
        assert m in i.matches && Accepts(i, m, r);
      }
    }
  }

  // ----- when plain references check -----

  predicate PlainIds(items: seq<EvidenceItem>) {
    forall k :: 0 <= k < |items| ==> IsReference(items[k].id) && !IsHashReference(items[k].id)
  }

  /** References that are plain ids of known evidence, each once. */
  ghost predicate PlainReferences(items: seq<EvidenceItem>, references: seq<string>) {
    DistinctStrings(references) && forall k :: 0 <= k < |references| ==> !IsHashReference(references[k]) && Find(items, references[k]).Some?
  }

  lemma {:induction false} PlainResolution(items: seq<EvidenceItem>, accepted: set<string>, references: seq<string>)
    requires PlainReferences(items, references)
    ensures ResolveAll(items, accepted, references) ==
            if Elements(references) <= accepted then Success(Elements(references)) else Failure(BadReferences)
  {
    if references == [] {
      assert Elements(references) == {};
    } else {
      var init, last := references[..|references| - 1], references[|references| - 1];
      PlainResolution(items, accepted, init);
      assert references == init + [last];
      assert Elements(references) == Elements(init) + {last};
      assert last !in init by {
        assert forall k :: 0 <= k < |init| ==> init[k] == references[k];
      }
      assert PlainReferences(items, init);
      assert ResolveReference(items, accepted, last) == if last in accepted then Success(last) else Failure(BadReferences);
    }
  }

  /** Plain references check exactly when they are the accepted set. */
  lemma {:induction false} PlainCheck(items: seq<EvidenceItem>, accepted: set<string>, references: seq<string>)
    requires PlainReferences(items, references)
    ensures CheckReferences(items, accepted, references) ==
            if Elements(references) == accepted then Success(|accepted|) else Failure(BadReferences)
  {
    PlainResolution(items, accepted, references);
  }

  lemma {:induction false} HumanReferencesPlain(x: EvidenceInput, r: string)
    requires Boundary(x) && PlainIds(x.items)
    ensures PlainReferences(x.items, HumanReferences(x, r)) && AllReferences(HumanReferences(x, r))
  {
    ReferencesHold(x, r);
    var refs := HumanReferences(x, r);
    forall k | 0 <= k < |refs| ensures !IsHashReference(refs[k]) && Find(x.items, refs[k]).Some? && IsReference(refs[k]) {
      assert refs[k] in refs;
      var m :| Decides(x, x.matches, r, m) && m.evidenceId == refs[k];
      FindIs(x.items, refs[k]);
      var e := Find(x.items, refs[k]).value;
      assert e in x.items;
    }
  }

  // ----- the kinds of accepted evidence -----

  ghost predicate OnlyOfKind(x: EvidenceInput, r: string, kind: EvidenceKind) {
    forall m :: Decides(x, x.matches, r, m) ==> Find(x.items, m.evidenceId).value.kind == kind
  }

  ghost predicate SomeOfKind(x: EvidenceInput, r: string, kind: EvidenceKind) {
    exists m :: Decides(x, x.matches, r, m) && Find(x.items, m.evidenceId).value.kind == kind
  }

  /** The accepted evidence of a requirement is of the kind that the requirement counts. */
  ghost predicate KindFits(x: EvidenceInput, r: Requirement) {
    match r.kind
    case DeliverableKind => OnlyOfKind(x, r.id, Deliverable)
    case ExpenseRecords(_) => OnlyOfKind(x, r.id, Receipt)
    case FounderConfirmation => SomeOfKind(x, r.id, Confirmation) ==> OnlyOfKind(x, r.id, Confirmation)
    case _ => true
  }

  lemma {:induction false} AcceptedOfKindIs(x: EvidenceInput, r: string, kind: EvidenceKind, id: string)
    requires Boundary(x)
    ensures id in AcceptedOfKind(EngineInput(x), r, kind) <==>
            exists m :: Decides(x, x.matches, r, m) && m.evidenceId == id && Find(x.items, id).value.kind == kind
  {
    var i := EngineInput(x);
    SliceIs(x);
    if id in AcceptedOfKind(i, r, kind) {
      var m :| m in i.matches && Accepts(i, m, r) && OfKind(i, m, kind) && m.evidenceId == id;
      AcceptsIs(x, r, m);
      assert Decides(x, x.matches, r, m);
    }
    if m :| Decides(x, x.matches, r, m) && m.evidenceId == id && Find(x.items, id).value.kind == kind {
      AcceptsIs(x, r, m);
      assert m in i.matches && Accepts(i, m, r) && OfKind(i, m, kind);
    }
  }

  lemma {:induction false} AcceptedKinds(x: EvidenceInput, r: string, kind: EvidenceKind)
    requires Boundary(x)
    ensures Elements(HumanReferences(x, r)) == AcceptedOfKind(EngineInput(x), r, kind) <==> OnlyOfKind(x, r, kind)
    ensures AcceptedOfKind(EngineInput(x), r, kind) != {} <==> SomeOfKind(x, r, kind)
  {
    var accepted := AcceptedOfKind(EngineInput(x), r, kind);
    ReferencesHold(x, r);
    forall id ensures id in accepted <==> exists m :: Decides(x, x.matches, r, m) && m.evidenceId == id && Find(x.items, id).value.kind == kind {
      AcceptedOfKindIs(x, r, kind, id);
    }
    if Elements(HumanReferences(x, r)) == accepted {
      forall m | Decides(x, x.matches, r, m) ensures Find(x.items, m.evidenceId).value.kind == kind {
        assert m.evidenceId in HumanReferences(x, r);
        assert m.evidenceId in accepted;
      }
    }
    if m :| Decides(x, x.matches, r, m) && Find(x.items, m.evidenceId).value.kind == kind {
      assert m.evidenceId in accepted;
    }
  }

  lemma {:induction false} NoRepeats(references: seq<string>)
    requires DistinctStrings(references)
    ensures !Repeats(references)
  {
  }

  /** One requirement evaluates exactly when its accepted evidence fits. */
  lemma {:induction false} KindDecides(x: EvidenceInput, r: Requirement)
    requires Boundary(x) && PlainIds(x.items)
    ensures EvaluateByKind(EngineInput(x), r, ObservationOf(x, r), ApprovalPending).Success? <==> KindFits(x, r)
  {
    var i, refs := EngineInput(x), HumanReferences(x, r.id);
    SliceIs(x);
    HumanReferencesPlain(x, r.id);
    NoRepeats(refs);
    if r.kind.DeliverableKind? {
      AcceptedKinds(x, r.id, Deliverable);
      PlainCheck(x.items, AcceptedOfKind(i, r.id, Deliverable), refs);
    } else if r.kind.ExpenseRecords? {
      AcceptedKinds(x, r.id, Receipt);
      PlainCheck(x.items, AcceptedOfKind(i, r.id, Receipt), refs);
    } else if r.kind.FounderConfirmation? {
      AcceptedKinds(x, r.id, Confirmation);
      PlainCheck(x.items, AcceptedOfKind(i, r.id, Confirmation), refs);
    } else {
      ReferencesAreAccepted(x, r.id);
      PlainCheck(x.items, AcceptedIds(i, r.id), refs);
    }
  }

  // ----- whole evaluations -----

  lemma {:induction false} ObservationKept(x: EvidenceInput, rs: seq<Requirement>, r: Requirement)
    requires DistinctStrings(RequirementIds(rs)) && r in rs
    ensures r.id in Observations(x, rs) && Observations(x, rs)[r.id] == ObservationOf(x, r)
  {
    var n := |rs| - 1;
    assert rs == rs[..n] + [rs[n]];
    if rs[n] != r {
      var k :| 0 <= k < n && rs[k] == r;
      assert RequirementIds(rs)[k] == r.id && RequirementIds(rs)[n] == rs[n].id;
      assert RequirementIds(rs[..n]) == RequirementIds(rs)[..n];
      PrefixDistinct(RequirementIds(rs), n);
      assert rs[..n][k] == r;
      ObservationKept(x, rs[..n], r);
    }
  }

  lemma {:induction false} ObservationsFrom(x: EvidenceInput, rs: seq<Requirement>, id: string)
    requires id in Observations(x, rs)
    ensures exists r :: r in rs && Observations(x, rs)[id] == ObservationOf(x, r)
  {
    var n := |rs| - 1;
    assert rs == rs[..n] + [rs[n]];
    if rs[n].id != id {
      ObservationsFrom(x, rs[..n], id);
      var r :| r in rs[..n] && Observations(x, rs[..n])[id] == ObservationOf(x, r);
      assert r in rs;
    } else {
      assert rs[n] in rs;
    }
  }

  lemma {:induction false} ObservationPlain(x: EvidenceInput, r: Requirement)
    requires Boundary(x) && PlainIds(x.items)
    ensures AllReferences(ObservationOf(x, r).references)
  {
    HumanReferencesPlain(x, r.id);
  }

  lemma {:induction false} ObservationsPlain(x: EvidenceInput)
    requires Boundary(x) && PlainIds(x.items)
    ensures ReferencesOk(EngineInput(x))
  {
    var os := Observations(x, x.requirements);
    forall id | id in os ensures AllReferences(os[id].references) {
      ObservationsFrom(x, x.requirements, id);
      var r :| r in x.requirements && os[id] == ObservationOf(x, r);
      ObservationPlain(x, r);
    }
  }

  lemma {:induction false} RequirementDecides(x: EvidenceInput, r: Requirement)
    requires Boundary(x) && PlainIds(x.items) && DistinctStrings(RequirementIds(x.requirements)) && r in x.requirements
    ensures EvaluateRequirement(EngineInput(x), r, ApprovalPending).Success? <==> KindFits(x, r)
  {
    ObservationKept(x, x.requirements, r);
    KindDecides(x, r);
    HumanReferencesPlain(x, r.id);
  }

  lemma {:induction false} EvaluateAllStep(i: Input, rs: seq<Requirement>)
    requires rs != []
    ensures EvaluateAll(i, rs, ApprovalPending).Success? <==>
            EvaluateAll(i, rs[..|rs| - 1], ApprovalPending).Success? && EvaluateRequirement(i, rs[|rs| - 1], ApprovalPending).Success?
  {
  }

  lemma {:induction false} AllDecide(x: EvidenceInput, rs: seq<Requirement>)
    requires Boundary(x) && PlainIds(x.items) && DistinctStrings(RequirementIds(x.requirements)) && forall r :: r in rs ==> r in x.requirements
    ensures EvaluateAll(EngineInput(x), rs, ApprovalPending).Success? <==> forall r :: r in rs ==> KindFits(x, r)
  {
    if rs != [] {
      var init, last := rs[..|rs| - 1], rs[|rs| - 1];
      assert rs == init + [last];
      AllDecide(x, init);
      RequirementDecides(x, last);
      EvaluateAllStep(EngineInput(x), rs);
    }
  }

  lemma {:induction false} SortedRequirements(rs: seq<Requirement>)
    ensures forall r :: r in Sort(rs, RequirementLe) <==> r in rs
    ensures IsSorted(Sort(rs, RequirementLe), RequirementLe) && multiset(Sort(rs, RequirementLe)) == multiset(rs)
  {
    forall a, b ensures RequirementLe(a, b) || RequirementLe(b, a) { IdLeTotal(a.id, b.id); }
    forall a, b, c | RequirementLe(a, b) && RequirementLe(b, c) ensures RequirementLe(a, c) { IdLeTransitive(a.id, b.id, c.id); }
    SortSorts(rs, RequirementLe);
    forall r ensures r in Sort(rs, RequirementLe) <==> r in rs {
      assert r in multiset(rs) <==> r in rs;
      assert r in multiset(Sort(rs, RequirementLe)) <==> r in Sort(rs, RequirementLe);
    }
  }

  lemma {:induction false} EvaluationAt(i: Input, rs: seq<Requirement>, k: nat)
    requires EvaluateAll(i, rs, ApprovalPending).Success? && k < |rs|
    ensures |EvaluateAll(i, rs, ApprovalPending).value| == |rs|
    ensures EvaluateRequirement(i, rs[k], ApprovalPending) == Success(EvaluateAll(i, rs, ApprovalPending).value[k])
  {
    var n := |rs| - 1;
    if n > 0 { EvaluationAt(i, rs[..n], if k < n then k else 0); }
  }

  lemma {:induction false} ExpenseRequirementIs(rs: seq<Requirement>)
    ensures match ExpenseRequirement(rs)
            case Some(r) => r in rs && r.kind.ExpenseRecords? && r.required
            case None => forall r :: r in rs ==> !(r.kind.ExpenseRecords? && r.required)
  {
    if rs != [] && !(rs[0].kind.ExpenseRecords? && rs[0].required) {
      ExpenseRequirementIs(rs[1..]);
      assert rs == [rs[0]] + rs[1..];
    }
  }

  /** The evaluations of an evidence input, one per requirement in the order of their ids. */
  ghost function Findings(x: EvidenceInput): Result<seq<RequirementEvaluation>, MilestoneError> {
    EvaluateAll(EngineInput(x), Sort(x.requirements, RequirementLe), ApprovalPending)
  }

  /** What an evaluation needs, and what it concludes. */
  lemma {:induction false} EvaluationIs(x: EvidenceInput)
    ensures EvaluateEvidence(x).Success? <==>
            Boundary(x) && ReferencesOk(EngineInput(x)) && RequirementSet(x.milestone, x.requirements) && Findings(x).Success?
    ensures EvaluateEvidence(x).Success? ==>
            EvaluateEvidence(x).value == EvidenceResult(Concluded(EngineInput(x), Findings(x).value, ApprovalPending), MissingReceiptGap(x, Findings(x).value))
  {
    if Boundary(x) { SliceIs(x); }
  }

  /**
   With plain evidence ids an evaluation inside the boundary fails exactly when the requirements are not the milestone's own,
   or some decision accepted evidence of a kind that its requirement does not count.
   */
  lemma {:induction false} FailsOnlyOnWrongKind(x: EvidenceInput)
    requires Boundary(x) && PlainIds(x.items)
    ensures EvaluateEvidence(x).Success? <==>
            RequirementSet(x.milestone, x.requirements) && forall r :: r in x.requirements ==> KindFits(x, r)
  {
    var i := EngineInput(x);
    SliceIs(x);
    ObservationsPlain(x);
    if RequirementSet(x.milestone, x.requirements) {
      SortedRequirements(x.requirements);
      AllDecide(x, Sort(x.requirements, RequirementLe));
    }
  }
}
