/** The order in which requirements, evidence and matches are supplied does not change the evaluation. */
module EvidenceOrder {
  import opened Wrappers
  import opened Sorting
  import opened Milestones
  import opened Evidence
  import opened EvidenceProperties

  /** The same evidence input with its lists in another order. */
  predicate Permuted(x: EvidenceInput, y: EvidenceInput) {
    && y == x.(milestone := x.milestone.(requirementIds := y.milestone.requirementIds), requirements := y.requirements, items := y.items, matches := y.matches)
    && multiset(x.milestone.requirementIds) == multiset(y.milestone.requirementIds)
    && multiset(x.requirements) == multiset(y.requirements)
    && multiset(x.items) == multiset(y.items)
    && multiset(x.matches) == multiset(y.matches)
  }

  // ----- permutations -----

  lemma {:induction false} SameMembers<T>(xs: seq<T>, ys: seq<T>)
    requires multiset(xs) == multiset(ys)
    ensures forall e :: e in xs <==> e in ys
  {
    forall e ensures e in xs <==> e in ys {
      assert e in multiset(xs) <==> e in xs;
      assert e in multiset(ys) <==> e in ys;
    }
  }

  lemma {:induction false} Removed<T>(ys: seq<T>, j: nat)
    requires j < |ys|
    ensures multiset(ys) == multiset(ys[..j] + ys[j + 1..]) + multiset{ys[j]}
  {
    assert ys == ys[..j] + [ys[j]] + ys[j + 1..];
  }

  lemma {:induction false} KeysRemoved<T>(ys: seq<T>, j: nat, key: T -> string)
    requires j < |ys|
    ensures multiset(Keys(ys, key)) == multiset(Keys(ys[..j] + ys[j + 1..], key)) + multiset{key(ys[j])}
  {
    var ks := Keys(ys, key);
    Removed(ks, j);
    assert Keys(ys[..j] + ys[j + 1..], key) == ks[..j] + ks[j + 1..];
  }

  lemma {:induction false} HeadRemoved<T>(xs: seq<T>)
    requires xs != []
    ensures multiset(xs) == multiset(xs[1..]) + multiset{xs[0]}
  {
    assert xs == [xs[0]] + xs[1..];
  }

  lemma {:induction false} Cancel<T>(a: multiset<T>, b: multiset<T>, c: multiset<T>)
    requires a + c == b + c
    ensures a == b
  {
    assert a == (a + c) - c && b == (b + c) - c;
  }

  /** A permutation of a list that starts with `x` is a permutation of its rest with `x` inserted somewhere. */
  lemma {:induction false} RestPermutes<T>(xs: seq<T>, ys: seq<T>) returns (j: nat)
    requires xs != [] && multiset(xs) == multiset(ys)
    ensures j < |ys| && ys[j] == xs[0] && multiset(xs[1..]) == multiset(ys[..j] + ys[j + 1..])
  {
    assert xs[0] in multiset(ys);
    j :| 0 <= j < |ys| && ys[j] == xs[0];
    HeadRemoved(xs);
    Removed(ys, j);
    Cancel(multiset(xs[1..]), multiset(ys[..j] + ys[j + 1..]), multiset{xs[0]});
  }

  lemma {:induction false} KeysHead<T>(xs: seq<T>, key: T -> string)
    requires xs != []
    ensures multiset(Keys(xs, key)) == multiset(Keys(xs[1..], key)) + multiset{key(xs[0])}
  {
    HeadRemoved(Keys(xs, key));
    assert Keys(xs, key)[1..] == Keys(xs[1..], key);
  }

  lemma {:induction false} KeysPermute<T>(xs: seq<T>, ys: seq<T>, key: T -> string)
    requires multiset(xs) == multiset(ys)
    ensures multiset(Keys(xs, key)) == multiset(Keys(ys, key))
    decreases |xs|
  {
    if xs == [] {
      assert |multiset(ys)| == |ys|;
    } else {
      var j := RestPermutes(xs, ys);
      KeysPermute(xs[1..], ys[..j] + ys[j + 1..], key);
      KeysHead(xs, key);
      KeysRemoved(ys, j, key);
    }
  }

  lemma {:induction false} DistinctCounts(ss: seq<string>)
    ensures DistinctStrings(ss) <==> forall s :: multiset(ss)[s] <= 1
  {
    if ss != [] {
      var n := |ss| - 1;
      assert ss == ss[..n] + [ss[n]];
      DistinctCounts(ss[..n]);
      if DistinctStrings(ss) {
        assert ss[n] !in ss[..n];
        assert ss[n] !in multiset(ss[..n]);
      }
      if forall s :: multiset(ss)[s] <= 1 {
        assert multiset(ss)[ss[n]] == multiset(ss[..n])[ss[n]] + 1;
        assert ss[n] !in multiset(ss[..n]);
        forall s ensures multiset(ss[..n])[s] <= 1 { assert multiset(ss)[s] >= multiset(ss[..n])[s]; }
      }
    }
  }

  lemma {:induction false} DistinctPermutes(ss: seq<string>, ts: seq<string>)
    requires multiset(ss) == multiset(ts) && DistinctStrings(ss)
    ensures DistinctStrings(ts)
  {
    DistinctCounts(ss);
    DistinctCounts(ts);
  }

  lemma {:induction false} HeadsAgree<T>(xs: seq<T>, ys: seq<T>, le: (T, T) -> bool)
    requires xs != [] && ys != [] && multiset(xs) == multiset(ys) && IsSorted(xs, le) && IsSorted(ys, le)
    requires forall a, b :: a in xs && b in xs && le(a, b) && le(b, a) ==> a == b
    ensures xs[0] == ys[0]
  {
    SameMembers(xs, ys);
    assert xs[0] in ys && ys[0] in xs;
    var j :| 0 <= j < |ys| && ys[j] == xs[0];
    var k :| 0 <= k < |xs| && xs[k] == ys[0];
    if j > 0 && k > 0 { assert le(ys[0], ys[j]) && le(xs[0], xs[k]); }
  }

  /** Sorted sequences of the same elements are equal when the order tells distinct elements apart. */
  lemma {:induction false} SortedUnique<T>(xs: seq<T>, ys: seq<T>, le: (T, T) -> bool)
    requires multiset(xs) == multiset(ys) && IsSorted(xs, le) && IsSorted(ys, le)
    requires forall a, b :: a in xs && b in xs && le(a, b) && le(b, a) ==> a == b
    ensures xs == ys
    decreases |xs|
  {
    if xs == [] {
      assert |multiset(ys)| == |ys|;
    } else {
      assert xs[0] in multiset(ys);
      HeadsAgree(xs, ys, le);
      HeadRemoved(xs);
      HeadRemoved(ys);
      Cancel(multiset(xs[1..]), multiset(ys[1..]), multiset{xs[0]});
      SortedUnique(xs[1..], ys[1..], le);
      assert xs == [xs[0]] + xs[1..] && ys == [ys[0]] + ys[1..];
    }
  }

  lemma {:induction false} SetMultiset(ss: seq<string>, ts: seq<string>)
    requires DistinctStrings(ss) && DistinctStrings(ts) && forall s :: s in ss <==> s in ts
    ensures multiset(ss) == multiset(ts)
  {
    DistinctCounts(ss);
    DistinctCounts(ts);
    forall s ensures multiset(ss)[s] == multiset(ts)[s] {
      assert s in multiset(ss) <==> s in ss;
      assert s in multiset(ts) <==> s in ts;
    }
  }

  lemma {:induction false} IdLeOrders()
    ensures IsTotalPreorder(IdLe)
  {
    forall a, b ensures IdLe(a, b) || IdLe(b, a) { IdLeTotal(a, b); }
    forall a, b, c | IdLe(a, b) && IdLe(b, c) ensures IdLe(a, c) { IdLeTransitive(a, b, c); }
  }

  /** Sorting two lists of distinct ids with the same members gives the same list. */
  lemma {:induction false} SameSorted(ss: seq<string>, ts: seq<string>)
    requires DistinctStrings(ss) && DistinctStrings(ts) && forall s :: s in ss <==> s in ts
    ensures Sort(ss, IdLe) == Sort(ts, IdLe)
  {
    SetMultiset(ss, ts);
    IdLeOrders();
    SortSorts(ss, IdLe);
    SortSorts(ts, IdLe);
    forall a, b | IdLe(a, b) && IdLe(b, a) ensures a == b { IdLeAntisymmetric(a, b); }
    SortedUnique(Sort(ss, IdLe), Sort(ts, IdLe), IdLe);
  }

  // ----- what a permutation keeps -----

  function RequirementId(r: Requirement): string { r.id }

  lemma {:induction false} RequirementIdsPermute(rs: seq<Requirement>, qs: seq<Requirement>)
    requires multiset(rs) == multiset(qs)
    ensures multiset(RequirementIds(rs)) == multiset(RequirementIds(qs))
  {
    assert RequirementIds(rs) == Keys(rs, RequirementId) && RequirementIds(qs) == Keys(qs, RequirementId);
    KeysPermute(rs, qs, RequirementId);
  }

  lemma {:induction false} BoundaryKept(x: EvidenceInput, y: EvidenceInput)
    requires Permuted(x, y) && Boundary(x)
    ensures Boundary(y)
  {
    SameMembers(x.items, y.items);
    SameMembers(x.matches, y.matches);
    KeysPermute(x.items, y.items, ItemId);
    KeysPermute(x.items, y.items, ItemHash);
    KeysPermute(x.matches, y.matches, MatchId);
    DistinctPermutes(Keys(x.items, ItemId), Keys(y.items, ItemId));
    DistinctPermutes(Keys(x.items, ItemHash), Keys(y.items, ItemHash));
    DistinctPermutes(Keys(x.matches, MatchId), Keys(y.matches, MatchId));
    RequirementIdsPermute(x.requirements, y.requirements);
    SameMembers(Keys(x.items, ItemId), Keys(y.items, ItemId));
    SameMembers(RequirementIds(x.requirements), RequirementIds(y.requirements));
    forall k | 0 <= k < |y.items| ensures BelongsTo(y, y.items[k]) { assert y.items[k] in x.items; }
    forall k | 0 <= k < |y.matches| ensures Inside(y, y.matches[k]) { assert y.matches[k] in x.matches; }
  }

  lemma {:induction false} RequirementSetKept(x: EvidenceInput, y: EvidenceInput)
    requires Permuted(x, y) && RequirementSet(x.milestone, x.requirements)
    ensures RequirementSet(y.milestone, y.requirements)
  {
    SameMembers(x.requirements, y.requirements);
    SameMembers(x.milestone.requirementIds, y.milestone.requirementIds);
    DistinctPermutes(x.milestone.requirementIds, y.milestone.requirementIds);
    RequirementIdsPermute(x.requirements, y.requirements);
    DistinctPermutes(RequirementIds(x.requirements), RequirementIds(y.requirements));
    SameMembers(RequirementIds(x.requirements), RequirementIds(y.requirements));
    forall k | 0 <= k < |y.requirements| ensures y.requirements[k].milestoneId == y.milestone.id { assert y.requirements[k] in x.requirements; }
  }

  /** Both inputs are inside the boundary and have the milestone's own requirements. */
  ghost predicate BothValid(x: EvidenceInput, y: EvidenceInput) {
    && Permuted(x, y) && Boundary(x) && Boundary(y)
    && RequirementSet(x.milestone, x.requirements) && RequirementSet(y.milestone, y.requirements)
  }

  lemma {:induction false} SameFound(x: EvidenceInput, y: EvidenceInput, id: string)
    requires BothValid(x, y)
    ensures Find(x.items, id) == Find(y.items, id)
  {
    FindIs(x.items, id);
    FindIs(y.items, id);
    SameMembers(x.items, y.items);
    if Find(x.items, id).Some? { assert Find(y.items, id) == Some(Find(x.items, id).value); }
    if Find(y.items, id).Some? { assert Find(x.items, id) == Some(Find(y.items, id).value); }
  }

  lemma {:induction false} FoundRequirement(rs: seq<Requirement>, id: string)
    ensures FindRequirement(rs, id).Some? ==> FindRequirement(rs, id).value in rs && FindRequirement(rs, id).value.id == id
  {
    if rs != [] && rs[0].id != id {
      FoundRequirement(rs[1..], id);
      assert rs == [rs[0]] + rs[1..];
    }
  }

  lemma {:induction false} SameRequirement(x: EvidenceInput, y: EvidenceInput, id: string)
    requires BothValid(x, y)
    ensures FindRequirement(x.requirements, id) == FindRequirement(y.requirements, id)
  {
    SameMembers(x.requirements, y.requirements);
    FoundRequirement(x.requirements, id);
    FoundRequirement(y.requirements, id);
    if FindRequirement(x.requirements, id).Some? { FindRequirementIs(y.requirements, FindRequirement(x.requirements, id).value); }
    if FindRequirement(y.requirements, id).Some? { FindRequirementIs(x.requirements, FindRequirement(y.requirements, id).value); }
  }

  lemma {:induction false} SameAuthority(x: EvidenceInput, y: EvidenceInput, m: EvidenceMatch)
    requires BothValid(x, y)
    ensures IsAuthorized(x, m) == IsAuthorized(y, m)
  {
    SameFound(x, y, m.evidenceId);
    SameRequirement(x, y, m.requirementId);
  }

  lemma {:induction false} SameDeciding(x: EvidenceInput, y: EvidenceInput, r: string)
    requires BothValid(x, y)
    ensures forall m :: Decides(x, x.matches, r, m) <==> Decides(y, y.matches, r, m)
  {
    SameMembers(x.matches, y.matches);
    forall m ensures Decides(x, x.matches, r, m) <==> Decides(y, y.matches, r, m) { SameAuthority(x, y, m); }
  }

  lemma {:induction false} SameBuiltReferences(x: EvidenceInput, y: EvidenceInput, r: string)
    requires BothValid(x, y)
    ensures HumanReferences(x, r) == HumanReferences(y, r)
  {
    SameDeciding(x, y, r);
    var ss, ts := DecidedIds(x, x.matches, r), DecidedIds(y, y.matches, r);
    DecidedMembership(x, x.matches, r);
    DecidedMembership(y, y.matches, r);
    DistinctHolds(ss);
    DistinctHolds(ts);
    SameSorted(Distinct(ss), Distinct(ts));
  }

  lemma {:induction false} SameSuggested(x: EvidenceInput, y: EvidenceInput, r: string)
    requires BothValid(x, y) && SuggestionPresent(x, r)
    ensures SuggestionPresent(y, r)
  {
    SameMembers(x.matches, y.matches);
    var m :| m in x.matches && m.requirementId == r && (m.AiSuggestion? || IsAuthorized(x, m));
    SameAuthority(x, y, m);
    assert m in y.matches;
  }

  lemma {:induction false} PermutedBack(x: EvidenceInput, y: EvidenceInput)
    requires BothValid(x, y)
    ensures BothValid(y, x)
  {
  }

  lemma {:induction false} SameObservation(x: EvidenceInput, y: EvidenceInput, r: Requirement)
    requires BothValid(x, y)
    ensures ObservationOf(x, r) == ObservationOf(y, r)
  {
    SameBuiltReferences(x, y, r.id);
    PermutedBack(x, y);
    if SuggestionPresent(x, r.id) { SameSuggested(x, y, r.id); }
    if SuggestionPresent(y, r.id) { SameSuggested(y, x, r.id); }
  }

  // ----- one requirement -----

  lemma {:induction false} SameHashes(x: EvidenceInput, y: EvidenceInput, hash: string)
    requires BothValid(x, y)
    ensures IdsWithHash(x.items, hash) == IdsWithHash(y.items, hash)
  {
    SameMembers(x.items, y.items);
  }

  lemma {:induction false} SameResolution(x: EvidenceInput, y: EvidenceInput, accepted: set<string>, references: seq<string>)
    requires BothValid(x, y)
    ensures ResolveAll(x.items, accepted, references) == ResolveAll(y.items, accepted, references)
  {
    if references != [] {
      var last := references[|references| - 1];
      SameResolution(x, y, accepted, references[..|references| - 1]);
      SameHashes(x, y, last);
      SameFound(x, y, last);
      assert ResolveReference(x.items, accepted, last) == ResolveReference(y.items, accepted, last);
    }
  }

  lemma {:induction false} SamePolicyMatch(x: EvidenceInput, y: EvidenceInput, m: EvidenceMatch)
    requires BothValid(x, y)
    ensures m in EngineInput(x).matches <==> m in EngineInput(y).matches
  {
    SameMembers(x.matches, y.matches);
    SameAuthority(x, y, m);
    PolicyMembership(x, x.matches, m);
    PolicyMembership(y, y.matches, m);
  }

  lemma {:induction false} SameSliced(x: EvidenceInput, y: EvidenceInput, id: string)
    requires BothValid(x, y)
    ensures Find(Slice(EngineInput(x)), id) == Find(Slice(EngineInput(y)), id)
  {
    SliceIs(x);
    SliceIs(y);
    SameFound(x, y, id);
  }

  lemma {:induction false} SameReading(i: Input, j: Input, m: EvidenceMatch, r: string, kind: EvidenceKind)
    requires Find(Slice(i), m.evidenceId) == Find(Slice(j), m.evidenceId) && i.expectedEvaluatorId == j.expectedEvaluatorId && i.expectedFounderId == j.expectedFounderId
    ensures (Accepts(i, m, r) <==> Accepts(j, m, r)) && (Suggests(i, m, r) <==> Suggests(j, m, r)) && (OfKind(i, m, kind) <==> OfKind(j, m, kind))
  {
  }

  lemma {:induction false} SameEngineMatch(x: EvidenceInput, y: EvidenceInput, m: EvidenceMatch, r: string, kind: EvidenceKind)
    requires BothValid(x, y)
    ensures var i, j := EngineInput(x), EngineInput(y);
            && (m in i.matches <==> m in j.matches)
            && (Accepts(i, m, r) <==> Accepts(j, m, r)) && (Suggests(i, m, r) <==> Suggests(j, m, r)) && (OfKind(i, m, kind) <==> OfKind(j, m, kind))
  {
    SameSliced(x, y, m.evidenceId);
    SameReading(EngineInput(x), EngineInput(y), m, r, kind);
    SamePolicyMatch(x, y, m);
  }

  lemma {:induction false} SameEngineMatches(x: EvidenceInput, y: EvidenceInput, r: string, kind: EvidenceKind)
    requires BothValid(x, y)
    ensures var i, j := EngineInput(x), EngineInput(y);
            forall m :: (m in i.matches <==> m in j.matches)
              && (Accepts(i, m, r) <==> Accepts(j, m, r)) && (Suggests(i, m, r) <==> Suggests(j, m, r)) && (OfKind(i, m, kind) <==> OfKind(j, m, kind))
  {
    var i, j := EngineInput(x), EngineInput(y);
    forall m ensures (m in i.matches <==> m in j.matches)
              && (Accepts(i, m, r) <==> Accepts(j, m, r)) && (Suggests(i, m, r) <==> Suggests(j, m, r)) && (OfKind(i, m, kind) <==> OfKind(j, m, kind))
    {
      SameEngineMatch(x, y, m, r, kind);
    }
  }

  lemma {:induction false} SameSets(i: Input, j: Input, r: string, kind: EvidenceKind)
    requires forall m :: (m in i.matches <==> m in j.matches)
              && (Accepts(i, m, r) <==> Accepts(j, m, r)) && (Suggests(i, m, r) <==> Suggests(j, m, r)) && (OfKind(i, m, kind) <==> OfKind(j, m, kind))
    ensures AcceptedOfKind(i, r, kind) == AcceptedOfKind(j, r, kind) && SuggestedOfKind(i, r, kind) == SuggestedOfKind(j, r, kind)
    ensures AcceptedIds(i, r) == AcceptedIds(j, r)
    ensures HasAccepted(i, r) == HasAccepted(j, r) && HasSuggestion(i, r) == HasSuggestion(j, r)
  {
  }

  lemma {:induction false} SameCheck(x: EvidenceInput, y: EvidenceInput, accepted: set<string>, references: seq<string>)
    requires BothValid(x, y)
    ensures CheckReferences(Slice(EngineInput(x)), accepted, references) == CheckReferences(Slice(EngineInput(y)), accepted, references)
  {
    SliceIs(x);
    SliceIs(y);
    SameResolution(x, y, accepted, references);
  }

  /** What the evaluation of one requirement reads, apart from the requirement and its observation. */
  ghost predicate ReadsAlike(i: Input, j: Input, r: string, kind: EvidenceKind, references: seq<string>) {
    && AcceptedOfKind(i, r, kind) == AcceptedOfKind(j, r, kind) && SuggestedOfKind(i, r, kind) == SuggestedOfKind(j, r, kind)
    && AcceptedIds(i, r) == AcceptedIds(j, r)
    && HasAccepted(i, r) == HasAccepted(j, r) && HasSuggestion(i, r) == HasSuggestion(j, r)
    && CheckReferences(Slice(i), AcceptedOfKind(i, r, kind), references) == CheckReferences(Slice(j), AcceptedOfKind(i, r, kind), references)
    && CheckReferences(Slice(i), AcceptedIds(i, r), references) == CheckReferences(Slice(j), AcceptedIds(i, r), references)
    && i.verifiedSpend == j.verifiedSpend && i.milestone.dueAt == j.milestone.dueAt && i.evaluatedAt == j.evaluatedAt && i.approval == j.approval
  }

  lemma {:induction false} CountsDecide(i: Input, j: Input, r: Requirement, o: Observation)
    requires ReadsAlike(i, j, r.id, CountedKind(r.kind), o.references) && (r.kind.DeliverableKind? || r.kind.ExpenseRecords?)
    ensures EvaluateByKind(i, r, o, ApprovalPending) == EvaluateByKind(j, r, o, ApprovalPending)
  {
  }

  lemma {:induction false} ConfirmationDecides(i: Input, j: Input, r: Requirement, o: Observation)
    requires ReadsAlike(i, j, r.id, CountedKind(r.kind), o.references) && (r.kind.FounderConfirmation?)
    ensures EvaluateByKind(i, r, o, ApprovalPending) == EvaluateByKind(j, r, o, ApprovalPending)
  {
  }

  lemma {:induction false} AcceptanceDecides(i: Input, j: Input, r: Requirement, o: Observation)
    requires ReadsAlike(i, j, r.id, CountedKind(r.kind), o.references) && (r.kind.TransactionMatch? || r.kind.BusinessPurpose?)
    ensures EvaluateByKind(i, r, o, ApprovalPending) == EvaluateByKind(j, r, o, ApprovalPending)
  {
  }

  lemma {:induction false} LimitsDecide(i: Input, j: Input, r: Requirement, o: Observation)
    requires ReadsAlike(i, j, r.id, CountedKind(r.kind), o.references) && (r.kind.SpendLimit? || r.kind.DueDate? || r.kind.HumanApproval?)
    ensures EvaluateByKind(i, r, o, ApprovalPending) == EvaluateByKind(j, r, o, ApprovalPending)
  {
  }

  lemma {:induction false} ReadsDecide(i: Input, j: Input, r: Requirement, o: Observation)
    requires ReadsAlike(i, j, r.id, CountedKind(r.kind), o.references)
    ensures EvaluateByKind(i, r, o, ApprovalPending) == EvaluateByKind(j, r, o, ApprovalPending)
  {
    if r.kind.DeliverableKind? || r.kind.ExpenseRecords? { CountsDecide(i, j, r, o); }
    else if r.kind.FounderConfirmation? { ConfirmationDecides(i, j, r, o); }
    else if r.kind.TransactionMatch? || r.kind.BusinessPurpose? { AcceptanceDecides(i, j, r, o); }
    else { LimitsDecide(i, j, r, o); }
  }

  lemma {:induction false} SameFinding(x: EvidenceInput, y: EvidenceInput, r: Requirement, o: Observation)
    requires BothValid(x, y)
    ensures EvaluateByKind(EngineInput(x), r, o, ApprovalPending) == EvaluateByKind(EngineInput(y), r, o, ApprovalPending)
  {
    var i, j, kind := EngineInput(x), EngineInput(y), CountedKind(r.kind);
    SameEngineMatches(x, y, r.id, kind);
    SameSets(i, j, r.id, kind);
    SameCheck(x, y, AcceptedOfKind(i, r.id, kind), o.references);
    SameCheck(x, y, AcceptedIds(i, r.id), o.references);
    ReadsDecide(i, j, r, o);
  }

  lemma {:induction false} SameEvaluation(x: EvidenceInput, y: EvidenceInput, r: Requirement)
    requires BothValid(x, y) && r in x.requirements
    ensures EvaluateRequirement(EngineInput(x), r, ApprovalPending) == EvaluateRequirement(EngineInput(y), r, ApprovalPending)
  {
    SameMembers(x.requirements, y.requirements);
    ObservationKept(x, x.requirements, r);
    ObservationKept(y, y.requirements, r);
    SameObservation(x, y, r);
    SameFinding(x, y, r, ObservationOf(x, r));
  }

  lemma {:induction false} SameEvaluations(x: EvidenceInput, y: EvidenceInput, rs: seq<Requirement>)
    requires BothValid(x, y) && forall r :: r in rs ==> r in x.requirements
    ensures EvaluateAll(EngineInput(x), rs, ApprovalPending) == EvaluateAll(EngineInput(y), rs, ApprovalPending)
  {
    if rs != [] {
      SameEvaluations(x, y, rs[..|rs| - 1]);
      SameEvaluation(x, y, rs[|rs| - 1]);
    }
  }

  // ----- the whole evaluation -----

  lemma {:induction false} SameIdSame(rs: seq<Requirement>, a: Requirement, b: Requirement)
    requires DistinctStrings(RequirementIds(rs)) && a in rs && b in rs && a.id == b.id
    ensures a == b
  {
    FindRequirementIs(rs, a);
    FindRequirementIs(rs, b);
  }

  lemma {:induction false} SameRequirementOrder(x: EvidenceInput, y: EvidenceInput)
    requires BothValid(x, y)
    ensures Sort(x.requirements, RequirementLe) == Sort(y.requirements, RequirementLe)
  {
    SortedRequirements(x.requirements);
    SortedRequirements(y.requirements);
    var rs := Sort(x.requirements, RequirementLe);
    forall a, b | a in rs && b in rs && RequirementLe(a, b) && RequirementLe(b, a) ensures a == b {
      IdLeAntisymmetric(a.id, b.id);
      SameIdSame(x.requirements, a, b);
    }
    SortedUnique(rs, Sort(y.requirements, RequirementLe), RequirementLe);
  }

  lemma {:induction false} ReferencesOkKept(x: EvidenceInput, y: EvidenceInput)
    requires BothValid(x, y) && ReferencesOk(EngineInput(x))
    ensures ReferencesOk(EngineInput(y))
  {
    var os := Observations(y, y.requirements);
    SameMembers(x.requirements, y.requirements);
    forall id | id in os ensures AllReferences(os[id].references) {
      ObservationsFrom(y, y.requirements, id);
      var r :| r in y.requirements && os[id] == ObservationOf(y, r);
      ObservationKept(x, x.requirements, r);
      SameObservation(x, y, r);
    }
  }

  /** Reordering requirements, requirement ids, evidence items or matches leaves the evaluation identical. */
  lemma {:induction false} OrderIndependent(x: EvidenceInput, y: EvidenceInput)
    requires Permuted(x, y) && EvaluateEvidence(x).Success?
    ensures EvaluateEvidence(y).Success? && EvaluateEvidence(y).value.evaluation == EvaluateEvidence(x).value.evaluation
  {
    EvaluationIs(x);
    EvaluationIs(y);
    BoundaryKept(x, y);
    RequirementSetKept(x, y);
    ReferencesOkKept(x, y);
    SameRequirementOrder(x, y);
    SortedRequirements(x.requirements);
    SameEvaluations(x, y, Sort(x.requirements, RequirementLe));
  }

  // ----- proof gaps -----

  predicate AsksReceipts(x: EvidenceInput, r: Requirement) {
    r in x.requirements && r.kind.ExpenseRecords? && r.required
  }

  predicate IsReceipt(x: EvidenceInput, id: string) {
    Find(x.items, id).Some? && Find(x.items, id).value.kind == Receipt
  }

  /** The receipts that authorized people have accepted for a requirement. */
  function Receipts(x: EvidenceInput, r: string): set<string> {
    set m | m in x.matches && m.requirementId == r && IsAuthorized(x, m) && IsReceipt(x, m.evidenceId) :: m.evidenceId
  }

  /** AI has suggested a receipt that nobody has accepted yet. */
  predicate PendingReceipt(x: EvidenceInput, r: string) {
    exists m :: m in x.matches && m.AiSuggestion? && m.requirementId == r && IsReceipt(x, m.evidenceId) && m.evidenceId !in Receipts(x, r)
  }

  /** Fewer receipts are accepted than the requirement asks for, and none is waiting for a decision. */
  predicate ShortOfReceipts(x: EvidenceInput, r: Requirement)
    requires r.kind.ExpenseRecords?
  {
    |Receipts(x, r.id)| < r.kind.requiredCount && !PendingReceipt(x, r.id)
  }

  lemma {:induction false} ReceiptsAre(x: EvidenceInput, r: string)
    requires Boundary(x)
    ensures AcceptedOfKind(EngineInput(x), r, Receipt) == Receipts(x, r)
  {
    forall id ensures id in AcceptedOfKind(EngineInput(x), r, Receipt) <==> id in Receipts(x, r) {
      AcceptedOfKindIs(x, r, Receipt, id);
      if id in Receipts(x, r) {
        var m :| m in x.matches && m.requirementId == r && IsAuthorized(x, m) && IsReceipt(x, m.evidenceId) && m.evidenceId == id;
        assert Decides(x, x.matches, r, m);
      }
    }
  }

  lemma {:induction false} SuggestionIs(x: EvidenceInput, r: string, m: EvidenceMatch)
    requires Boundary(x)
    ensures m in EngineInput(x).matches && Suggests(EngineInput(x), m, r) && OfKind(EngineInput(x), m, Receipt)
            <==> m in x.matches && m.AiSuggestion? && m.requirementId == r && IsReceipt(x, m.evidenceId)
  {
    SliceIs(x);
    PolicyMembership(x, x.matches, m);
  }

  lemma {:induction false} PendingIs(x: EvidenceInput, r: string)
    requires Boundary(x)
    ensures PendingAi(EngineInput(x), r, Receipt) <==> PendingReceipt(x, r)
  {
    ReceiptsAre(x, r);
    if PendingAi(EngineInput(x), r, Receipt) { SuggestedIsPending(x, r); }
    if PendingReceipt(x, r) { PendingIsSuggested(x, r); }
  }

  lemma {:induction false} SuggestedIsPending(x: EvidenceInput, r: string)
    requires Boundary(x) && !(SuggestedOfKind(EngineInput(x), r, Receipt) <= Receipts(x, r))
    ensures PendingReceipt(x, r)
  {
    var i := EngineInput(x);
    var id :| id in SuggestedOfKind(i, r, Receipt) && id !in Receipts(x, r);
    var m :| m in i.matches && Suggests(i, m, r) && OfKind(i, m, Receipt) && m.evidenceId == id;
    SuggestionIs(x, r, m);
  }

  lemma {:induction false} PendingIsSuggested(x: EvidenceInput, r: string)
    requires Boundary(x) && PendingReceipt(x, r)
    ensures !(SuggestedOfKind(EngineInput(x), r, Receipt) <= Receipts(x, r))
  {
    var m :| m in x.matches && m.AiSuggestion? && m.requirementId == r && IsReceipt(x, m.evidenceId) && m.evidenceId !in Receipts(x, r);
    SuggestionIs(x, r, m);
    assert m.evidenceId in SuggestedOfKind(EngineInput(x), r, Receipt);
  }

  lemma {:induction false} ShortIff(x: EvidenceInput, r: Requirement)
    requires Boundary(x) && r.kind.ExpenseRecords? && EvaluateByKind(EngineInput(x), r, ObservationOf(x, r), ApprovalPending).Success?
    ensures EvaluateByKind(EngineInput(x), r, ObservationOf(x, r), ApprovalPending).value.reason == ReceiptCountShort <==> ShortOfReceipts(x, r)
  {
    ReceiptsAre(x, r.id);
    PendingIs(x, r.id);
  }

  lemma {:induction false} FoundEvaluation(es: seq<RequirementEvaluation>, k: nat) returns (j: nat)
    requires k < |es|
    ensures j < |es| && es[j].requirementId == es[k].requirementId && FindEvaluation(es, es[k].requirementId) == Some(es[j])
  {
    if es[0].requirementId == es[k].requirementId {
      j := 0;
    } else {
      var m := FoundEvaluation(es[1..], k - 1);
      j := m + 1;
    }
  }

  /** The evaluation that is found under the id of a requirement is the evaluation of that requirement. */
  lemma {:induction false} EvaluationFound(x: EvidenceInput, r: Requirement)
    requires RequirementSet(x.milestone, x.requirements) && Findings(x).Success? && r in x.requirements
    ensures FindEvaluation(Findings(x).value, r.id).Some?
    ensures EvaluateRequirement(EngineInput(x), r, ApprovalPending) == Success(FindEvaluation(Findings(x).value, r.id).value)
  {
    var rs, es := Sort(x.requirements, RequirementLe), Findings(x).value;
    SortedRequirements(x.requirements);
    var k: nat :| k < |rs| && rs[k] == r;
    EvaluationAt(EngineInput(x), rs, k);
    var j := FoundEvaluation(es, k);
    EvaluationAt(EngineInput(x), rs, j);
    SameIdSame(x.requirements, rs[j], r);
  }

  function GapFor(x: EvidenceInput, r: Requirement): ProofGap {
    ProofGap("proof-gap:" + x.milestone.id + ":missing-receipt", x.milestone.id, r.id, None)
  }

  /** One gap for the first required expense requirement if that is short of receipts. */
  function GapsOf(x: EvidenceInput): seq<ProofGap> {
    match ExpenseRequirement(x.requirements)
    case None => []
    case Some(r) => if r.kind.ExpenseRecords? && ShortOfReceipts(x, r) then [GapFor(x, r)] else []
  }

  lemma {:induction false} GapsAre(x: EvidenceInput)
    requires EvaluateEvidence(x).Success?
    ensures EvaluateEvidence(x).value.gaps == GapsOf(x)
  {
    EvaluationIs(x);
    ExpenseRequirementIs(x.requirements);
    if ExpenseRequirement(x.requirements).Some? {
      var r := ExpenseRequirement(x.requirements).value;
      EvaluationFound(x, r);
      ObservationKept(x, x.requirements, r);
      ShortIff(x, r);
    }
  }

  /** Whether a requirement is short of receipts does not depend on the order. */
  lemma {:induction false} SameShort(x: EvidenceInput, y: EvidenceInput, r: Requirement)
    requires Permuted(x, y) && EvaluateEvidence(x).Success? && AsksReceipts(x, r)
    ensures AsksReceipts(y, r) && ShortOfReceipts(y, r) == ShortOfReceipts(x, r)
  {
    OrderIndependent(x, y);
    EvaluationIs(x);
    EvaluationIs(y);
    SameMembers(x.requirements, y.requirements);
    EvaluationFound(x, r);
    EvaluationFound(y, r);
    ObservationKept(x, x.requirements, r);
    ObservationKept(y, y.requirements, r);
    ShortIff(x, r);
    ShortIff(y, r);
  }

  ghost predicate OneExpenseRequirement(x: EvidenceInput) {
    forall a, b :: AsksReceipts(x, a) && AsksReceipts(x, b) ==> a == b
  }

  ghost predicate NoneShortOfReceipts(x: EvidenceInput) {
    forall r :: AsksReceipts(x, r) ==> !ShortOfReceipts(x, r)
  }

  lemma {:induction false} SameGapsOf(x: EvidenceInput, y: EvidenceInput)
    requires Permuted(x, y) && EvaluateEvidence(x).Success? && (OneExpenseRequirement(x) || NoneShortOfReceipts(x))
    ensures GapsOf(y) == GapsOf(x)
  {
    var first, other := ExpenseRequirement(x.requirements), ExpenseRequirement(y.requirements);
    ExpenseRequirementIs(x.requirements);
    ExpenseRequirementIs(y.requirements);
    SameMembers(x.requirements, y.requirements);
    if first.Some? {
      assert AsksReceipts(x, first.value) && AsksReceipts(x, other.value);
      SameShort(x, y, first.value);
      SameShort(x, y, other.value);
    }
  }

  lemma {:induction false} SameGaps(x: EvidenceInput, y: EvidenceInput)
    requires Permuted(x, y) && EvaluateEvidence(x).Success? && (OneExpenseRequirement(x) || NoneShortOfReceipts(x))
    ensures EvaluateEvidence(y) == EvaluateEvidence(x)
  {
    OrderIndependent(x, y);
    GapsAre(x);
    GapsAre(y);
    SameGapsOf(x, y);
  }

  /** The same input with one requirement in front of the others. */
  lemma {:induction false} InFront(x: EvidenceInput, r: Requirement) returns (y: EvidenceInput)
    requires AsksReceipts(x, r)
    ensures Permuted(x, y) && y == x.(requirements := y.requirements) && ExpenseRequirement(y.requirements) == Some(r)
  {
    var k: nat :| k < |x.requirements| && x.requirements[k] == r;
    var rest := x.requirements[..k] + x.requirements[k + 1..];
    y := x.(requirements := [r] + rest);
    Removed(x.requirements, k);
    HeadRemoved([r] + rest);
    assert ([r] + rest)[1..] == rest;
  }

  lemma {:induction false} DistinctGaps(x: EvidenceInput, r: Requirement, s: Requirement)
    requires EvaluateEvidence(x).Success? && AsksReceipts(x, r) && AsksReceipts(x, s) && r != s && ShortOfReceipts(x, r)
    ensures exists y :: Permuted(x, y) && EvaluateEvidence(y) != EvaluateEvidence(x)
  {
    var y := InFront(x, r);
    var z := InFront(x, s);
    OrderIndependent(x, y);
    OrderIndependent(x, z);
    GapsAre(y);
    GapsAre(z);
    SameShort(x, y, r);
    EvaluationIs(x);
    if r.id == s.id { SameIdSame(x.requirements, r, s); }
    assert EvaluateEvidence(y).value.gaps[0].requirementId == r.id;
    assert EvaluateEvidence(z).value.gaps != [] ==> EvaluateEvidence(z).value.gaps[0].requirementId == s.id;
    assert EvaluateEvidence(y) != EvaluateEvidence(z);
  }

  /**
   The whole result, with its proof gaps, is independent of the order exactly when at most one required requirement asks for
   receipts, or none of those that do is short of them.
   */
  lemma {:induction false} GapsOrderIndependentIff(x: EvidenceInput)
    requires EvaluateEvidence(x).Success?
    ensures (forall y :: Permuted(x, y) ==> EvaluateEvidence(y) == EvaluateEvidence(x)) <==> OneExpenseRequirement(x) || NoneShortOfReceipts(x)
  {
    if OneExpenseRequirement(x) || NoneShortOfReceipts(x) {
      forall y | Permuted(x, y) ensures EvaluateEvidence(y) == EvaluateEvidence(x) { SameGaps(x, y); }
    } else {
      var r :| AsksReceipts(x, r) && ShortOfReceipts(x, r);
      var a, b :| AsksReceipts(x, a) && AsksReceipts(x, b) && a != b;
      DistinctGaps(x, r, if a == r then b else a);
    }
  }
}
