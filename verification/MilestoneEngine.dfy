/** The loops of the milestone engine: building the provenance index, and resolving evidence references with it. */
module MilestoneEngine {
  import opened Wrappers
  import opened Milestones

  /** What the matches say about one requirement, per kind of evidence. */
  datatype Provenance = Provenance(hasAccepted: bool, hasSuggestion: bool, accepted: map<EvidenceKind, set<string>>, suggested: map<EvidenceKind, set<string>>)

  const NO_PROVENANCE := Provenance(false, false, map[], map[])

  datatype ProvenanceIndex = ProvenanceIndex(byRequirement: map<string, Provenance>, evidenceById: map<string, EvidenceItem>, idsByHash: map<string, set<string>>)

  function IdsAt<K(==)>(m: map<K, set<string>>, k: K): set<string> {
    if k in m then m[k] else {}
  }

  function ProvenanceOf(m: map<string, Provenance>, r: string): Provenance {
    if r in m then m[r] else NO_PROVENANCE
  }

  // ----- the evidence -----

  ghost predicate IndexesItems(items: seq<EvidenceItem>, byId: map<string, EvidenceItem>, byHash: map<string, set<string>>) {
    && (forall id :: id in byId ==> Find(items, id) == Some(byId[id]))
    && (forall id :: Find(items, id).Some? ==> id in byId)
    && (forall hash :: IdsAt(byHash, hash) == IdsWithHash(items, hash))
  }

  lemma {:induction false} OneMoreItem(items: seq<EvidenceItem>, e: EvidenceItem, hash: string)
    ensures IdsWithHash(items + [e], hash) == IdsWithHash(items, hash) + if e.sourceHash == hash then {e.id} else {}
    ensures (items + [e])[..|items|] == items
  {
    var after := items + [e];
    assert forall x :: x in after <==> x in items || x == e;
    forall id | id in IdsWithHash(items, hash) + (if e.sourceHash == hash then {e.id} else {}) ensures id in IdsWithHash(after, hash) {
      if id in IdsWithHash(items, hash) {
        var x :| x in items && x.sourceHash == hash && x.id == id;
        assert x in after;
      } else {
        assert e in after;
      }
    }
  }

  lemma {:induction false} IndexOneMore(items: seq<EvidenceItem>, e: EvidenceItem, byId: map<string, EvidenceItem>, byHash: map<string, set<string>>)
    requires IndexesItems(items, byId, byHash)
    ensures IndexesItems(items + [e], byId[e.id := e], byHash[e.sourceHash := IdsAt(byHash, e.sourceHash) + {e.id}])
  {
    assert (items + [e])[..|items|] == items;
    forall hash ensures IdsAt(byHash[e.sourceHash := IdsAt(byHash, e.sourceHash) + {e.id}], hash) == IdsWithHash(items + [e], hash) {
      OneMoreItem(items, e, hash);
    }
  }

  lemma {:induction false} StopsAt(items: seq<EvidenceItem>, p: string, k: nat, at: int)
    requires k <= |items| && CheckItems(ProjectItems(items[..k], p), at).Thrown?
    ensures CheckItems(ProjectItems(items, p), at) == CheckItems(ProjectItems(items[..k], p), at)
    decreases |items|
  {
    if k < |items| {
      var init := items[..|items| - 1];
      assert init[..k] == items[..k];
      StopsAt(init, p, k, at);
      var slice := ProjectItems(items, p);
      assert slice != ProjectItems(init, p) ==> slice[..|slice| - 1] == ProjectItems(init, p);
    } else {
      assert items[..k] == items;
    }
  }

  lemma {:induction false} ProjectOneMore(items: seq<EvidenceItem>, p: string, k: nat)
    requires k < |items|
    ensures ProjectItems(items[..k + 1], p) == if items[k].projectId == p then ProjectItems(items[..k], p) + [items[k]] else ProjectItems(items[..k], p)
  {
    assert items[..k + 1][..k] == items[..k];
  }

  lemma {:induction false} CheckOneMore(items: seq<EvidenceItem>, e: EvidenceItem, at: int)
    requires CheckItems(items, at).Passed?
    ensures CheckItems(items + [e], at) ==
            if e.submittedAt > at then Thrown(LateEvidence) else if Find(items, e.id).Some? then Thrown(DuplicateEvidence) else Passed
  {
    assert (items + [e])[..|items|] == items;
  }

  /** The evidence of the milestone's project by id and by content hash; the first late or repeated item throws. */
  method IndexEvidence(i: Input) returns (r: Check<MilestoneError>, byId: map<string, EvidenceItem>, byHash: map<string, set<string>>)
    ensures r == CheckItems(Slice(i), i.evaluatedAt)
    ensures r.Passed? ==> IndexesItems(Slice(i), byId, byHash)
  {
    var p := i.milestone.projectId;
    byId, byHash := map[], map[];
    for k := 0 to |i.items|
      invariant CheckItems(ProjectItems(i.items[..k], p), i.evaluatedAt).Passed?
      invariant IndexesItems(ProjectItems(i.items[..k], p), byId, byHash)
    {
      var e := i.items[k];
      ghost var before := ProjectItems(i.items[..k], p);
      ProjectOneMore(i.items, p, k);
      if e.projectId == p {
        CheckOneMore(before, e, i.evaluatedAt);
        if e.submittedAt > i.evaluatedAt {
          StopsAt(i.items, p, k + 1, i.evaluatedAt);
          return Thrown(LateEvidence), byId, byHash;
        }
        if e.id in byId {
          StopsAt(i.items, p, k + 1, i.evaluatedAt);
          return Thrown(DuplicateEvidence), byId, byHash;
        }
        IndexOneMore(before, e, byId, byHash);
        byId := byId[e.id := e];
        byHash := byHash[e.sourceHash := IdsAt(byHash, e.sourceHash) + {e.id}];
      }
    }
    assert i.items[..|i.items|] == i.items;
    r := Passed;
  }

  // ----- the matches -----

  /** The input as it is when only the first matches have been looked at. */
  function Upto(i: Input, k: nat): Input
    requires k <= |i.matches|
  {
    i.(matches := i.matches[..k])
  }

  ghost predicate RecordsRequirement(i: Input, p: Provenance, r: string) {
    && p.hasAccepted == HasAccepted(i, r) && p.hasSuggestion == HasSuggestion(i, r)
    && (forall kind :: IdsAt(p.accepted, kind) == AcceptedOfKind(i, r, kind))
    && (forall kind :: IdsAt(p.suggested, kind) == SuggestedOfKind(i, r, kind))
  }

  ghost predicate RecordsMatches(i: Input, byRequirement: map<string, Provenance>, ids: set<string>) {
    forall r :: r in ids ==> RecordsRequirement(i, ProvenanceOf(byRequirement, r), r)
  }

  lemma {:induction false} OneMoreMatch(i: Input, k: nat, r: string, kind: EvidenceKind)
    requires k < |i.matches|
    ensures var m, before, after := i.matches[k], Upto(i, k), Upto(i, k + 1);
            && AcceptedOfKind(after, r, kind) == AcceptedOfKind(before, r, kind) + (if Accepts(i, m, r) && OfKind(i, m, kind) then {m.evidenceId} else {})
            && SuggestedOfKind(after, r, kind) == SuggestedOfKind(before, r, kind) + (if Suggests(i, m, r) && OfKind(i, m, kind) then {m.evidenceId} else {})
            && HasAccepted(after, r) == (HasAccepted(before, r) || Accepts(i, m, r))
            && HasSuggestion(after, r) == (HasSuggestion(before, r) || Suggests(i, m, r))
  {
    var m, before, after := i.matches[k], Upto(i, k), Upto(i, k + 1);
    assert forall x :: x in after.matches <==> x in before.matches || x == m;
    assert Slice(after) == Slice(before) == Slice(i);
    assert forall x :: (Accepts(after, x, r) <==> Accepts(i, x, r)) && (Accepts(before, x, r) <==> Accepts(i, x, r));
    assert forall x :: (Suggests(after, x, r) <==> Suggests(i, x, r)) && (Suggests(before, x, r) <==> Suggests(i, x, r));
    assert forall x :: (OfKind(after, x, kind) <==> OfKind(i, x, kind)) && (OfKind(before, x, kind) <==> OfKind(i, x, kind));
    assert m in after.matches;
  }

  /** A match that does not count for a requirement leaves its record valid. */
  lemma {:induction false} SkippedFor(i: Input, k: nat, p: Provenance, r: string)
    requires k < |i.matches| && RecordsRequirement(Upto(i, k), p, r)
    requires !Accepts(i, i.matches[k], r) && !Suggests(i, i.matches[k], r)
    ensures RecordsRequirement(Upto(i, k + 1), p, r)
  {
    OneMoreMatch(i, k, r, Receipt);
    forall kind ensures IdsAt(p.accepted, kind) == AcceptedOfKind(Upto(i, k + 1), r, kind) && IdsAt(p.suggested, kind) == SuggestedOfKind(Upto(i, k + 1), r, kind) {
      OneMoreMatch(i, k, r, kind);
    }
  }

  function WithAccepted(p: Provenance, kind: EvidenceKind, id: string): Provenance {
    p.(hasAccepted := true, accepted := p.accepted[kind := IdsAt(p.accepted, kind) + {id}])
  }

  function WithSuggested(p: Provenance, kind: EvidenceKind, id: string): Provenance {
    p.(hasSuggestion := true, suggested := p.suggested[kind := IdsAt(p.suggested, kind) + {id}])
  }

  lemma {:induction false} AcceptedFor(i: Input, k: nat, p: Provenance, r: string)
    requires k < |i.matches| && RecordsRequirement(Upto(i, k), p, r) && Accepts(i, i.matches[k], r)
    ensures RecordsRequirement(Upto(i, k + 1), WithAccepted(p, Find(Slice(i), i.matches[k].evidenceId).value.kind, i.matches[k].evidenceId), r)
  {
    var m, after := i.matches[k], Upto(i, k + 1);
    var own := Find(Slice(i), m.evidenceId).value.kind;
    OneMoreMatch(i, k, r, Receipt);
    forall kind
      ensures IdsAt(WithAccepted(p, own, m.evidenceId).accepted, kind) == AcceptedOfKind(after, r, kind)
              && IdsAt(p.suggested, kind) == SuggestedOfKind(after, r, kind)
    {
      OneMoreMatch(i, k, r, kind);
    }
  }

  lemma {:induction false} SuggestedFor(i: Input, k: nat, p: Provenance, r: string)
    requires k < |i.matches| && RecordsRequirement(Upto(i, k), p, r) && Suggests(i, i.matches[k], r)
    ensures RecordsRequirement(Upto(i, k + 1), WithSuggested(p, Find(Slice(i), i.matches[k].evidenceId).value.kind, i.matches[k].evidenceId), r)
  {
    var m, after := i.matches[k], Upto(i, k + 1);
    var own := Find(Slice(i), m.evidenceId).value.kind;
    OneMoreMatch(i, k, r, Receipt);
    forall kind
      ensures IdsAt(WithSuggested(p, own, m.evidenceId).suggested, kind) == SuggestedOfKind(after, r, kind)
              && IdsAt(p.accepted, kind) == AcceptedOfKind(after, r, kind)
    {
      OneMoreMatch(i, k, r, kind);
    }
  }

  lemma {:induction false} OthersRecorded(i: Input, k: nat, byRequirement: map<string, Provenance>, ids: set<string>, p: Provenance)
    requires k < |i.matches| && RecordsMatches(Upto(i, k), byRequirement, ids)
    requires i.matches[k].requirementId in ids ==> RecordsRequirement(Upto(i, k + 1), p, i.matches[k].requirementId)
    ensures RecordsMatches(Upto(i, k + 1), byRequirement[i.matches[k].requirementId := p], ids)
  {
    var m := i.matches[k];
    forall r | r in ids ensures RecordsRequirement(Upto(i, k + 1), ProvenanceOf(byRequirement[m.requirementId := p], r), r) {
      if r != m.requirementId { SkippedFor(i, k, ProvenanceOf(byRequirement, r), r); }
    }
  }

  lemma {:induction false} SkippedMatch(i: Input, k: nat, byRequirement: map<string, Provenance>, ids: set<string>)
    requires k < |i.matches| && RecordsMatches(Upto(i, k), byRequirement, ids)
    requires forall r :: r in ids ==> !Accepts(i, i.matches[k], r) && !Suggests(i, i.matches[k], r)
    ensures RecordsMatches(Upto(i, k + 1), byRequirement, ids)
  {
    forall r | r in ids ensures RecordsRequirement(Upto(i, k + 1), ProvenanceOf(byRequirement, r), r) {
      SkippedFor(i, k, ProvenanceOf(byRequirement, r), r);
    }
  }

  method IndexMatches(i: Input, byId: map<string, EvidenceItem>, ghost byHash: map<string, set<string>>, ids: set<string>) returns (byRequirement: map<string, Provenance>)
    requires IndexesItems(Slice(i), byId, byHash)
    ensures RecordsMatches(i, byRequirement, ids)
  {
    byRequirement := map[];
    for k := 0 to |i.matches|
      invariant RecordsMatches(Upto(i, k), byRequirement, ids)
    {
      var m := i.matches[k];
      var p := ProvenanceOf(byRequirement, m.requirementId);
      if m.requirementId !in ids || m.evidenceId !in byId {
        SkippedMatch(i, k, byRequirement, ids);
      } else if m.AiSuggestion? {
        SuggestedFor(i, k, p, m.requirementId);
        p := WithSuggested(p, byId[m.evidenceId].kind, m.evidenceId);
        OthersRecorded(i, k, byRequirement, ids, p);
        byRequirement := byRequirement[m.requirementId := p];
      } else if m.acceptedEvidenceHash != byId[m.evidenceId].sourceHash || !AllowedDecider(i, m.acceptedBy) {
        SkippedMatch(i, k, byRequirement, ids);
      } else {
        AcceptedFor(i, k, p, m.requirementId);
        p := WithAccepted(p, byId[m.evidenceId].kind, m.evidenceId);
        OthersRecorded(i, k, byRequirement, ids, p);
        byRequirement := byRequirement[m.requirementId := p];
      }
    }
    assert Upto(i, |i.matches|) == i;
  }

  /** The index says about the slice, and about the requirements in `ids`, what the matches of the input say. */
  ghost predicate Indexes(i: Input, index: ProvenanceIndex, ids: set<string>) {
    IndexesItems(Slice(i), index.evidenceById, index.idsByHash) && RecordsMatches(i, index.byRequirement, ids)
  }

  method CreateProvenanceIndex(i: Input) returns (r: Result<ProvenanceIndex, MilestoneError>)
    ensures r.Failure? == CheckItems(Slice(i), i.evaluatedAt).Thrown?
    ensures r.Failure? ==> CheckItems(Slice(i), i.evaluatedAt) == Thrown(r.error)
    ensures r.Success? ==> Indexes(i, r.value, set k | 0 <= k < |i.requirements| :: i.requirements[k].id)
  {
    var check, byId, byHash := IndexEvidence(i);
    if check.Thrown? { return Failure(check.error); }
    var ids := set k | 0 <= k < |i.requirements| :: i.requirements[k].id;
    var byRequirement := IndexMatches(i, byId, byHash, ids);
    return Success(ProvenanceIndex(byRequirement, byId, byHash));
  }

  // ----- references -----

  lemma {:induction false} OnlyMember(s: set<string>, x: string, y: string)
    requires |s| == 1 && x in s && y in s
    ensures x == y
  {
    assert |s - {x}| == 0;
  }

  lemma {:induction false} ResolutionStops(items: seq<EvidenceItem>, accepted: set<string>, references: seq<string>, k: nat)
    requires k <= |references| && ResolveAll(items, accepted, references[..k]).Failure?
    ensures ResolveAll(items, accepted, references).Failure?
    decreases |references|
  {
    if k < |references| {
      assert references[..|references| - 1][..k] == references[..k];
      ResolutionStops(items, accepted, references[..|references| - 1], k);
    } else {
      assert references[..k] == references;
    }
  }

  /** The failure of a resolution is always the same error. */
  lemma {:induction false} ResolutionError(items: seq<EvidenceItem>, accepted: set<string>, references: seq<string>)
    ensures ResolveAll(items, accepted, references).Failure? ==> ResolveAll(items, accepted, references).error == BadReferences
  {
    if references != [] { ResolutionError(items, accepted, references[..|references| - 1]); }
  }

  /** One reference resolved with the index. */
  method ResolveOne(items: seq<EvidenceItem>, byId: map<string, EvidenceItem>, byHash: map<string, set<string>>, accepted: set<string>, reference: string)
    returns (r: Result<string, MilestoneError>)
    requires IndexesItems(items, byId, byHash)
    ensures r == ResolveReference(items, accepted, reference)
  {
    if IsHashReference(reference) {
      var candidates := IdsAt(byHash, reference) * accepted;
      if |candidates| != 1 { return Failure(BadReferences); }
      var id :| id in candidates;
      ghost var chosen := ResolveReference(items, accepted, reference).value;
      OnlyMember(candidates, id, chosen);
      return Success(id);
    }
    if reference !in byId || reference !in accepted { return Failure(BadReferences); }
    return Success(reference);
  }

  method ResolveValidatedEvidenceReferences(items: seq<EvidenceItem>, byId: map<string, EvidenceItem>, byHash: map<string, set<string>>,
                                            accepted: set<string>, references: seq<string>) returns (r: Result<nat, MilestoneError>)
    requires IndexesItems(items, byId, byHash)
    ensures r == CheckReferences(items, accepted, references)
  {
    var resolved: set<string> := {};
    for k := 0 to |references|
      invariant ResolveAll(items, accepted, references[..k]) == Success(resolved)
    {
      assert references[..k + 1][..k] == references[..k];
      var id := ResolveOne(items, byId, byHash, accepted, references[k]);
      if id.Failure? || id.value in resolved {
        ResolutionStops(items, accepted, references, k + 1);
        ResolutionError(items, accepted, references);
        return Failure(BadReferences);
      }
      resolved := resolved + {id.value};
    }
    assert references[..|references|] == references;
    return if resolved != accepted then Failure(BadReferences) else Success(|accepted|);
  }
}
