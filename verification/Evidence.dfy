/** The evidence engine: it validates a slice of evidence, derives observations from accepted decisions, and evaluates. */
module Evidence {
  import opened Wrappers
  import opened Sorting
  import opened Actors
  import opened Milestones

  datatype EvidenceInput = EvidenceInput(milestone: Milestone, requirements: seq<Requirement>, items: seq<EvidenceItem>, matches: seq<EvidenceMatch>,
                                         verifiedSpend: nat, policyVersion: string, evaluatedAt: int, evaluatorId: string, founderId: string)

  datatype EvidenceError = BadBoundary | EngineRefuses(error: MilestoneError)

  datatype ProofGap = ProofGap(id: string, milestoneId: string, requirementId: string, resolvedAt: Option<int>)

  datatype EvidenceResult = EvidenceResult(evaluation: Evaluation, gaps: seq<ProofGap>)

  // ----- the boundary -----

  function Keys<T>(xs: seq<T>, key: T -> string): seq<string> {
    seq(|xs|, k requires 0 <= k < |xs| => key(xs[k]))
  }

  function ItemId(e: EvidenceItem): string { e.id }

  function ItemHash(e: EvidenceItem): string { e.sourceHash }

  function MatchId(m: EvidenceMatch): string { m.id }

  predicate BelongsTo(x: EvidenceInput, e: EvidenceItem) {
    e.submittedAt <= x.evaluatedAt && e.projectId == x.milestone.projectId
  }

  predicate ItemsOk(x: EvidenceInput, items: seq<EvidenceItem>) {
    && (forall k :: 0 <= k < |items| ==> BelongsTo(x, items[k]))
    && DistinctStrings(Keys(items, ItemId)) && DistinctStrings(Keys(items, ItemHash))
  }

  predicate Inside(x: EvidenceInput, m: EvidenceMatch) {
    m.evidenceId in Keys(x.items, ItemId) && m.requirementId in RequirementIds(x.requirements)
  }

  predicate MatchesOk(x: EvidenceInput, matches: seq<EvidenceMatch>) {
    DistinctStrings(Keys(matches, MatchId)) && forall k :: 0 <= k < |matches| ==> Inside(x, matches[k])
  }

  /** The evidence belongs to the milestone, nothing is repeated, and every match stays inside the slice. */
  predicate Boundary(x: EvidenceInput) {
    ItemsOk(x, x.items) && MatchesOk(x, x.matches)
  }

  lemma {:induction false} KeysStep<T>(xs: seq<T>, n: nat, key: T -> string)
    requires n < |xs|
    ensures Keys(xs[..n + 1], key) == Keys(xs[..n], key) + [key(xs[n])]
    ensures Keys(xs[..n], key) == Keys(xs, key)[..n]
    ensures DistinctStrings(Keys(xs[..n + 1], key)) <==> DistinctStrings(Keys(xs[..n], key)) && key(xs[n]) !in Keys(xs[..n], key)
  {
    var before, after := Keys(xs[..n], key), Keys(xs[..n + 1], key);
    if DistinctStrings(after) {
      assert forall j :: 0 <= j < n ==> before[j] == after[j] && after[j] != after[n];
    }
  }

  lemma {:induction false} PrefixDistinct(ss: seq<string>, n: nat)
    requires n <= |ss| && DistinctStrings(ss)
    ensures DistinctStrings(ss[..n])
  {
  }

  lemma {:induction false} ItemStep(x: EvidenceInput, items: seq<EvidenceItem>, n: nat)
    requires n < |items|
    ensures ItemsOk(x, items[..n + 1]) <==>
            ItemsOk(x, items[..n]) && BelongsTo(x, items[n]) && items[n].id !in Keys(items[..n], ItemId) && items[n].sourceHash !in Keys(items[..n], ItemHash)
  {
    KeysStep(items, n, ItemId);
    KeysStep(items, n, ItemHash);
    assert forall k :: 0 <= k < n ==> items[..n][k] == items[..n + 1][k];
    assert items[..n + 1][n] == items[n];
  }

  lemma {:induction false} ItemsPrefixOk(x: EvidenceInput, items: seq<EvidenceItem>, n: nat)
    requires n < |items| && ItemsOk(x, items)
    ensures ItemsOk(x, items[..n + 1])
    decreases |items| - n
  {
    if n + 1 < |items| {
      ItemsPrefixOk(x, items, n + 1);
      ItemStep(x, items, n + 1);
    } else {
      assert items[..n + 1] == items;
    }
  }

  lemma {:induction false} MatchStep(x: EvidenceInput, matches: seq<EvidenceMatch>, n: nat)
    requires n < |matches|
    ensures MatchesOk(x, matches[..n + 1]) <==> MatchesOk(x, matches[..n]) && Inside(x, matches[n]) && matches[n].id !in Keys(matches[..n], MatchId)
  {
    KeysStep(matches, n, MatchId);
    assert forall k :: 0 <= k < n ==> matches[..n][k] == matches[..n + 1][k];
    assert matches[..n + 1][n] == matches[n];
  }

  lemma {:induction false} MatchesPrefixOk(x: EvidenceInput, matches: seq<EvidenceMatch>, n: nat)
    requires n < |matches| && MatchesOk(x, matches)
    ensures MatchesOk(x, matches[..n + 1])
    decreases |matches| - n
  {
    if n + 1 < |matches| {
      MatchesPrefixOk(x, matches, n + 1);
      MatchStep(x, matches, n + 1);
    } else {
      assert matches[..n + 1] == matches;
    }
  }

  ghost predicate Holds(seen: set<string>, keys: seq<string>) {
    forall s :: s in seen <==> s in keys
  }

  /** The first loop of `validateEvidenceBoundary`. */
  method ValidateItems(x: EvidenceInput) returns (ok: bool, ids: set<string>)
    ensures ok == ItemsOk(x, x.items)
    ensures ok ==> Holds(ids, Keys(x.items, ItemId))
  {
    ids := {};
    var hashes := {};
    for n := 0 to |x.items|
      invariant ItemsOk(x, x.items[..n])
      invariant Holds(ids, Keys(x.items[..n], ItemId)) && Holds(hashes, Keys(x.items[..n], ItemHash))
    {
      var e := x.items[n];
      ItemStep(x, x.items, n);
      if !BelongsTo(x, e) || e.id in ids || e.sourceHash in hashes {
        if ItemsOk(x, x.items) { ItemsPrefixOk(x, x.items, n); }
        return false, ids;
      }
      KeysStep(x.items, n, ItemId);
      KeysStep(x.items, n, ItemHash);
      ids := ids + {e.id};
      hashes := hashes + {e.sourceHash};
    }
    assert x.items[..|x.items|] == x.items;
    ok := true;
  }

  /** `validateEvidenceBoundary`. */
  method ValidateEvidenceBoundary(x: EvidenceInput) returns (ok: bool)
    ensures ok == Boundary(x)
  {
    var itemsOk, evidenceIds := ValidateItems(x);
    if !itemsOk { return false; }
    var matchIds := {};
    for n := 0 to |x.matches|
      invariant MatchesOk(x, x.matches[..n]) && Holds(matchIds, Keys(x.matches[..n], MatchId))
    {
      var m := x.matches[n];
      MatchStep(x, x.matches, n);
      if m.id in matchIds || m.evidenceId !in evidenceIds || m.requirementId !in RequirementIds(x.requirements) {
        if MatchesOk(x, x.matches) { MatchesPrefixOk(x, x.matches, n); }
        return false;
      }
      KeysStep(x.matches, n, MatchId);
      matchIds := matchIds + {m.id};
    }
    assert x.matches[..|x.matches|] == x.matches;
    return true;
  }

  // ----- decisions that count -----

  function FindRequirement(rs: seq<Requirement>, id: string): Option<Requirement> {
    if rs == [] then None else if rs[0].id == id then Some(rs[0]) else FindRequirement(rs[1..], id)
  }

  predicate ByFounder(x: EvidenceInput, a: Actor) {
    a.actorType.FounderActor? && a.actorId == x.founderId
  }

  predicate ByEvaluator(x: EvidenceInput, a: Actor) {
    a.actorType.EvaluatorActor? && a.actorId == x.evaluatorId
  }

  /** A human decision on the exact content of evidence of the slice, by the person its requirement asks for. */
  predicate IsAuthorized(x: EvidenceInput, m: EvidenceMatch) {
    && m.HumanDecision?
    && Find(x.items, m.evidenceId).Some? && m.acceptedEvidenceHash == Find(x.items, m.evidenceId).value.sourceHash
    && FindRequirement(x.requirements, m.requirementId).Some?
    && (ByFounder(x, m.acceptedBy)
        || (ByEvaluator(x, m.acceptedBy) && !FindRequirement(x.requirements, m.requirementId).value.kind.FounderConfirmation?))
  }

  function PolicyMatches(x: EvidenceInput, matches: seq<EvidenceMatch>): seq<EvidenceMatch> {
    if matches == [] then []
    else
      var last := matches[|matches| - 1];
      PolicyMatches(x, matches[..|matches| - 1]) + if last.AiSuggestion? || IsAuthorized(x, last) then [last] else []
  }

  /** The evidence ids of the authorized decisions for a requirement, in the order of the matches. */
  function DecidedIds(x: EvidenceInput, matches: seq<EvidenceMatch>, r: string): seq<string> {
    if matches == [] then []
    else
      var last := matches[|matches| - 1];
      DecidedIds(x, matches[..|matches| - 1], r) + if last.requirementId == r && IsAuthorized(x, last) then [last.evidenceId] else []
  }

  function HumanReferences(x: EvidenceInput, r: string): seq<string> {
    Sort(Distinct(DecidedIds(x, x.matches, r)), IdLe)
  }

  predicate SuggestionPresent(x: EvidenceInput, r: string) {
    exists m :: m in x.matches && m.requirementId == r && (m.AiSuggestion? || IsAuthorized(x, m))
  }

  function ObservationWith(kind: RequirementKind, references: seq<string>, suggested: bool): Observation {
    match kind
    case DeliverableKind => NO_OBSERVATION.(references := references, deliverableCount := Some(|references|))
    case ExpenseRecords(_) => NO_OBSERVATION.(references := references, receiptCount := Some(|references|))
    case FounderConfirmation => NO_OBSERVATION.(references := references, founderConfirmationPresent := suggested)
    case TransactionMatch => NO_OBSERVATION.(references := references, transactionMatched := if suggested then Some(true) else None)
    case BusinessPurpose => NO_OBSERVATION.(references := references, businessPurposePresent := suggested)
    case SpendLimit(_) => NO_OBSERVATION
    case DueDate => NO_OBSERVATION
    case HumanApproval => NO_OBSERVATION
  }

  function ObservationOf(x: EvidenceInput, r: Requirement): Observation {
    ObservationWith(r.kind, HumanReferences(x, r.id), SuggestionPresent(x, r.id))
  }

  function Observations(x: EvidenceInput, rs: seq<Requirement>): map<string, Observation> {
    if rs == [] then map[]
    else Observations(x, rs[..|rs| - 1])[rs[|rs| - 1].id := ObservationOf(x, rs[|rs| - 1])]
  }

  method BuildRequirementObservations(x: EvidenceInput) returns (observations: map<string, Observation>)
    ensures observations == Observations(x, x.requirements)
  {
    observations := map[];
    for k := 0 to |x.requirements|
      invariant observations == Observations(x, x.requirements[..k])
    {
      assert x.requirements[..k + 1][..k] == x.requirements[..k];
      observations := observations[x.requirements[k].id := ObservationOf(x, x.requirements[k])];
    }
    assert x.requirements[..|x.requirements|] == x.requirements;
  }

  // ----- evaluation -----

  /** The input the milestone engine gets: no approval, so nothing is hashed. */
  function EngineInput(x: EvidenceInput): Input {
    Input(x.milestone, x.requirements, Observations(x, x.requirements), x.items, PolicyMatches(x, x.matches), Some(x.verifiedSpend),
          x.policyVersion, x.evaluatedAt, None, None, Some(x.evaluatorId), Some(x.founderId))
  }

  function NoHash(s: Subject): string { "" }

  function FindEvaluation(es: seq<RequirementEvaluation>, id: string): Option<RequirementEvaluation> {
    if es == [] then None else if es[0].requirementId == id then Some(es[0]) else FindEvaluation(es[1..], id)
  }

  /** The first required expense requirement. */
  function ExpenseRequirement(rs: seq<Requirement>): Option<Requirement> {
    if rs == [] then None
    else if rs[0].kind.ExpenseRecords? && rs[0].required then Some(rs[0])
    else ExpenseRequirement(rs[1..])
  }

  function MissingReceiptGap(x: EvidenceInput, es: seq<RequirementEvaluation>): seq<ProofGap> {
    var r := ExpenseRequirement(x.requirements);
    if r.None? then []
    else
      var e := FindEvaluation(es, r.value.id);
      if e.None? || e.value.reason != ReceiptCountShort then []
      else [ProofGap("proof-gap:" + x.milestone.id + ":missing-receipt", x.milestone.id, r.value.id, None)]
  }

  ghost function EvaluateEvidence(x: EvidenceInput): Result<EvidenceResult, EvidenceError> {
    var i := EngineInput(x);
    :- Need(Boundary(x), BadBoundary);
    match Evaluate(i, NoHash)
    case Failure(e) => Failure(EngineRefuses(e))
    case Success(evaluation) => Success(EvidenceResult(evaluation, MissingReceiptGap(x, evaluation.requirements)))
  }
}
