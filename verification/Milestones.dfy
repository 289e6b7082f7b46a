/** The milestone engine: a deterministic policy over requirements, observations and accepted evidence. */
module Milestones {
  import opened Wrappers
  import opened Sorting
  import opened Actors

  datatype EvidenceKind = Receipt | Screenshot | Invoice | Deliverable | Statement | Confirmation

  datatype EvidenceItem = EvidenceItem(id: string, projectId: string, kind: EvidenceKind, sourceHash: string, storageRef: string, submittedAt: int)

  datatype EvidenceMatch =
    | AiSuggestion(id: string, evidenceId: string, requirementId: string)
    | HumanDecision(id: string, evidenceId: string, requirementId: string, acceptedEvidenceHash: string, acceptedBy: Actor)

  datatype RequirementKind =
    | DeliverableKind
    | ExpenseRecords(requiredCount: nat)
    | SpendLimit(limit: nat)
    | FounderConfirmation
    | TransactionMatch
    | BusinessPurpose
    | DueDate
    | HumanApproval

  datatype Requirement = Requirement(id: string, milestoneId: string, description: string, required: bool, kind: RequirementKind)

  datatype Milestone = Milestone(id: string, projectId: string, title: string, proposedAmount: nat, requirementIds: seq<string>, dueAt: Option<int>)

  datatype Observation = Observation(references: seq<string>, conflicting: bool, deliverableCount: Option<nat>, receiptCount: Option<nat>,
                                     transactionMatched: Option<bool>, businessPurposePresent: bool, founderConfirmationPresent: bool)

  const NO_OBSERVATION := Observation([], false, None, None, None, false, false)

  datatype MilestoneApproval = MilestoneApproval(id: string, aggregateId: string, intentId: string, exactIntentHash: string, evaluatesMilestone: bool,
                                                 authorizedActor: Actor, decision: Decision, approver: Option<Actor>, expiresAt: int, decidedAt: Option<int>)

  datatype Input = Input(milestone: Milestone, requirements: seq<Requirement>, observations: map<string, Observation>, items: seq<EvidenceItem>,
                         matches: seq<EvidenceMatch>, verifiedSpend: Option<nat>, policyVersion: string, evaluatedAt: int,
                         approval: Option<MilestoneApproval>, expectedIntentId: Option<string>, expectedEvaluatorId: Option<string>,
                         expectedFounderId: Option<string>)

  datatype Outcome = Pass | Review | Fail

  datatype Reason =
    | EvidenceMissing | EvidenceConflict | DeliverableCountMet | DeliverableCountShort | ReceiptCountMet | ReceiptCountShort
    | TransactionMatched | TransactionMismatch | BusinessPurposePresent | BusinessPurposeMissing | SpendWithinLimit | SpendLimitExceeded
    | ConfirmationPresent | ConfirmationMissing | DueDateValid | DueDateExpired
    | HumanApprovalPending | HumanApprovalRejected | HumanApprovalConfirmed

  datatype MilestoneError = BadRequirements | LateEvidence | DuplicateEvidence | BadReferences | Malformed

  datatype Status = Incomplete | NeedsReview | Eligible

  datatype NextAction = ProvideEvidence | AnswerProofRecovery | RequestHumanReview | RequestHumanApproval | PrepareJobDraft

  datatype RequirementEvaluation = RequirementEvaluation(requirementId: string, required: bool, references: seq<string>, outcome: Outcome, reason: Reason,
                                                         evaluatedAt: int, blocksEligibility: bool, blocksRelease: bool)

  datatype Evaluation = Evaluation(status: Status, requirements: seq<RequirementEvaluation>, reasons: seq<Reason>, nextAction: NextAction,
                                   policyVersion: string, evaluatedAt: int, humanApprovalRequired: bool, actionPermitted: bool)

  // ----- the shape of references -----

  predicate LowerHex(c: char) {
    '0' <= c <= '9' || 'a' <= c <= 'f'
  }

  predicate AllLowerHex(s: string) {
    s == [] || (LowerHex(s[0]) && AllLowerHex(s[1..]))
  }

  /** `/^sha256:[a-f0-9]{64}$/` */
  predicate IsHashReference(s: string) {
    |s| == 71 && s[..7] == "sha256:" && AllLowerHex(s[7..])
  }

  predicate TailChar(c: char) {
    'A' <= c <= 'Z' || 'a' <= c <= 'z' || '0' <= c <= '9' || c in "._:-"
  }

  predicate AllTail(s: string) {
    s == [] || (TailChar(s[0]) && AllTail(s[1..]))
  }

  /** The rest of a reference after its first letter: more of the scheme, a colon, and at least one further character. */
  predicate AfterLetter(s: string) {
    s != [] && if s[0] == ':' then s[1..] != [] && AllTail(s[1..])
               else ('a' <= s[0] <= 'z' || '0' <= s[0] <= '9' || s[0] == '-') && AfterLetter(s[1..])
  }

  /** `/^[a-z][a-z0-9-]*:[A-Za-z0-9._:-]+$/`, which hash references also match. */
  predicate IsReference(s: string) {
    s != [] && 'a' <= s[0] <= 'z' && AfterLetter(s[1..])
  }

  // ----- evidence and provenance -----

  function ProjectItems(items: seq<EvidenceItem>, projectId: string): seq<EvidenceItem> {
    if items == [] then []
    else
      var last := items[|items| - 1];
      ProjectItems(items[..|items| - 1], projectId) + if last.projectId == projectId then [last] else []
  }

  /** The evidence that an evaluation looks at: that of the milestone's own project. */
  function Slice(i: Input): seq<EvidenceItem> {
    ProjectItems(i.items, i.milestone.projectId)
  }

  function Find(items: seq<EvidenceItem>, id: string): Option<EvidenceItem> {
    if items == [] then None else if items[|items| - 1].id == id then Some(items[|items| - 1]) else Find(items[..|items| - 1], id)
  }

  /** The first item that is late or repeats an id throws. */
  function CheckItems(items: seq<EvidenceItem>, evaluatedAt: int): Check<MilestoneError> {
    if items == [] then Passed
    else
      var init, last := items[..|items| - 1], items[|items| - 1];
      if CheckItems(init, evaluatedAt).Thrown? then CheckItems(init, evaluatedAt)
      else if last.submittedAt > evaluatedAt then Thrown(LateEvidence)
      else if Find(init, last.id).Some? then Thrown(DuplicateEvidence)
      else Passed
  }

  predicate AllowedDecider(i: Input, a: Actor) {
    || (a.actorType.FounderActor? && i.expectedFounderId == Some(a.actorId))
    || (a.actorType.EvaluatorActor? && i.expectedEvaluatorId == Some(a.actorId))
  }

  /** A human decision that counts: for evidence of the slice, bound to its exact content, by an allowed person. */
  predicate Accepts(i: Input, m: EvidenceMatch, requirementId: string) {
    && m.HumanDecision? && m.requirementId == requirementId
    && Find(Slice(i), m.evidenceId).Some?
    && m.acceptedEvidenceHash == Find(Slice(i), m.evidenceId).value.sourceHash
    && AllowedDecider(i, m.acceptedBy)
  }

  predicate Suggests(i: Input, m: EvidenceMatch, requirementId: string) {
    m.AiSuggestion? && m.requirementId == requirementId && Find(Slice(i), m.evidenceId).Some?
  }

  predicate OfKind(i: Input, m: EvidenceMatch, kind: EvidenceKind) {
    Find(Slice(i), m.evidenceId).Some? && Find(Slice(i), m.evidenceId).value.kind == kind
  }

  function AcceptedIds(i: Input, r: string): set<string> {
    set m | m in i.matches && Accepts(i, m, r) :: m.evidenceId
  }

  function AcceptedOfKind(i: Input, r: string, kind: EvidenceKind): set<string> {
    set m | m in i.matches && Accepts(i, m, r) && OfKind(i, m, kind) :: m.evidenceId
  }

  function SuggestedOfKind(i: Input, r: string, kind: EvidenceKind): set<string> {
    set m | m in i.matches && Suggests(i, m, r) && OfKind(i, m, kind) :: m.evidenceId
  }

  predicate HasAccepted(i: Input, r: string) {
    exists m :: m in i.matches && Accepts(i, m, r)
  }

  predicate HasSuggestion(i: Input, r: string) {
    exists m :: m in i.matches && Suggests(i, m, r)
  }

  function IdsWithHash(items: seq<EvidenceItem>, hash: string): set<string> {
    set e | e in items && e.sourceHash == hash :: e.id
  }

  // ----- checking references against accepted evidence -----

  /** The one accepted record a reference stands for. */
  ghost function ResolveReference(items: seq<EvidenceItem>, accepted: set<string>, reference: string): Result<string, MilestoneError> {
    if IsHashReference(reference) then
      var candidates := IdsWithHash(items, reference) * accepted;
      if |candidates| != 1 then Failure(BadReferences) else
        var id :| id in candidates;
        Success(id)
    else if Find(items, reference).Some? && reference in accepted then Success(reference)
    else Failure(BadReferences)
  }

  /** The records that the references stand for, none of them twice. */
  ghost function ResolveAll(items: seq<EvidenceItem>, accepted: set<string>, references: seq<string>): Result<set<string>, MilestoneError> {
    if references == [] then Success({})
    else
      var before :- ResolveAll(items, accepted, references[..|references| - 1]);
      var id :- ResolveReference(items, accepted, references[|references| - 1]);
      if id in before then Failure(BadReferences) else Success(before + {id})
  }

  /** The references name exactly the accepted records; the answer is how many these are. */
  ghost function CheckReferences(items: seq<EvidenceItem>, accepted: set<string>, references: seq<string>): Result<nat, MilestoneError> {
    var resolved :- ResolveAll(items, accepted, references);
    if resolved != accepted then Failure(BadReferences) else Success(|accepted|)
  }

  predicate Repeats(references: seq<string>) {
    exists j, k :: 0 <= j < k < |references| && references[j] == references[k]
  }

  ghost function CountReferences(i: Input, r: string, o: Observation, count: Option<nat>, kind: EvidenceKind): Result<nat, MilestoneError> {
    var accepted := AcceptedOfKind(i, r, kind);
    :- Need(!Repeats(o.references), BadReferences);
    :- Need(count.Some? ==> count.value == |o.references|, BadReferences);
    CheckReferences(Slice(i), accepted, o.references)
  }

  // ----- one requirement -----

  datatype Finding = Finding(outcome: Outcome, reason: Reason)

  datatype Classification = ApprovalPending | ApprovalRejected | ApprovalConfirmed

  predicate AiOnly(i: Input, r: string) {
    HasSuggestion(i, r) && !HasAccepted(i, r)
  }

  predicate PendingAi(i: Input, r: string, kind: EvidenceKind) {
    !(SuggestedOfKind(i, r, kind) <= AcceptedOfKind(i, r, kind))
  }

  ghost function EvaluateByKind(i: Input, r: Requirement, o: Observation, approval: Classification): Result<Finding, MilestoneError> {
    if !r.kind.HumanApproval? && o.conflicting then Success(Finding(Review, EvidenceConflict))
    else
      match r.kind
      case DeliverableKind =>
        var n :- CountReferences(i, r.id, o, o.deliverableCount, Deliverable);
        Success(if n > 0 then Finding(Pass, DeliverableCountMet) else Finding(Fail, DeliverableCountShort))
      case ExpenseRecords(required) =>
        var n :- CountReferences(i, r.id, o, o.receiptCount, Receipt);
        Success(if n >= required then Finding(Pass, ReceiptCountMet)
                else if PendingAi(i, r.id, Receipt) then Finding(Review, EvidenceMissing)
                else Finding(Fail, ReceiptCountShort))
      case SpendLimit(limit) =>
        Success(if i.verifiedSpend.None? then Finding(Fail, EvidenceMissing)
                else if i.verifiedSpend.value <= limit then Finding(Pass, SpendWithinLimit)
                else Finding(Fail, SpendLimitExceeded))
      case FounderConfirmation =>
        if AcceptedOfKind(i, r.id, Confirmation) != {} then
          var n :- CheckReferences(Slice(i), AcceptedOfKind(i, r.id, Confirmation), o.references);
          Success(Finding(Pass, ConfirmationPresent))
        else Success(if o.founderConfirmationPresent || AiOnly(i, r.id) then Finding(Review, EvidenceMissing) else Finding(Fail, ConfirmationMissing))
      case TransactionMatch =>
        if HasAccepted(i, r.id) then
          var n :- CheckReferences(Slice(i), AcceptedIds(i, r.id), o.references);
          Success(Finding(Pass, TransactionMatched))
        else Success(if o.transactionMatched == Some(false) then Finding(Fail, TransactionMismatch)
                     else if o.transactionMatched == Some(true) || AiOnly(i, r.id) then Finding(Review, EvidenceMissing)
                     else Finding(Fail, EvidenceMissing))
      case BusinessPurpose =>
        if HasAccepted(i, r.id) then
          var n :- CheckReferences(Slice(i), AcceptedIds(i, r.id), o.references);
          Success(Finding(Pass, BusinessPurposePresent))
        else Success(if o.businessPurposePresent || AiOnly(i, r.id) then Finding(Review, EvidenceMissing) else Finding(Fail, BusinessPurposeMissing))
      case DueDate =>
        Success(if i.milestone.dueAt.None? then Finding(Review, EvidenceMissing)
                else if i.evaluatedAt <= i.milestone.dueAt.value then Finding(Pass, DueDateValid)
                else Finding(Fail, DueDateExpired))
      case HumanApproval =>
        :- Need(i.approval.Some? && o.references != [] ==> o.references == [i.approval.value.id], BadReferences);
        Success(match approval
                case ApprovalConfirmed => Finding(Pass, HumanApprovalConfirmed)
                case ApprovalRejected => Finding(Fail, HumanApprovalRejected)
                case ApprovalPending => Finding(Review, HumanApprovalPending))
  }

  function ObservationFor(i: Input, r: string): Observation {
    if r in i.observations then i.observations[r] else NO_OBSERVATION
  }

  function ReportedReferences(i: Input, r: Requirement, o: Observation): seq<string> {
    if !r.kind.HumanApproval? then o.references else if i.approval.Some? then [i.approval.value.id] else []
  }

  predicate AllReferences(references: seq<string>) {
    forall k :: 0 <= k < |references| ==> IsReference(references[k])
  }

  ghost function EvaluateRequirement(i: Input, r: Requirement, approval: Classification): Result<RequirementEvaluation, MilestoneError> {
    var o := ObservationFor(i, r.id);
    var f :- EvaluateByKind(i, r, o, approval);
    :- Need(AllReferences(ReportedReferences(i, r, o)), Malformed);
    var blocks := r.required && f.outcome != Pass;
    Success(RequirementEvaluation(r.id, r.required, ReportedReferences(i, r, o), f.outcome, f.reason, i.evaluatedAt,
                                  !r.kind.HumanApproval? && blocks, if r.kind.HumanApproval? then f.outcome != Pass else blocks))
  }

  ghost function EvaluateAll(i: Input, rs: seq<Requirement>, approval: Classification): Result<seq<RequirementEvaluation>, MilestoneError> {
    if rs == [] then Success([])
    else
      var before :- EvaluateAll(i, rs[..|rs| - 1], approval);
      var last :- EvaluateRequirement(i, rs[|rs| - 1], approval);
      Success(before + [last])
  }

  // ----- the approval of an evaluation -----

  function HumanMatches(matches: seq<EvidenceMatch>): seq<EvidenceMatch> {
    if matches == [] then []
    else
      var last := matches[|matches| - 1];
      HumanMatches(matches[..|matches| - 1]) + if last.HumanDecision? then [last] else []
  }

  predicate RequirementLe(a: Requirement, b: Requirement) { IdLe(a.id, b.id) }

  predicate ItemLe(a: EvidenceItem, b: EvidenceItem) { IdLe(a.id, b.id) }

  predicate MatchLe(a: EvidenceMatch, b: EvidenceMatch) {
    if a.requirementId != b.requirementId then IdLe(a.requirementId, b.requirementId)
    else if a.evidenceId != b.evidenceId then IdLe(a.evidenceId, b.evidenceId)
    else IdLe(a.id, b.id)
  }

  /** What an evaluator's approval is bound to. It contains the human decisions but no AI suggestion. */
  datatype Subject = Subject(policyVersion: string, evaluatedAt: int, expectedIntentId: Option<string>, expectedEvaluatorId: Option<string>,
                             expectedFounderId: Option<string>, milestone: Milestone, requirements: seq<Requirement>,
                             observations: map<string, Observation>, verifiedSpend: Option<nat>, items: seq<EvidenceItem>, matches: seq<EvidenceMatch>)

  function SubjectOf(i: Input): Subject {
    Subject(i.policyVersion, i.evaluatedAt, i.expectedIntentId, i.expectedEvaluatorId, i.expectedFounderId,
            i.milestone.(requirementIds := Sort(i.milestone.requirementIds, IdLe)), Sort(i.requirements, RequirementLe),
            map r | r in i.observations :: i.observations[r].(references := Sort(Distinct(i.observations[r].references), IdLe)),
            i.verifiedSpend, Sort(Slice(i), ItemLe), Sort(HumanMatches(i.matches), MatchLe))
  }

  function Classify(i: Input, h: Subject -> string): Classification {
    if i.approval.None? || i.expectedIntentId.None? || i.expectedEvaluatorId.None? then ApprovalPending
    else
      var a := i.approval.value;
      if || !a.evaluatesMilestone || !a.authorizedActor.actorType.EvaluatorActor? || a.aggregateId != i.milestone.id
         || a.intentId != i.expectedIntentId.value || a.exactIntentHash != h(SubjectOf(i)) || a.authorizedActor.actorId != i.expectedEvaluatorId.value
         || a.approver != Some(a.authorizedActor) || a.decidedAt.None? || a.decidedAt.value > i.evaluatedAt then ApprovalPending
      else if a.decision.Rejected? then ApprovalRejected
      else if i.evaluatedAt < a.expiresAt && a.decision.Approved? then ApprovalConfirmed
      else ApprovalPending
  }

  // ----- the whole evaluation -----

  predicate DistinctStrings(ids: seq<string>) {
    forall j, k :: 0 <= j < k < |ids| ==> ids[j] != ids[k]
  }

  function RequirementIds(rs: seq<Requirement>): seq<string> {
    seq(|rs|, k requires 0 <= k < |rs| => rs[k].id)
  }

  /** The supplied requirements are exactly those of the milestone, each once. */
  predicate RequirementSet(m: Milestone, rs: seq<Requirement>) {
    && DistinctStrings(m.requirementIds)
    && (forall k :: 0 <= k < |rs| ==> rs[k].milestoneId == m.id)
    && DistinctStrings(RequirementIds(rs))
    && (forall id :: id in m.requirementIds ==> id in RequirementIds(rs))
    && (forall id :: id in RequirementIds(rs) ==> id in m.requirementIds)
  }

  predicate ReferencesOk(i: Input) {
    forall r :: r in i.observations ==> AllReferences(i.observations[r].references)
  }

  predicate Blocked(evaluations: seq<RequirementEvaluation>, outcome: Outcome) {
    exists k :: 0 <= k < |evaluations| && evaluations[k].blocksEligibility && evaluations[k].outcome == outcome
  }

  function StatusOf(evaluations: seq<RequirementEvaluation>): Status {
    if Blocked(evaluations, Fail) then Incomplete else if Blocked(evaluations, Review) then NeedsReview else Eligible
  }

  function ReasonsOf(evaluations: seq<RequirementEvaluation>): seq<Reason> {
    Distinct(seq(|evaluations|, k requires 0 <= k < |evaluations| => evaluations[k].reason))
  }

  function Recommended(status: Status, reasons: seq<Reason>, humanApprovalRequired: bool): NextAction {
    match status
    case Incomplete => ProvideEvidence
    case NeedsReview => if EvidenceConflict in reasons then AnswerProofRecovery else RequestHumanReview
    case Eligible => if humanApprovalRequired then RequestHumanApproval else PrepareJobDraft
  }

  function Concluded(i: Input, evaluations: seq<RequirementEvaluation>, approval: Classification): Evaluation {
    var status, reasons, required := StatusOf(evaluations), ReasonsOf(evaluations), !approval.ApprovalConfirmed?;
    Evaluation(status, evaluations, reasons, Recommended(status, reasons, required), i.policyVersion, i.evaluatedAt, required, false)
  }

  ghost function Evaluate(i: Input, h: Subject -> string): Result<Evaluation, MilestoneError> {
    var approval := Classify(i, h);
    :- Need(ReferencesOk(i), Malformed);
    :- Need(RequirementSet(i.milestone, i.requirements), BadRequirements);
    :- CheckItems(Slice(i), i.evaluatedAt);
    var evaluations :- EvaluateAll(i, Sort(i.requirements, RequirementLe), approval);
    Success(Concluded(i, evaluations, approval))
  }
}
