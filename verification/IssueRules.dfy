/** Which issues a Worker may claim, and how a rejection is explained. */
module IssueRules {
  import opened Prelude

  const READY_FOR_AGENT := "ready-for-agent"
  const ROUND_FINISHED := "round-finished"
  const READY_FOR_HUMAN := "ready-for-human"
  const MERGE_CONFLICT := "merge-conflict"
  const CLAIM_MARKER_PREFIX := "claimed-by:"

  datatype Issue = Issue(
    number: nat,
    createdAt: int,
    open: bool,
    labels: set<string>,
    assignees: set<string>,
    blockedBy: int,
    body: string)

  predicate IsClaimMarker(name: string) {
    CLAIM_MARKER_PREFIX <= name
  }

  predicate HasClaimMarker(labels: set<string>) {
    exists name :: name in labels && IsClaimMarker(name)
  }

  predicate MeetsBaseRules(issue: Issue) {
    issue.open && issue.assignees == {} && !HasClaimMarker(issue.labels) && NonBlank(issue.body) && issue.blockedBy == 0
  }

  predicate IsEligible(issue: Issue) {
    && issue.open && READY_FOR_AGENT in issue.labels && issue.assignees == {}
    && !HasClaimMarker(issue.labels) && NonBlank(issue.body) && issue.blockedBy == 0
  }

  predicate IsContinuationSignal(issue: Issue) {
    ROUND_FINISHED in issue.labels && READY_FOR_AGENT !in issue.labels
  }

  predicate IsConflictSignal(issue: Issue) {
    && MERGE_CONFLICT in issue.labels && READY_FOR_AGENT !in issue.labels
    && ROUND_FINISHED !in issue.labels && READY_FOR_HUMAN !in issue.labels
  }

  /** The operator's budgets, and the continuation count the issue's comments resolve to, if they do. */
  datatype Policy = Policy(maxContinuations: int, maxConflicts: int, continuations: Issue -> Option<int>)

  predicate IsConflictEligible(policy: Policy, issue: Issue) {
    policy.maxConflicts > 0 && IsConflictSignal(issue) && MeetsBaseRules(issue)
  }

  predicate IsContinuationEligible(policy: Policy, issue: Issue) {
    && policy.maxContinuations > 0 && IsContinuationSignal(issue) && MeetsBaseRules(issue)
    && policy.continuations(issue).Some? && policy.continuations(issue).value < policy.maxContinuations
  }

  predicate IsClaimable(policy: Policy, issue: Issue) {
    IsEligible(issue) || IsConflictEligible(policy, issue) || IsContinuationEligible(policy, issue)
  }

  datatype Reason =
    | NotFound | NotOpen | LimitReached | NeedsHuman | NotLabelled
    | AlreadyAssigned | ClaimedByWorker | EmptyBody | Blocked

  /** Why a `next issue` target cannot be accepted; None accepts it. */
  function IneligibilityReason(issue: Option<Issue>, maxContinuations: int, count: int, maxConflicts: int): Option<Reason> {
    if issue.None? then Some(NotFound)
    else if !issue.value.open then Some(NotOpen)
    else
      var i := issue.value;
      if READY_FOR_AGENT in i.labels then FieldReason(i)
      else if maxContinuations > 0 && ROUND_FINISHED in i.labels then
        if MeetsBaseRules(i) then if count < maxContinuations then None else Some(LimitReached) else FieldReason(i)
      else if READY_FOR_HUMAN in i.labels then Some(NeedsHuman)
      else if maxConflicts > 0 && MERGE_CONFLICT in i.labels && READY_FOR_HUMAN !in i.labels && ROUND_FINISHED !in i.labels then
        if MeetsBaseRules(i) then None else FieldReason(i)
      else Some(NotLabelled)
  }

  function FieldReason(i: Issue): Option<Reason> {
    if i.assignees != {} then Some(AlreadyAssigned)
    else if HasClaimMarker(i.labels) then Some(ClaimedByWorker)
    else if !NonBlank(i.body) then Some(EmptyBody)
    else if i.blockedBy != 0 then Some(Blocked)
    else None
  }

  /** No reason is found exactly when one of the three queue rules would list the issue. */
  lemma NoReasonExactlyWhenClaimable(policy: Policy, issue: Issue, count: int)
    requires IsContinuationSignal(issue) ==> policy.continuations(issue) == Some(count)
    ensures IneligibilityReason(Some(issue), policy.maxContinuations, count, policy.maxConflicts) == None
       <==> IsClaimable(policy, issue)
  {
  }

  /** Every reason given is a fact about the issue. */
  lemma ReasonIsTrue(i: Issue, maxContinuations: int, count: int, maxConflicts: int)
    ensures match IneligibilityReason(Some(i), maxContinuations, count, maxConflicts)
      case None => i.open && i.assignees == {} && i.blockedBy == 0
      case Some(NotOpen) => !i.open
      case Some(LimitReached) => "round-finished" in i.labels && 0 < maxContinuations <= count
      case Some(NeedsHuman) => "ready-for-human" in i.labels
      case Some(NotLabelled) => "ready-for-agent" !in i.labels && (maxContinuations > 0 ==> "round-finished" !in i.labels)
      case Some(AlreadyAssigned) => i.assignees != {}
      case Some(ClaimedByWorker) => exists name :: name in i.labels && "claimed-by:" <= name
      case Some(EmptyBody) => forall k :: 0 <= k < |i.body| ==> IsSpace(i.body[k])
      case Some(Blocked) => i.blockedBy != 0
      case Some(NotFound) => false
    ensures IneligibilityReason(None, maxContinuations, count, maxConflicts) == Some(NotFound)
  {
  }

  // ---- The conflict detector ----------------------------------------------------

  /** An open pull request; `issue` is the number its head branch names, if it is an attempt branch. */
  datatype PullRequest = PullRequest(issue: Option<nat>, draft: bool, conflicting: bool, head: string, tip: Option<string>)

  predicate IsStale(pr: PullRequest) {
    pr.head != "" && pr.tip.Some? && pr.tip.value != "" && pr.tip.value != pr.head
  }

  predicate Detects(issue: Issue, pr: PullRequest) {
    && !pr.draft && pr.conflicting && !IsStale(pr) && MeetsBaseRules(issue)
    && issue.labels !! {READY_FOR_AGENT, ROUND_FINISHED, READY_FOR_HUMAN, MERGE_CONFLICT}
  }

  /** A pull request calls for the label exactly when it is ready, reports conflicts of its present head, and nothing holds the issue. */
  lemma DetectsExactly(issue: Issue, pr: PullRequest)
    ensures Detects(issue, pr)
       <==> && !pr.draft && pr.conflicting
            && (pr.head == "" || pr.tip.None? || pr.tip.value == "" || pr.tip.value == pr.head)
            && issue.open && issue.assignees == {} && issue.blockedBy == 0
            && (exists k :: 0 <= k < |issue.body| && !IsSpace(issue.body[k]))
            && (forall name :: name in issue.labels ==>
                  && name !in {"ready-for-agent", "round-finished", "ready-for-human", "merge-conflict"}
                  && !("claimed-by:" <= name))
  {
    assert HasClaimMarker(issue.labels) <==> exists name :: name in issue.labels && "claimed-by:" <= name;
    var held := {"ready-for-agent", "round-finished", "ready-for-human", "merge-conflict"};
    assert issue.labels !! held <==> forall name :: name in issue.labels ==> name !in held;
    assert (forall name :: name in issue.labels ==> name !in held && !("claimed-by:" <= name))
      <==> (forall name :: name in issue.labels ==> name !in held) && !(exists name :: name in issue.labels && "claimed-by:" <= name);
  }

  function WithConflict(issue: Issue): Issue {
    issue.(labels := issue.labels + {MERGE_CONFLICT})
  }

  /** A labelled issue is claimable in the same poll, and is never labelled twice. */
  lemma DetectedIsClaimableNow(policy: Policy, issue: Issue, pr: PullRequest)
    requires policy.maxConflicts > 0 && Detects(issue, pr)
    ensures IsConflictEligible(policy, WithConflict(issue)) && !IsEligible(WithConflict(issue))
    ensures forall other :: !Detects(WithConflict(issue), other)
  {
    assert !IsClaimMarker(MERGE_CONFLICT) by {
      assert MERGE_CONFLICT[0] != CLAIM_MARKER_PREFIX[0];
    }
  }
}
