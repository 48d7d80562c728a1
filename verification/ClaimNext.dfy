/**
 One Worker's walk over its queue while other Workers and humans keep changing the tracker:
 assign, mark, re-read, then either hold the claim or yield and go on with the next entry.
 */
module ClaimNext {
  import opened Prelude
  import opened IssueRules

  type Remote = map<nat, Issue>

  /** How one queue entry ended, with the issue as it was last read. */
  datatype Verdict =
    | Gone                       // no longer exists
    | Ineligible(seen: Issue)    // re-read, no longer claimable
    | Lost(last: Option<Issue>)  // verified with another claimant present
    | Won(read: Issue)

  /** What a Worker asks of GitHub, with what a read showed. */
  datatype Call =
    | Read(number: nat, shown: Option<Issue>)
    | Assigned(number: nat)
    | Unassigned(number: nat)
    | Labelled(number: nat, name: string)
    | Unlabelled(number: nat, name: string)

  /** A call made only under a condition. */
  function When(condition: bool, call: Call): seq<Call> {
    if condition then [call] else []
  }

  class Worker {
    const login: string
    const id: Option<string>
    const policy: Policy
    var remote: Remote

    /** Every call made so far, in order. */
    ghost var calls: seq<Call>

    constructor (login: string, id: Option<string>, policy: Policy, remote: Remote)
      ensures this.login == login && this.id == id && this.policy == policy && this.remote == remote && calls == []
    {
      this.login, this.id, this.policy, this.remote := login, id, policy, remote;
      calls := [];
    }

    function OwnMarker(): string
      requires id.Some?
    {
      CLAIM_MARKER_PREFIX + id.value
    }

    /** This Worker's claim on an issue: its marker, or its login when it has no id. */
    predicate Claims(issue: Issue) {
      if id.Some? then OwnMarker() in issue.labels else login in issue.assignees
    }

    /** The re-read shows another login or, with a Worker id, another Worker's marker. */
    predicate SeesOthers(issue: Issue) {
      || (exists l :: l in issue.assignees && l != login)
      || (id.Some? && exists name :: name in issue.labels && IsClaimMarker(name) && name != OwnMarker())
    }

    /** Of the labels starting like a claim marker, only this one is there. */
    static predicate NoMarkerBut(labels: set<string>, own: string) {
      forall name :: name in labels && "claimed-by:" <= name ==> name == own
    }

    /** The issues this Worker has a claim on. */
    ghost function Claimed(): set<nat>
      reads this
    {
      set n | n in remote && Claims(remote[n])
    }

    /** The issues are the ones there were, under their numbers. */
    predicate SameIssues(before: Remote)
      reads this
    {
      remote.Keys == before.Keys && forall n :: n in remote ==> remote[n].number == before[n].number
    }

    /** Other Workers and humans change anything on the existing issues but their numbers and this Worker's claims. */
    method Interfere()
      modifies this`remote
      ensures SameIssues(old(remote)) && Claimed() == old(Claimed())
    {
      var next: Remote := *;
      if next.Keys == remote.Keys
         && forall n :: n in next ==> next[n].number == remote[n].number && Claims(next[n]) == Claims(remote[n]) {
        remote := next;
      }
    }

    method GetIssue(number: nat) returns (current: Option<Issue>)
      modifies this
      ensures SameIssues(old(remote)) && Claimed() == old(Claimed())
      ensures current == if number in remote then Some(remote[number]) else None
      ensures calls == old(calls) + [Read(number, current)]
    {
      Interfere();
      current := if number in remote then Some(remote[number]) else None;
      calls := calls + [Read(number, current)];
    }

    method Assign(number: nat)
      requires number in remote
      modifies this
      ensures SameIssues(old(remote))
      ensures Claimed() == old(Claimed()) + if id.None? then {number} else {}
      ensures login in remote[number].assignees && calls == old(calls) + [Assigned(number)]
    {
      Interfere();
      remote := remote[number := remote[number].(assignees := remote[number].assignees + {login})];
      calls := calls + [Assigned(number)];
    }

    method AddLabel(number: nat, name: string)
      requires number in remote
      modifies this
      ensures SameIssues(old(remote))
      ensures Claimed() == old(Claimed()) + if id.Some? && name == OwnMarker() then {number} else {}
      ensures name in remote[number].labels && calls == old(calls) + [Labelled(number, name)]
    {
      Interfere();
      remote := remote[number := remote[number].(labels := remote[number].labels + {name})];
      calls := calls + [Labelled(number, name)];
    }

    /** Removes any label: the claim goes only with the own marker. */
    method RemoveLabel(number: nat, name: string)
      requires number in remote
      modifies this
      ensures SameIssues(old(remote))
      ensures Claimed() == old(Claimed()) - if id.Some? && name == OwnMarker() then {number} else {}
      ensures name !in remote[number].labels && calls == old(calls) + [Unlabelled(number, name)]
    {
      Interfere();
      remote := remote[number := remote[number].(labels := remote[number].labels - {name})];
      calls := calls + [Unlabelled(number, name)];
    }

    method RemoveAssignee(number: nat)
      requires number in remote
      modifies this
      ensures SameIssues(old(remote))
      ensures Claimed() == old(Claimed()) - if id.None? then {number} else {}
      ensures login !in remote[number].assignees && calls == old(calls) + [Unassigned(number)]
    {
      Interfere();
      remote := remote[number := remote[number].(assignees := remote[number].assignees - {login})];
      calls := calls + [Unassigned(number)];
    }

    /**
     A lost claim is given back like this: the own marker goes if a read shows it, and the assignment
     if a later read shows it and no marker of anyone. Without an id the assignment just goes.
     */
    ghost predicate Yielded(number: nat, did: seq<Call>, first: Issue, last: Issue) {
      if id.None? then did == [Unassigned(number)]
      else
        did == [Read(number, Some(first))] + When(OwnMarker() in first.labels, Unlabelled(number, OwnMarker()))
               + [Read(number, Some(last))]
               + When(login in last.assignees && !HasClaimMarker(last.labels), Unassigned(number))
    }

    /** Gives a lost claim back: the own marker first, then the assignment once no marker remains. */
    method YieldLosingClaim(number: nat) returns (ghost did: seq<Call>)
      requires number in remote
      modifies this
      ensures SameIssues(old(remote)) && Claimed() == old(Claimed()) - {number}
      ensures calls == old(calls) + did && exists first, last :: Yielded(number, did, first, last)
    {
      if id.None? {
        RemoveAssignee(number);
        did := [Unassigned(number)];
        assert Yielded(number, did, remote[number], remote[number]);
        return;
      }
      var current := GetIssue(number);
      ghost var first := current.value;
      did := [Read(number, current)] + When(OwnMarker() in first.labels, Unlabelled(number, OwnMarker()));
      if OwnMarker() in current.value.labels {
        RemoveLabel(number, OwnMarker());
      }
      assert calls == old(calls) + did;
      current := GetIssue(number);
      ghost var last := current.value;
      did := did + [Read(number, current)] + When(login in last.assignees && !HasClaimMarker(last.labels), Unassigned(number));
      if login in current.value.assignees && !HasClaimMarker(current.value.labels) {
        RemoveAssignee(number);
      }
      assert Yielded(number, did, first, last);
    }

    /** Re-reads a just assigned and marked issue, and yields exactly when anyone else is on it. */
    method VerifyClaim(number: nat) returns (verdict: Verdict, ghost did: seq<Call>)
      requires Claimed() == {number}
      modifies this
      ensures SameIssues(old(remote))
      ensures calls == old(calls) + did && did != [] && did[0].Read? && did[0].number == number && did[0].shown.Some?
      ensures verdict == if SeesOthers(did[0].shown.value) then Lost(did[0].shown) else Won(did[0].shown.value)
      ensures verdict.Won? <==> && (forall l :: l in did[0].shown.value.assignees ==> l == login)
                                && (id.None? || NoMarkerBut(did[0].shown.value.labels, "claimed-by:" + id.value))
      ensures verdict.Won? ==> |did| == 1 && Claims(verdict.read) && Claimed() == {number}
      ensures verdict.Lost? ==> Claimed() == {} && exists first, last :: Yielded(number, did[1..], first, last)
    {
      var reread := GetIssue(number);
      did := [Read(number, reread)];
      if reread.None? {
        return Lost(None), did;
      }
      if SeesOthers(reread.value) {
        ghost var yielded := YieldLosingClaim(number);
        did := did + yielded;
        assert did[1..] == yielded;
        return Lost(reread), did;
      }
      return Won(reread.value), did;
    }

    /** The stale queue labels a verified winner clears. */
    function StaleLabels(number: nat, verified: Issue): seq<Call> {
      When(ROUND_FINISHED in verified.labels, Unlabelled(number, ROUND_FINISHED))
      + When(MERGE_CONFLICT in verified.labels && (READY_FOR_AGENT in verified.labels || ROUND_FINISHED in verified.labels),
             Unlabelled(number, MERGE_CONFLICT))
    }

    /** Only a verified winner clears the stale queue labels, none of which is a claim marker. */
    method RemoveStaleLabels(number: nat, verified: Issue)
      requires number in remote
      modifies this
      ensures SameIssues(old(remote)) && Claimed() == old(Claimed())
      ensures calls == old(calls) + StaleLabels(number, verified)
    {
      assert id.Some? ==> OwnMarker()[0] == 'c';
      if ROUND_FINISHED in verified.labels {
        RemoveLabel(number, ROUND_FINISHED);
      }
      if MERGE_CONFLICT in verified.labels && (READY_FOR_AGENT in verified.labels || ROUND_FINISHED in verified.labels) {
        RemoveLabel(number, MERGE_CONFLICT);
      }
    }

    /** The writes that make a claim, before it is verified. */
    function ClaimWrites(number: nat): seq<Call> {
      if id.Some? then [Assigned(number), Labelled(number, OwnMarker())] else [Assigned(number)]
    }

    method MakeClaim(number: nat)
      requires Claimed() == {} && number in remote
      modifies this
      ensures SameIssues(old(remote)) && Claimed() == {number} && calls == old(calls) + ClaimWrites(number)
    {
      Assign(number);
      if id.Some? {
        AddLabel(number, OwnMarker());
      }
    }

    /** Assigns, marks and verifies one issue that was just read as claimable. */
    method ClaimOne(number: nat) returns (verdict: Verdict, ghost did: seq<Call>, ghost reread: Issue, ghost rest: seq<Call>)
      requires Claimed() == {} && number in remote
      modifies this
      ensures SameIssues(old(remote))
      ensures calls == old(calls) + did && did == ClaimWrites(number) + [Read(number, Some(reread))] + rest
      ensures verdict == if SeesOthers(reread) then Lost(Some(reread)) else Won(reread)
      ensures verdict.Won? ==> Claims(reread) && Claimed() == {number} && rest == StaleLabels(number, reread)
      ensures verdict.Lost? ==> Claimed() == {} && exists first, last :: Yielded(number, rest, first, last)
    {
      MakeClaim(number);
      ghost var verifying;
      verdict, verifying := VerifyClaim(number);
      reread, rest := verifying[0].shown.value, verifying[1..];
      assert verifying == [Read(number, Some(reread))] + rest;
      if verdict.Won? {
        RemoveStaleLabels(number, verdict.read);
        rest := StaleLabels(number, reread);
        assert verifying == [Read(number, Some(reread))];
      }
      did := ClaimWrites(number) + [Read(number, Some(reread))] + rest;
    }

    /** What a passed-over entry was read as: gone, no longer claimable, or with another claimant on it. */
    predicate Explained(number: nat, verdict: Verdict, did: seq<Call>) {
      match verdict
      case Gone => Read(number, None) in did
      case Ineligible(seen) => Read(number, Some(seen)) in did && !IsClaimable(policy, seen)
      case Lost(last) => last.Some? && Read(number, last) in did && SeesOthers(last.value)
      case Won(read) => false
    }

    /** The claimed entry was read as claimable, and then seen with this claim and nobody else on it. */
    predicate Taken(number: nat, claim: Issue, verdict: Verdict, did: seq<Call>) {
      && IsClaimable(policy, claim) && Read(number, Some(claim)) in did
      && verdict.Won? && Read(number, Some(verdict.read)) in did && Claims(verdict.read) && !SeesOthers(verdict.read)
    }

    /** Each passed-over entry is explained. */
    predicate AllExplained(queue: seq<Issue>, passed: seq<Verdict>, did: seq<Call>) {
      |passed| <= |queue| && forall i :: 0 <= i < |passed| ==> Explained(queue[i].number, passed[i], did)
    }

    /** Only the first n queue entries were touched. */
    predicate Touches(queue: seq<Issue>, n: nat, did: seq<Call>)
      requires n <= |queue|
    {
      forall c :: c in did ==> exists i :: 0 <= i < n && queue[i].number == c.number
    }

    /**
     Claims the first queue entry that is read as claimable and then seen uncontested. Afterwards this
     Worker's claim is on exactly the returned issue, or on none, every earlier entry is explained by
     what was read, and no later one was touched.
     */
    method ClaimNext(queue: seq<Issue>)
      returns (claim: Option<Issue>, ghost passed: seq<Verdict>, ghost verdict: Verdict, ghost did: seq<Call>)
      requires Claimed() == {} && forall n :: n in remote ==> remote[n].number == n
      modifies this
      ensures SameIssues(old(remote)) && calls == old(calls) + did && AllExplained(queue, passed, did)
      ensures claim.None? ==> |passed| == |queue| && Touches(queue, |queue|, did) && Claimed() == {}
      ensures claim.Some? ==> |passed| < |queue| && Touches(queue, |passed| + 1, did) && var number := queue[|passed|].number;
        && Taken(number, claim.value, verdict, did)
        && Claimed() == {number} && claim.value.number == number
    {
      claim, passed, verdict, did := None, [], Gone, [];
      for i := 0 to |queue|
        invariant |passed| == i && claim.None? && Claimed() == {} && SameIssues(old(remote))
        invariant calls == old(calls) + did && Touches(queue, i, did) && AllExplained(queue, passed, did)
      {
        ghost var more;
        claim, verdict, more := TryEntry(queue[i].number);
        TouchedStill(queue, i, did, more);
        Remembered(queue, passed, claim, verdict, did, more);
        did := did + more;
        if claim.Some? {
          return;
        }
        passed := passed + [verdict];
      }
    }

    lemma ExplainedStill(number: nat, verdict: Verdict, did: seq<Call>, more: seq<Call>)
      requires Explained(number, verdict, did) || Explained(number, verdict, more)
      ensures Explained(number, verdict, did + more)
    {
    }

    lemma TakenStill(number: nat, claim: Issue, verdict: Verdict, did: seq<Call>, more: seq<Call>)
      requires Taken(number, claim, verdict, more)
      ensures Taken(number, claim, verdict, did + more)
    {
    }

    lemma TouchedStill(queue: seq<Issue>, n: nat, did: seq<Call>, more: seq<Call>)
      requires n < |queue| && Touches(queue, n, did) && forall c :: c in more ==> c.number == queue[n].number
      ensures Touches(queue, n + 1, did + more)
    {
      forall c | c in did + more
        ensures exists k :: 0 <= k < n + 1 && queue[k].number == c.number
      {
        if c in more {
          assert queue[n].number == c.number;
        }
      }
    }

    lemma Remembered(queue: seq<Issue>, passed: seq<Verdict>, claim: Option<Issue>, verdict: Verdict, did: seq<Call>, more: seq<Call>)
      requires |passed| < |queue| && AllExplained(queue, passed, did)
      requires if claim.Some? then Taken(queue[|passed|].number, claim.value, verdict, more)
               else Explained(queue[|passed|].number, verdict, more)
      ensures AllExplained(queue, passed, did + more)
      ensures if claim.Some? then Taken(queue[|passed|].number, claim.value, verdict, did + more)
              else AllExplained(queue, passed + [verdict], did + more)
    {
      forall i | 0 <= i < |passed|
        ensures Explained(queue[i].number, passed[i], did + more)
      {
        ExplainedStill(queue[i].number, passed[i], did, more);
      }
      if claim.Some? {
        TakenStill(queue[|passed|].number, claim.value, verdict, did, more);
      } else {
        ExplainedStill(queue[|passed|].number, verdict, did, more);
      }
    }

    /** One queue entry: re-read, and claimed exactly if it is claimable and then seen uncontested. */
    method TryEntry(number: nat) returns (claim: Option<Issue>, verdict: Verdict, ghost did: seq<Call>)
      requires Claimed() == {} && (number in remote ==> remote[number].number == number)
      modifies this
      ensures SameIssues(old(remote)) && calls == old(calls) + did
      ensures forall c :: c in did ==> c.number == number
      ensures claim.None? ==> Explained(number, verdict, did) && Claimed() == {}
      ensures claim.Some? ==> Taken(number, claim.value, verdict, did) && Claimed() == {number} && claim.value.number == number
    {
      var current := GetIssue(number);
      did := [Read(number, current)];
      if current.None? {
        return None, Gone, did;
      }
      if !IsEligible(current.value) && !IsConflictEligible(policy, current.value) && !IsContinuationEligible(policy, current.value) {
        return None, Ineligible(current.value), did;
      }
      ghost var more;
      verdict, more := TryClaim(number);
      did := did + more;
      claim := if verdict.Won? then current else None;
    }

    method TryClaim(number: nat) returns (verdict: Verdict, ghost did: seq<Call>)
      requires Claimed() == {} && number in remote
      modifies this
      ensures SameIssues(old(remote)) && calls == old(calls) + did
      ensures forall c :: c in did ==> c.number == number
      ensures verdict.Won? || verdict.Lost?
      ensures verdict.Won? ==> Read(number, Some(verdict.read)) in did && !SeesOthers(verdict.read) && Claims(verdict.read)
      ensures verdict.Won? ==> Claimed() == {number}
      ensures verdict.Lost? ==> verdict.last.Some? && Read(number, verdict.last) in did && SeesOthers(verdict.last.value)
      ensures verdict.Lost? ==> Claimed() == {}
    {
      ghost var reread, rest;
      verdict, did, reread, rest := ClaimOne(number);
      if verdict.Lost? {
        YieldTouches(number, rest);
      }
      ClaimTouches(number, reread, rest);
    }

    lemma YieldTouches(number: nat, did: seq<Call>)
      requires exists first, last :: Yielded(number, did, first, last)
      ensures forall c :: c in did ==> c.number == number
    {
    }

    lemma ClaimTouches(number: nat, reread: Issue, rest: seq<Call>)
      requires forall c :: c in rest ==> c.number == number
      ensures var middle := ClaimWrites(number) + [Read(number, Some(reread))] + rest;
        Read(number, Some(reread)) in middle && forall c :: c in middle ==> c.number == number
    {
    }

    // ---- Release -----------------------------------------------------------------------

    /** Takes the own marker off if a fresh read shows it; false when the issue is gone. */
    method ReleaseOwnMarker(number: nat) returns (present: bool, ghost shown: Option<Issue>)
      modifies this
      ensures SameIssues(old(remote)) && present == (id.None? || number in remote)
      ensures Claimed() == old(Claimed()) - if id.Some? then {number} else {}
      ensures id.None? ==> calls == old(calls)
      ensures id.Some? ==> present == shown.Some?
                           && calls == old(calls) + MarkerRelease(number, shown)
    {
      shown := None;
      if id.None? {
        return true, shown;
      }
      var current := GetIssue(number);
      shown := current;
      if current.None? {
        return false, shown;
      }
      if OwnMarker() in current.value.labels {
        RemoveLabel(number, OwnMarker());
      }
      return true, shown;
    }

    function MarkerRelease(number: nat, shown: Option<Issue>): seq<Call>
      requires id.Some?
    {
      [Read(number, shown)] + When(shown.Some? && OwnMarker() in shown.value.labels, Unlabelled(number, OwnMarker()))
    }

    /** The assignment goes if a read shows it, and with an id only once no marker remains. */
    function AssignmentRelease(number: nat, shown: Option<Issue>): seq<Call> {
      [Read(number, shown)]
      + When(shown.Some? && login in shown.value.assignees && !(id.Some? && HasClaimMarker(shown.value.labels)), Unassigned(number))
    }

    /** Removes the assignment after a fresh re-read, unless a marker still holds it. */
    method ReleaseAssignment(number: nat) returns (ghost shown: Option<Issue>)
      modifies this
      ensures SameIssues(old(remote))
      ensures Claimed() == old(Claimed()) - if id.None? then {number} else {}
      ensures calls == old(calls) + AssignmentRelease(number, shown)
    {
      var current := GetIssue(number);
      shown := current;
      if current.None? {
        return;
      }
      if login in current.value.assignees && !(id.Some? && HasClaimMarker(current.value.labels)) {
        RemoveAssignee(number);
      }
    }

    /** The calls that release a claim: the own marker first, then, if the issue is still there, the assignment. */
    function ClaimRelease(number: nat, marker: Option<Issue>, last: Option<Issue>): seq<Call> {
      if id.None? then AssignmentRelease(number, last)
      else MarkerRelease(number, marker) + if marker.Some? then AssignmentRelease(number, last) else []
    }

    method ReleaseClaim(number: nat) returns (ghost marker: Option<Issue>, ghost last: Option<Issue>)
      modifies this
      ensures SameIssues(old(remote)) && Claimed() == old(Claimed()) - {number}
      ensures calls == old(calls) + ClaimRelease(number, marker, last)
    {
      var present;
      present, marker := ReleaseOwnMarker(number);
      last := None;
      if present {
        last := ReleaseAssignment(number);
      }
    }

    /** The queue label if it is read there, then the claim. */
    method ReleaseAttempt(number: nat, queueLabel: string)
      returns (ghost shown: Option<Issue>, ghost marker: Option<Issue>, ghost last: Option<Issue>)
      requires !IsClaimMarker(queueLabel)
      modifies this
      ensures Claimed() == old(Claimed()) - {number}
      ensures calls == old(calls) + [Read(number, shown)]
                       + if shown.None? then []
                         else When(queueLabel in shown.value.labels, Unlabelled(number, queueLabel)) + ClaimRelease(number, marker, last)
    {
      marker, last := None, None;
      var current := GetIssue(number);
      shown := current;
      if current.None? {
        return;
      }
      assert id.Some? ==> IsClaimMarker(OwnMarker());
      if queueLabel in current.value.labels {
        RemoveLabel(number, queueLabel);
      }
      marker, last := ReleaseClaim(number);
    }

    /** The ready label goes if it is read there, and the finished label comes if a later read does not show it. */
    function HandoffLabels(number: nat, shown: Option<Issue>, again: Option<Issue>): seq<Call> {
      [Read(number, shown)]
      + if shown.None? then []
        else When(READY_FOR_AGENT in shown.value.labels, Unlabelled(number, READY_FOR_AGENT)) + [Read(number, again)]
             + When(again.Some? && ROUND_FINISHED !in again.value.labels, Labelled(number, ROUND_FINISHED))
    }

    method SettleHandoffLabels(number: nat) returns (present: bool, ghost shown: Option<Issue>, ghost again: Option<Issue>)
      modifies this
      ensures SameIssues(old(remote)) && Claimed() == old(Claimed()) && present == (number in remote)
      ensures present == (shown.Some? && again.Some?)
      ensures calls == old(calls) + HandoffLabels(number, shown, again)
    {
      assert id.Some? ==> OwnMarker()[0] == 'c';
      again := None;
      var current := GetIssue(number);
      shown := current;
      if current.None? {
        return false, shown, again;
      }
      if READY_FOR_AGENT in current.value.labels {
        RemoveLabel(number, READY_FOR_AGENT);
      }
      current := GetIssue(number);
      again := current;
      if current.None? {
        return false, shown, again;
      }
      if ROUND_FINISHED !in current.value.labels {
        AddLabel(number, ROUND_FINISHED);
      }
      return true, shown, again;
    }

    /** The queue labels of a handoff, and then the claim. */
    method ReleaseHandoff(number: nat)
      returns (ghost shown: Option<Issue>, ghost again: Option<Issue>, ghost marker: Option<Issue>, ghost last: Option<Issue>)
      modifies this
      ensures Claimed() == old(Claimed()) - {number}
      ensures calls == old(calls) + HandoffLabels(number, shown, again)
                       + if shown.Some? && again.Some? then ClaimRelease(number, marker, last) else []
    {
      marker, last := None, None;
      var present;
      present, shown, again := SettleHandoffLabels(number);
      if present {
        marker, last := ReleaseClaim(number);
      }
    }
  }

  /** A claimable issue carries no claim of anyone: neither an assignee nor a marker. */
  lemma ClaimableIsUnclaimed(worker: Worker, issue: Issue)
    requires IsClaimable(worker.policy, issue)
    ensures !worker.Claims(issue) && !worker.SeesOthers(issue)
  {
    if worker.id.Some? {
      assert IsClaimMarker(worker.OwnMarker());
    }
  }
}
