/** The runnable queue: every claimable issue once, conflicts first, then continuations, then ordinary issues. */
module RunnableQueue {
  import opened Prelude
  import opened IssueRules

  type Listing = map<nat, Issue>

  predicate Numbered(issues: Listing) {
    forall n :: n in issues ==> issues[n].number == n
  }

  /** First created goes first; the number decides between issues created at the same time. */
  predicate Before(a: Issue, b: Issue) {
    a.createdAt < b.createdAt || (a.createdAt == b.createdAt && a.number < b.number)
  }

  predicate Fifo(s: seq<Issue>) {
    forall i, j :: 0 <= i < j < |s| ==> Before(s[i], s[j])
  }

  datatype Group = Conflicts | Continuations | Ordinary

  /** The group an issue is listed in. */
  function GroupOf(policy: Policy, issue: Issue): Option<Group> {
    if IsEligible(issue) then Some(Ordinary)
    else if IsConflictEligible(policy, issue) then Some(Conflicts)
    else if IsContinuationEligible(policy, issue) then Some(Continuations)
    else None
  }

  function Rank(policy: Policy, issue: Issue): int {
    match GroupOf(policy, issue)
    case Some(Conflicts) => 0
    case Some(Continuations) => 1
    case Some(Ordinary) => 2
    case None => 3
  }

  predicate Precedes(policy: Policy, a: Issue, b: Issue) {
    Rank(policy, a) < Rank(policy, b) || (Rank(policy, a) == Rank(policy, b) && Before(a, b))
  }

  /** The queue lists exactly the claimable issues, in strict queue order. */
  ghost predicate IsQueue(policy: Policy, issues: Listing, q: seq<Issue>) {
    && (forall i :: 0 <= i < |q| ==> q[i].number in issues && issues[q[i].number] == q[i] && IsClaimable(policy, q[i]))
    && (forall n :: n in issues && IsClaimable(policy, issues[n]) ==> issues[n] in q)
    && (forall i, j :: 0 <= i < j < |q| ==> Precedes(policy, q[i], q[j]))
  }

  /** Queue order is strict, so no issue is listed twice and the order leaves no choice. */
  lemma {:induction false} QueueIsDetermined(policy: Policy, issues: Listing, p: seq<Issue>, q: seq<Issue>)
    requires IsQueue(policy, issues, p) && IsQueue(policy, issues, q)
    ensures p == q
  {
    SameElementsSameOrder(policy, p, q);
  }

  /** Of two entries of one rule the one created first comes first, by number at the same time; conflicts, continuations, then ordinary. */
  lemma QueueOrder(policy: Policy, issues: Listing, q: seq<Issue>, i: nat, j: nat)
    requires IsQueue(policy, issues, q) && i < j < |q|
    ensures q[i].number != q[j].number
    ensures IsEligible(q[i]) ==> IsEligible(q[j])
    ensures IsConflictEligible(policy, q[j]) ==> IsConflictEligible(policy, q[i])
    ensures IsEligible(q[i]) == IsEligible(q[j]) && IsConflictEligible(policy, q[i]) == IsConflictEligible(policy, q[j]) ==>
              q[i].createdAt < q[j].createdAt || (q[i].createdAt == q[j].createdAt && q[i].number < q[j].number)
  {
    assert Precedes(policy, q[i], q[j]);
  }

  lemma {:induction false} SameElementsSameOrder(policy: Policy, p: seq<Issue>, q: seq<Issue>)
    requires forall i, j :: 0 <= i < j < |p| ==> Precedes(policy, p[i], p[j])
    requires forall i, j :: 0 <= i < j < |q| ==> Precedes(policy, q[i], q[j])
    requires forall x :: x in p <==> x in q
    ensures p == q
  {
    assert |q| > 0 ==> q[0] in q;
    if p != [] {
      assert p[0] in q && q[0] in p;
      assert p[0] == q[0];
      assert forall x :: x in p[1..] <==> x in p && x != p[0];
      assert forall x :: x in q[1..] <==> x in q && x != q[0];
      SameElementsSameOrder(policy, p[1..], q[1..]);
    }
  }

  /** Inserts one issue into a list kept in creation order. */
  function InsertFifo(s: seq<Issue>, issue: Issue): (r: seq<Issue>)
    ensures forall x :: x in r <==> x in s || x == issue
  {
    if s == [] then [issue]
    else if Before(issue, s[0]) then [issue] + s
    else
      assert forall x :: x in s <==> x == s[0] || x in s[1..];
      [s[0]] + InsertFifo(s[1..], issue)
  }

  lemma FifoCons(head: Issue, tail: seq<Issue>)
    requires Fifo(tail) && forall x :: x in tail ==> Before(head, x)
    ensures Fifo([head] + tail)
  {
  }

  lemma {:induction false} InsertKeepsFifo(s: seq<Issue>, issue: Issue)
    requires Fifo(s) && forall x :: x in s ==> x.number != issue.number
    ensures Fifo(InsertFifo(s, issue))
  {
    if s != [] {
      assert forall x :: x in s[1..] ==> Before(s[0], x);
      if Before(issue, s[0]) {
        assert s == [s[0]] + s[1..];
        FifoCons(issue, s);
      } else {
        assert s[0] in s;
        InsertKeepsFifo(s[1..], issue);
        FifoCons(s[0], InsertFifo(s[1..], issue));
      }
    }
  }

  class Tracker {
    const policy: Policy
    var pages: seq<seq<Issue>>
    var pullRequests: seq<PullRequest>
    var conflictLabels: set<nat>

    constructor (policy: Policy, pages: seq<seq<Issue>>, pullRequests: seq<PullRequest>)
      ensures this.policy == policy && this.pages == pages && this.pullRequests == pullRequests && conflictLabels == {}
    {
      this.policy, this.pages, this.pullRequests, conflictLabels := policy, pages, pullRequests, {};
    }

    /** The last listing of each number wins, as later pages overwrite earlier entries. */
    method ReadListing() returns (byNumber: Listing)
      ensures byNumber == Listed(pages, |pages|) && Numbered(byNumber)
      ensures Latest(pages, byNumber)
    {
      byNumber := map[];
      for p := 0 to |pages|
        invariant byNumber == Listed(pages, p) && Numbered(byNumber)
      {
        var page := pages[p];
        for i := 0 to |page|
          invariant byNumber == Overlay(Listed(pages, p), page, i) && Numbered(byNumber)
        {
          byNumber := byNumber[page[i].number := page[i]];
        }
      }
      ListedIsLatest(pages);
    }

    /** Labels in place every listed issue whose pull request reports conflicts. */
    method DetectConflictRequeues(byNumber: Listing) returns (updated: Listing)
      requires Numbered(byNumber)
      modifies this`conflictLabels
      ensures updated == Detected(byNumber, pullRequests, if policy.maxConflicts > 0 then |pullRequests| else 0)
      ensures forall n :: n in conflictLabels <==> n in old(conflictLabels) || (n in byNumber && updated[n] != byNumber[n])
    {
      updated := byNumber;
      assert updated == Detected(byNumber, pullRequests, 0);
      if policy.maxConflicts <= 0 {
        return;
      }
      for i := 0 to |pullRequests|
        invariant updated == Detected(byNumber, pullRequests, i)
        invariant forall n :: n in conflictLabels <==> n in old(conflictLabels) || (n in byNumber && updated[n] != byNumber[n])
      {
        DetectOneMore(byNumber, pullRequests, i);
        var pr := pullRequests[i];
        if pr.issue.Some? && pr.issue.value in updated && Detects(updated[pr.issue.value], pr) {
          var number := pr.issue.value;
          assert MERGE_CONFLICT !in updated[number].labels;
          assert updated[number] == byNumber[number];
          assert WithConflict(updated[number]) != updated[number];
          conflictLabels := conflictLabels + {number};
          updated := updated[number := WithConflict(updated[number])];
        }
      }
    }

    /** Sorts the claimable issues into the three groups. */
    method Grouped(byNumber: Listing) returns (conflicts: seq<Issue>, continuations: seq<Issue>, ordinary: seq<Issue>)
      requires Numbered(byNumber)
      ensures Sorted(policy, byNumber, {}, Conflicts, conflicts)
      ensures Sorted(policy, byNumber, {}, Continuations, continuations)
      ensures Sorted(policy, byNumber, {}, Ordinary, ordinary)
    {
      conflicts, continuations, ordinary := [], [], [];
      var rest := byNumber.Keys;
      while rest != {}
        invariant rest <= byNumber.Keys
        invariant Sorted(policy, byNumber, rest, Conflicts, conflicts)
        invariant Sorted(policy, byNumber, rest, Continuations, continuations)
        invariant Sorted(policy, byNumber, rest, Ordinary, ordinary)
        decreases |rest|
      {
        var n :| n in rest;
        var issue := byNumber[n];
        SortedStep(policy, byNumber, rest, n, Conflicts, conflicts);
        SortedStep(policy, byNumber, rest, n, Continuations, continuations);
        SortedStep(policy, byNumber, rest, n, Ordinary, ordinary);
        if IsEligible(issue) {
          ordinary := InsertFifo(ordinary, issue);
        } else if IsConflictEligible(policy, issue) {
          conflicts := InsertFifo(conflicts, issue);
        } else if IsContinuationEligible(policy, issue) {
          continuations := InsertFifo(continuations, issue);
        }
        rest := rest - {n};
      }
    }

    method RunnableQueue() returns (queue: seq<Issue>)
      modifies this`conflictLabels
      ensures IsQueue(policy, Detected(Listed(pages, |pages|), pullRequests,
                                       if policy.maxConflicts > 0 then |pullRequests| else 0), queue)
    {
      var listed := ReadListing();
      var byNumber := DetectConflictRequeues(listed);
      assert Numbered(byNumber);
      var conflicts, continuations, ordinary := Grouped(byNumber);
      queue := conflicts + continuations + ordinary;
      ThreeGroups(policy, byNumber, conflicts, continuations, ordinary);
    }
  }

  /** The part of one group already read from the listing, in creation order. */
  ghost predicate Sorted(policy: Policy, issues: Listing, rest: set<nat>, group: Group, s: seq<Issue>) {
    && Fifo(s)
    && (forall x :: x in s ==>
          x.number in issues && x.number !in rest && issues[x.number] == x && GroupOf(policy, x) == Some(group))
    && (forall n :: n in issues && n !in rest && GroupOf(policy, issues[n]) == Some(group) ==> issues[n] in s)
  }

  lemma SortedStep(policy: Policy, issues: Listing, rest: set<nat>, n: nat, group: Group, s: seq<Issue>)
    requires Numbered(issues) && n in rest && rest <= issues.Keys && Sorted(policy, issues, rest, group, s)
    ensures Sorted(policy, issues, rest - {n}, group,
                   if GroupOf(policy, issues[n]) == Some(group) then InsertFifo(s, issues[n]) else s)
  {
    if GroupOf(policy, issues[n]) == Some(group) {
      SortedInsert(policy, issues, rest, n, group, s);
    }
  }

  lemma SortedInsert(policy: Policy, issues: Listing, rest: set<nat>, n: nat, group: Group, s: seq<Issue>)
    requires Numbered(issues) && n in rest && n in issues && Sorted(policy, issues, rest, group, s)
    requires GroupOf(policy, issues[n]) == Some(group)
    ensures Sorted(policy, issues, rest - {n}, group, InsertFifo(s, issues[n]))
  {
    assert issues[n].number == n;
    InsertKeepsFifo(s, issues[n]);
  }

  lemma ThreeGroups(policy: Policy, issues: Listing, conflicts: seq<Issue>, continuations: seq<Issue>, ordinary: seq<Issue>)
    requires Sorted(policy, issues, {}, Conflicts, conflicts)
    requires Sorted(policy, issues, {}, Continuations, continuations)
    requires Sorted(policy, issues, {}, Ordinary, ordinary)
    ensures IsQueue(policy, issues, conflicts + continuations + ordinary)
  {
    var q := conflicts + continuations + ordinary;
    forall i | 0 <= i < |q|
      ensures q[i].number in issues && issues[q[i].number] == q[i] && IsClaimable(policy, q[i])
      ensures Rank(policy, q[i]) == if i < |conflicts| then 0 else if i < |conflicts| + |continuations| then 1 else 2
    {
      assert q[i] in conflicts || q[i] in continuations || q[i] in ordinary;
      assert i < |conflicts| ==> q[i] in conflicts;
      assert |conflicts| <= i < |conflicts| + |continuations| ==> q[i] in continuations;
      assert |conflicts| + |continuations| <= i ==> q[i] in ordinary;
    }
    forall n | n in issues && IsClaimable(policy, issues[n])
      ensures issues[n] in q
    {
      assert issues[n] in conflicts || issues[n] in continuations || issues[n] in ordinary;
    }
  }

  // ---- What the listing and the detector compute --------------------------------

  function Overlay(base: Listing, page: seq<Issue>, n: nat): Listing
    requires n <= |page|
  {
    if n == 0 then base else Overlay(base, page, n - 1)[page[n - 1].number := page[n - 1]]
  }

  function Listed(pages: seq<seq<Issue>>, n: nat): Listing
    requires n <= |pages|
  {
    if n == 0 then map[] else Overlay(Listed(pages, n - 1), pages[n - 1], |pages[n - 1]|)
  }

  /** The last entry of its number among the first n of a page. */
  predicate LastOnPage(page: seq<Issue>, n: nat, i: int)
    requires n <= |page|
  {
    0 <= i < n && forall j :: i < j < n ==> page[j].number != page[i].number
  }

  predicate OnPage(page: seq<Issue>, n: nat, number: nat)
    requires n <= |page|
  {
    exists i :: 0 <= i < n && page[i].number == number
  }

  /** The last entry of its number on the first n pages. */
  predicate LastListing(pages: seq<seq<Issue>>, n: nat, p: int, i: int)
    requires n <= |pages|
  {
    && 0 <= p < n && LastOnPage(pages[p], |pages[p]|, i)
    && forall q :: p < q < n ==> !OnPage(pages[q], |pages[q]|, pages[p][i].number)
  }

  /** The listing holds for each number exactly its last entry. */
  ghost predicate Latest(pages: seq<seq<Issue>>, listing: Listing) {
    && (forall p, i :: LastListing(pages, |pages|, p, i) ==>
          pages[p][i].number in listing && listing[pages[p][i].number] == pages[p][i])
    && forall k :: k in listing ==> exists p, i :: LastListing(pages, |pages|, p, i) && pages[p][i].number == k
  }

  function LastOf(page: seq<Issue>, n: nat, k: nat): (i: Option<nat>)
    requires n <= |page|
    ensures i.Some? ==> LastOnPage(page, n, i.value) && page[i.value].number == k
    ensures i.None? ==> !OnPage(page, n, k)
  {
    if n == 0 then None
    else if page[n - 1].number == k then Some(n - 1)
    else LastOf(page, n - 1, k)
  }

  lemma {:induction false} OverlayAt(base: Listing, page: seq<Issue>, n: nat, k: nat)
    requires n <= |page|
    ensures var o, last := Overlay(base, page, n), LastOf(page, n, k);
      if last.Some? then k in o && o[k] == page[last.value] else (k in o <==> k in base) && (k in o ==> o[k] == base[k])
  {
    if n > 0 {
      OverlayAt(base, page, n - 1, k);
    }
  }

  lemma {:induction false} ListedAt(pages: seq<seq<Issue>>, n: nat, k: nat)
    requires n <= |pages|
    ensures forall p, i :: LastListing(pages, n, p, i) && pages[p][i].number == k ==>
              k in Listed(pages, n) && Listed(pages, n)[k] == pages[p][i]
    ensures k in Listed(pages, n) ==> exists p, i :: LastListing(pages, n, p, i) && pages[p][i].number == k
  {
    if n > 0 {
      var page := pages[n - 1];
      ListedAt(pages, n - 1, k);
      OverlayAt(Listed(pages, n - 1), page, |page|, k);
      var last := LastOf(page, |page|, k);
      if last.Some? {
        assert LastListing(pages, n, n - 1, last.value);
      } else if k in Listed(pages, n - 1) {
        var p, i :| LastListing(pages, n - 1, p, i) && pages[p][i].number == k;
        assert LastListing(pages, n, p, i);
      }
      forall p, i | LastListing(pages, n, p, i) && pages[p][i].number == k
        ensures if p == n - 1 then last == Some(i) else last.None? && LastListing(pages, n - 1, p, i)
      {
      }
    }
  }

  lemma ListedIsLatest(pages: seq<seq<Issue>>)
    ensures Latest(pages, Listed(pages, |pages|))
  {
    forall k: nat
      ensures forall p, i :: LastListing(pages, |pages|, p, i) && pages[p][i].number == k ==>
                k in Listed(pages, |pages|) && Listed(pages, |pages|)[k] == pages[p][i]
      ensures k in Listed(pages, |pages|) ==> exists p, i :: LastListing(pages, |pages|, p, i) && pages[p][i].number == k
    {
      ListedAt(pages, |pages|, k);
    }
  }

  /** Some of the first n pull requests reports conflicts for the issue as it was listed. */
  predicate AnyDetects(issue: Issue, prs: seq<PullRequest>, n: nat)
    requires n <= |prs|
  {
    exists i :: 0 <= i < n && prs[i].issue == Some(issue.number) && Detects(issue, prs[i])
  }

  /** Each listed issue carries the conflict label exactly when one of its pull requests calls for it. */
  function Detected(issues: Listing, prs: seq<PullRequest>, n: nat): Listing
    requires n <= |prs|
  {
    map k | k in issues :: if AnyDetects(issues[k], prs, n) then WithConflict(issues[k]) else issues[k]
  }

  lemma DetectOneMore(issues: Listing, prs: seq<PullRequest>, n: nat)
    requires n < |prs| && Numbered(issues)
    ensures var pr, before := prs[n], Detected(issues, prs, n);
      Detected(issues, prs, n + 1)
      == if pr.issue.Some? && pr.issue.value in before && Detects(before[pr.issue.value], pr)
         then before[pr.issue.value := WithConflict(before[pr.issue.value])] else before
  {
    var pr, before := prs[n], Detected(issues, prs, n);
    forall k | k in issues
      ensures AnyDetects(issues[k], prs, n + 1)
         <==> AnyDetects(issues[k], prs, n) || (pr.issue == Some(k) && Detects(issues[k], pr))
    {
    }
    forall k | k in issues && AnyDetects(issues[k], prs, n)
      ensures !Detects(before[k], pr)
    {
      assert MERGE_CONFLICT in before[k].labels;
    }
  }
}
