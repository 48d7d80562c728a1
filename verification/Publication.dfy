/**
 Publishing the attempts of one issue: push under the lease, mark, open the pull request, post the
 result, keep the shared record. Every effect may land while its reply is lost, and publication is
 replayed until it settles. One Worker publishes an issue at a time: the claim sees to that.
 */
module Publication {
  import opened Prelude
  import opened PullRequests
  import opened Remote
  import opened SharedRecord
  import opened Thread
  import A = AttemptState
  import M = HandoffMarker
  import H = PushHistory
  import P = PushLoop

  type Sha = string

  type PullPass = PullRequests.Pass

  datatype AttemptOutcome = Complete | Incomplete | InfrastructureError | NoChanges | Handoff

  datatype Path = NoPath | CompletePath | PartialPath

  datatype Decision = Decision(outcome: Option<AttemptOutcome>, eligible: bool, path: Path)

  datatype Request = Request(
    attempt: string,
    decision: Decision,
    noteSha: Option<Sha>,
    source: string,
    count: Option<int>,
    notify: bool,
    merge: bool)

  datatype Mode = Link | Verbose

  datatype Fault = BranchMoved | LeaseFailed | PushFailed | StateFailed

  datatype Result = Result(
    outcome: AttemptOutcome,
    branchLinked: bool,
    pullRequest: bool,
    commentPosted: bool,
    handoffPosted: bool,
    suppressed: bool)

  /** A checkpoint that cannot be used raises out of publication; everything else is a result. */
  datatype Reply = Returned(result: Result) | Raised

  predicate NeedsPush(d: Decision) {
    d.eligible || (d.outcome in {Some(Incomplete), Some(Handoff)} && d.path == PartialPath)
  }

  predicate Requested(r: Request) {
    r.count.Some? && r.noteSha.Some?
  }

  /** The outcome reported for a failed push: only an incomplete attempt keeps its own. */
  function AfterFault(d: Decision, fault: Fault): AttemptOutcome {
    if fault != BranchMoved && d.outcome == Some(Incomplete) && !d.eligible then Incomplete else InfrastructureError
  }

  function LeaseOf(c: Option<A.Checkpoint>): Option<Option<Sha>> {
    if c.Some? then c.value.lease else None
  }

  /** What these pushes make of the origin and a recorded lease, and whether one of them was told of a move. */
  ghost predicate MadeOf(head: Option<Sha>, lease: Option<Option<Sha>>, tries: seq<H.Pass>, now: Option<Sha>,
                         kept: Option<Option<Sha>>, moved: bool)
  {
    lease.Some? ==>
      var book := H.Book(head, lease.value);
      && kept == Some(H.Run(book, tries).lease) && now == H.Run(book, tries).head
      && (moved <==> H.AnyMoved(book, tries))
  }

  /** What pushing steps read and change. */
  datatype Standing = Standing(
    verified: Option<Sha>,
    seen: seq<Option<Sha>>,
    checkpoint: Option<A.Checkpoint>,
    now: int,
    troubles: nat,
    failures: nat,
    head: Option<Sha>,
    starts: seq<int>)

  /**
   The verified revision was seen at the origin, the publishing phase stands on a verified push and is
   not left, and at most one push of `local` was made, which got to a round unless it could not be
   begun or the time was up; under a lease that could be read no round of it starts past the deadline.
   Without outside writers, the origin and a recorded lease are what that
   push made of them, and a moved error was met exactly when it was told so.
   */
  ghost predicate Held(a: Standing, b: Standing, local: Sha, deadline: int, tries: seq<H.Pass>, moved: bool, outsideWriters: bool) {
    && b.now >= a.now && b.troubles >= a.troubles && b.failures >= a.failures && a.seen <= b.seen
    && (b.verified == a.verified || (b.verified == Some(local) && b.verified in b.seen))
    && (IsPublishing(a.checkpoint) ==> IsPublishing(b.checkpoint))
    && (IsPublishing(b.checkpoint) ==> IsPublishing(a.checkpoint) || b.verified == Some(local))
    && |tries| <= 1 && (tries != [] ==> tries[0].local == local)
    && (tries != [] && tries[0].rounds == [] ==> b.troubles > a.troubles || b.now >= deadline)
    && a.starts <= b.starts && (tries == [] ==> b.starts == a.starts)
    && (LeaseOf(a.checkpoint).Some? ==> LeaseOf(b.checkpoint).Some?)
    && (LeaseOf(a.checkpoint).Some? && b.failures == a.failures ==> P.BeforeDeadline(b.starts, |a.starts|, Some(deadline)))
    && (!outsideWriters ==> MadeOf(a.head, LeaseOf(a.checkpoint), tries, b.head, LeaseOf(b.checkpoint), moved))
  }

  lemma HeldOnwards(a: Standing, b: Standing, c: Standing, local: Sha, deadline: int, first: seq<H.Pass>, second: seq<H.Pass>,
                    lost: bool, moved: bool, outsideWriters: bool)
    requires Held(a, b, local, deadline, first, lost, outsideWriters) && Held(b, c, local, deadline, second, moved, outsideWriters)
    requires first == [] || second == []
    ensures Held(a, c, local, deadline, first + second, lost || moved, outsideWriters)
  {
    if !outsideWriters {
      MadeOnwards(a.head, LeaseOf(a.checkpoint), first, b.head, LeaseOf(b.checkpoint), second, c.head, LeaseOf(c.checkpoint), lost, moved);
    }
  }

  /** Nothing stood in the way of this push: it settled, its revision can be recorded, the store worked and there was time. */
  ghost predicate Reached(a: Standing, b: Standing, local: Sha, deadline: int, tries: seq<H.Pass>, outsideWriters: bool) {
    && !outsideWriters && LeaseOf(a.checkpoint).Some? && a.checkpoint.value.phase == A.Pushing
    && tries != [] && H.Tried(H.Book(a.head, LeaseOf(a.checkpoint).value), tries[0]).1 == Some(P.Pushed)
    && A.ValidLease(Some(local)) && b.failures == a.failures && b.now < deadline
  }

  predicate IsPublishing(c: Option<A.Checkpoint>) {
    c.Some? && c.value.phase == A.Publishing
  }

  /** An attempt's first saved intent stays, and no other attempt's intent is touched. */
  ghost predicate KeepsIntents(before: map<string, M.Record>, after: map<string, M.Record>, attempt: string) {
    after == before || (attempt !in before && attempt in after && after == before[attempt := after[attempt]])
  }

  /** The issue shows the intent, and nothing else while everything is in view. */
  ghost predicate Confirms(t: Comments, intent: M.Record) {
    Shows(t, intent) && (InView(t) ==> Carries(Bodies(t), intent))
  }

  lemma StillConfirms(before: Comments, after: Comments, intent: M.Record)
    requires Confirms(before, intent) && before <= after && Bodies(after) == Bodies(before)
    ensures Confirms(after, intent)
  {
    var i :| 0 <= i < |before| && before[i].Shared? && M.Parse(before[i].body) == Some(intent);
    assert after[i] == before[i];
    if InView(after) {
      GrownInView(before, after);
    }
  }

  /** What a returned result may claim about the remote state. */
  ghost predicate Honest(request: Request, result: Result, moved: bool, mode: Mode, pullsBefore: Pulls, pulls: Pulls,
                         thread: Comments, records: map<string, M.Record>)
  {
    && (result.pullRequest ==> request.decision.eligible && Created(pulls) > pullsBefore.closed)
    && (result.outcome == Complete && request.decision.eligible ==> result.pullRequest)
    && (result.outcome == Handoff && result.handoffPosted && request.count.Some? && request.noteSha.Some? ==>
          Intent(records, request.attempt).Some? && Confirms(thread, Intent(records, request.attempt).value))
    && (result.suppressed ==>
          && mode == Link && result.outcome == Handoff && result.handoffPosted && !request.notify
          && request.count.Some? && request.noteSha.Some?)
    && (result.commentPosted && !result.suppressed ==> ResultOf(request.attempt) in thread)
    && Reports(request.decision, result, moved)
  }

  /**
   The outcome reported. A moved branch is an infrastructure error. A branch that was to be pushed and
   is not linked leaves an incomplete attempt incomplete and fails any other. Past that, an eligible
   attempt is complete exactly with its pull request, and any other keeps its own outcome.
   */
  predicate Reports(d: Decision, result: Result, moved: bool) {
    var due := d.eligible || (d.path == PartialPath && (d.outcome == Some(Incomplete) || d.outcome == Some(Handoff)));
    && (moved ==> result.outcome == InfrastructureError)
    && (!moved && due && !result.branchLinked ==>
          result.outcome == if d.outcome == Some(Incomplete) && !d.eligible then Incomplete else InfrastructureError)
    && (!moved && (due ==> result.branchLinked) ==>
          if d.eligible then result.outcome == if result.pullRequest then Complete else InfrastructureError
          else result.outcome == if d.outcome.Some? then d.outcome.value else InfrastructureError)
  }

  /** One replay of an attempt's publication, from a clone standing at `local`. */
  datatype Pass = Pass(request: Request, local: Sha, timeout: int)

  /** The result reports a confirmed shared record. */
  predicate Confirming(pass: Pass, reply: Reply) {
    && reply.Returned? && reply.result.outcome == Handoff && reply.result.handoffPosted
    && pass.request.count.Some? && pass.request.noteSha.Some?
  }

  /** All passes publish the same local revision. */
  predicate OneRevision(passes: seq<Pass>) {
    passes != [] && forall i :: 0 <= i < |passes| ==> passes[i].local == passes[0].local
  }

  lemma KeepsIntentsTwice(first: map<string, M.Record>, second: map<string, M.Record>, third: map<string, M.Record>, attempt: string)
    requires KeepsIntents(first, second, attempt) && KeepsIntents(second, third, attempt)
    ensures KeepsIntents(first, third, attempt)
    ensures attempt in second ==> Intent(third, attempt) == Intent(second, attempt)
  {
  }

  class Publisher {
    const origin: P.Origin
    const github: GitHub
    const attempts: A.AttemptStateStore
    const intents: IntentStore
    const repository: string
    const issue: int
    const branch: string
    const maxRetries: int
    const mode: Mode
    const rank: string -> real

    /** The local revision of the newest push that returned normally. */
    ghost var verified: Option<Sha>

    /** What the last publication of a shared record answered. */
    ghost var answered: Option<bool>

    /** When the pull request was asked to be created, each time. */
    ghost var creates: seq<int>

    /** How many pushes could not be begun, for an unreadable clone or unusable arguments. */
    ghost var troubles: nat

    constructor (origin: P.Origin, github: GitHub, attempts: A.AttemptStateStore, intents: IntentStore,
                 repository: string, issue: int, branch: string, maxRetries: int, mode: Mode, rank: string -> real)
      ensures this.origin == origin && this.github == github && this.attempts == attempts && this.intents == intents
      ensures this.repository == repository && this.issue == issue && this.branch == branch
      ensures this.maxRetries == maxRetries && this.mode == mode && this.rank == rank
      ensures verified == None && answered == None && troubles == 0 && creates == []
    {
      this.origin, this.github, this.attempts, this.intents := origin, github, attempts, intents;
      this.repository, this.issue, this.branch := repository, issue, branch;
      this.maxRetries, this.mode, this.rank := maxRetries, mode, rank;
      verified, answered, troubles, creates := None, None, 0, [];
    }

    // ---- What the contracts say of a step ------------------------------------------------

    ghost function Stands(): Standing
      reads this, origin, attempts
    {
      Standing(verified, origin.seen, attempts.checkpoint, origin.now, troubles, attempts.failures, origin.head, origin.starts)
    }

    /** What every pushing step keeps. */
    twostate predicate Kept(local: Sha, deadline: int, tries: seq<H.Pass>, moved: bool)
      reads this, origin, attempts
    {
      Held(old(Stands()), Stands(), local, deadline, tries, moved, origin.outsideWriters)
    }

    /** What every reporting step keeps: first intents, the order of the comments, and the count of failures. */
    twostate predicate Reporting(attempt: string)
      reads this, github, intents
    {
      && KeepsIntents(old(intents.records), intents.records, attempt)
      && Stepped(rank, old(github.thread), github.thread, attempt, Intent(intents.records, attempt))
      && github.failures >= old(github.failures)
    }

    /** A shared record only ever changes to an intent that names the revision verified by this publication. */
    twostate predicate Sharing(request: Request, local: Sha)
      reads this, github, intents
    {
      && (Bodies(github.thread) != Bodies(old(github.thread)) ==> Recorded(request, local, intents.records))
      && (request.attempt !in old(intents.records) && request.attempt in intents.records ==>
            Recorded(request, local, intents.records) && Original(request, intents.records[request.attempt]))
    }

    /** The saved intent names what this request publishes: its note, the verified revision, the branch and the issue. */
    ghost predicate Recorded(request: Request, local: Sha, records: map<string, M.Record>) {
      Intent(records, request.attempt).Some? && Names(request, local, Intent(records, request.attempt).value)
    }

    predicate Names(request: Request, local: Sha, intent: M.Record) {
      && intent.attempt == request.attempt && Some(intent.noteSha) == request.noteSha && intent.branchSha == local
      && intent.branch == branch && intent.issue == issue && intent.repository == repository
    }

    /** An intent this request saved first also has its source and its count, in the first version. */
    predicate Original(request: Request, intent: M.Record) {
      intent.source == request.source && Some(intent.count) == request.count && intent.version == 1
    }

    // ---- Pushing -------------------------------------------------------------------

    /** The recorded lease; an unreadable or older checkpoint falls back to the observed revision. */
    method ClaimLease() returns (lease: Option<Sha>, known: bool)
      modifies attempts`failures
      ensures known <==> LeaseOf(attempts.checkpoint).Some? && attempts.failures == old(attempts.failures)
      ensures known ==> LeaseOf(attempts.checkpoint) == Some(lease)
      ensures attempts.failures >= old(attempts.failures)
    {
      var readable, found := attempts.Read();
      if !readable || found.None? || found.value.lease.None? {
        return None, false;
      }
      return found.value.lease.value, true;
    }

    /** Whether the clone can be read. */
    method ReadClone() returns (usable: bool)
      modifies this`troubles
      ensures troubles == old(troubles) + if usable then 0 else 1
    {
      usable := *;
      troubles := troubles + if usable then 0 else 1;
    }

    /** The push under this lease, with what the network made of it; None when it could not be begun. */
    method TryPush(local: Sha, deadline: int, lease: Option<Sha>, known: bool)
      returns (outcome: Option<P.Outcome>, ghost rounds: seq<P.Luck>)
      modifies origin, this`troubles
      ensures origin.now >= old(origin.now) && troubles >= old(troubles) && old(origin.seen) <= origin.seen
      ensures rounds == [] ==> troubles > old(troubles) || origin.now >= deadline
      ensures old(origin.starts) <= origin.starts
      ensures known ==> P.BeforeDeadline(origin.starts, |old(origin.starts)|, Some(deadline))
      ensures outcome == Some(P.Pushed) ==> Some(local) in origin.seen
      ensures outcome.Some? && outcome.value.Moved? ==>
                && origin.seen != [] && known && origin.seen[|origin.seen| - 1] !in {Some(local), lease}
      ensures !origin.outsideWriters ==>
                (origin.head, P.SettledBy(outcome)) == P.Attempted(old(origin.head), if known then lease else None, known, local, rounds)
    {
      var usable := ReadClone();
      if !usable {
        return None, [];
      }
      var result;
      ghost var paces;
      result, rounds, paces := P.PushAttemptBranch(origin, local, lease, known, maxRetries, Some(deadline));
      troubles := troubles + if result.Invalid? then 1 else 0;
      return Some(result), rounds;
    }

    /** The push under the recorded lease, if one can be read. */
    method PushUnderLease(local: Sha, deadline: int) returns (outcome: Option<P.Outcome>, ghost pass: H.Pass)
      modifies origin, attempts`failures, this`troubles
      ensures origin.now >= old(origin.now) && troubles >= old(troubles) && old(origin.seen) <= origin.seen
      ensures attempts.failures >= old(attempts.failures) && pass.local == local && !pass.advanced
      ensures pass.rounds == [] ==> troubles > old(troubles) || origin.now >= deadline
      ensures old(origin.starts) <= origin.starts
      ensures LeaseOf(attempts.checkpoint).Some? && attempts.failures == old(attempts.failures) ==>
                P.BeforeDeadline(origin.starts, |old(origin.starts)|, Some(deadline))
      ensures outcome == Some(P.Pushed) ==> Some(local) in origin.seen
      ensures outcome.Some? && outcome.value.Moved? ==>
                && origin.seen != [] && origin.seen[|origin.seen| - 1] != Some(local)
                && LeaseOf(attempts.checkpoint) !in {None, Some(origin.seen[|origin.seen| - 1])}
      ensures !origin.outsideWriters && LeaseOf(attempts.checkpoint).Some? ==>
                H.Tried(H.Book(old(origin.head), LeaseOf(attempts.checkpoint).value), pass) == (origin.head, P.SettledBy(outcome))
    {
      var lease, known := ClaimLease();
      ghost var rounds;
      outcome, rounds := TryPush(local, deadline, lease, known);
      pass := H.Pass(local, known, rounds, false);
    }

    /**
     A normal return means the origin was seen at `local` and the lease now is `local`. Without outside
     writers, the origin, the lease and a moved error are what the push's luck makes of them.
     */
    method PushBranch(local: Sha, deadline: int) returns (fault: Option<Fault>, ghost pass: H.Pass)
      modifies origin, attempts, this`verified, this`troubles
      ensures fault in {None, Some(BranchMoved), Some(LeaseFailed), Some(PushFailed)}
      ensures Kept(local, deadline, [pass], fault == Some(BranchMoved))
      ensures fault.None? ==> verified == Some(local) && LeaseOf(attempts.checkpoint) == Some(Some(local))
      ensures fault.Some? ==> verified == old(verified) && attempts.checkpoint == old(attempts.checkpoint)
      ensures attempts.failures >= old(attempts.failures)
      ensures fault == Some(LeaseFailed) ==>
                attempts.failures > old(attempts.failures) || !A.Accepts(A.AdvanceLease(Some(local)), old(attempts.checkpoint))
      ensures IsPublishing(attempts.checkpoint) == IsPublishing(old(attempts.checkpoint))
      ensures !origin.outsideWriters && LeaseOf(old(attempts.checkpoint)).Some? && attempts.failures == old(attempts.failures) ==>
                var book := H.Book(old(origin.head), LeaseOf(old(attempts.checkpoint)).value);
                (fault.None? <==> H.Tried(book, pass).1 == Some(P.Pushed) && A.ValidLease(Some(local)))
      ensures fault.None? ==> attempts.checkpoint.Some? && old(attempts.checkpoint).Some?
                              && attempts.checkpoint.value.phase == old(attempts.checkpoint).value.phase
      ensures fault == Some(BranchMoved) ==>
                && origin.seen != [] && origin.seen[|origin.seen| - 1] != Some(local)
                && LeaseOf(old(attempts.checkpoint)) !in {None, Some(origin.seen[|origin.seen| - 1])}
    {
      ghost var head, held := origin.head, LeaseOf(attempts.checkpoint);
      var outcome;
      outcome, pass := PushUnderLease(local, deadline);
      if !origin.outsideWriters && held.Some? {
        PushMade(head, held, pass, origin.head, P.SettledBy(outcome));
        PushMade(head, held, pass.(advanced := true), origin.head, P.SettledBy(outcome));
      }
      if outcome.Some? && outcome.value.Moved? {
        return Some(BranchMoved), pass;
      }
      if outcome != Some(P.Pushed) {
        return Some(PushFailed), pass;
      }
      var advanced, _ := attempts.AdvanceClaimLease(Some(local), origin.now);
      pass := pass.(advanced := advanced);
      if !advanced {
        return Some(LeaseFailed), pass;
      }
      verified := Some(local);
      return None, pass;
    }

    /** Records the verified push before any pull request may be written. */
    method MarkPublishing() returns (fault: Option<Fault>)
      modifies attempts
      ensures fault in {None, Some(PushFailed), Some(StateFailed)}
      ensures fault.None? ==> IsPublishing(attempts.checkpoint)
      ensures fault.Some? ==> attempts.checkpoint == old(attempts.checkpoint)
      ensures fault == Some(StateFailed) <==> attempts.failures != old(attempts.failures)
      ensures fault == Some(PushFailed) ==>
                old(attempts.checkpoint).None? || old(attempts.checkpoint).value.phase !in {A.Pushing, A.Publishing}
      ensures attempts.failures >= old(attempts.failures)
      ensures LeaseOf(attempts.checkpoint) == LeaseOf(old(attempts.checkpoint))
    {
      var readable, found := attempts.Read();
      if !readable {
        return Some(StateFailed);
      }
      if found.None? {
        return Some(PushFailed);
      }
      if found.value.phase == A.Publishing {
        return None;
      }
      if found.value.phase != A.Pushing {
        return Some(PushFailed);
      }
      var moved, _ := attempts.Transition(A.Publishing, origin.now);
      return if moved then None else Some(StateFailed);
    }

    /** Checks the deadline, pushes, checks again, and marks the attempt as publishing. */
    method PushAndMark(local: Sha, deadline: int) returns (fault: Option<Fault>, ghost tries: seq<H.Pass>)
      modifies origin, attempts, this`verified, this`troubles
      ensures Kept(local, deadline, tries, fault == Some(BranchMoved))
      ensures tries != [] <==> old(origin.now) < deadline
      ensures Reached(old(Stands()), Stands(), local, deadline, tries, origin.outsideWriters) ==> fault.None?
      ensures fault.None? ==> verified == Some(local) && IsPublishing(attempts.checkpoint) && tries != [] && origin.now < deadline
      ensures fault.Some? ==> IsPublishing(attempts.checkpoint) == IsPublishing(old(attempts.checkpoint))
      ensures fault.None? ==> LeaseOf(attempts.checkpoint) == Some(Some(local))
      ensures fault == Some(StateFailed) ==> attempts.failures > old(attempts.failures)
      ensures fault == Some(BranchMoved) ==> origin.seen != [] && origin.seen[|origin.seen| - 1] != Some(local)
    {
      tries := [];
      if origin.now >= deadline {
        return Some(PushFailed), tries;
      }
      ghost var pass;
      fault, pass := PushBranch(local, deadline);
      tries := [pass];
      if fault.Some? {
        return;
      }
      if origin.now >= deadline {
        return Some(PushFailed), tries;
      }
      fault := MarkPublishing();
    }

    // ---- Pull request and result comment ----------------------------------------------

    /** One create, and after a failed one another look. */
    method CreateOnce() returns (readable: bool, found: bool, ghost round: Round)
      modifies github`pulls, github`failures, this`creates
      ensures creates == old(creates) + [origin.now]
      ensures Rounded(old(github.pulls), round) == (github.pulls, if !readable then Broken else if found then Settled else Going)
      ensures !(readable && found) ==> github.failures > old(github.failures)
      ensures github.failures >= old(github.failures)
    {
      creates := creates + [origin.now];
      var created, closes, landed, replied := github.CreatePullRequest();
      if created {
        return true, true, Round(closes, landed, replied, Look(0, true));
      }
      ghost var again;
      readable, found, again := github.FindPullRequest();
      round := Round(closes, landed, replied, again);
    }

    /** Creates the pull request that a lookup did not find; after a failed create it looks again. */
    method CreateRounds(deadline: int, ghost before: Pulls, ghost look: Look) returns (ok: bool, ghost rounds: seq<Round>)
      requires Ensured(before, look, []) == (github.pulls, Going)
      modifies github`pulls, github`failures, origin`head, origin`now, origin`waits, this`creates
      ensures |rounds| <= if maxRetries > 0 then maxRetries else 0
      ensures old(creates) <= creates && |creates| == |old(creates)| + |rounds|
      ensures P.BeforeDeadline(creates, |old(creates)|, Some(deadline))
      ensures Ensured(before, look, rounds).0 == github.pulls
      ensures ok <==> Ensured(before, look, rounds).1 == Settled
      ensures !ok ==> github.failures > old(github.failures) || origin.now >= deadline || maxRetries <= 0
      ensures github.failures >= old(github.failures)
      ensures !origin.outsideWriters ==> origin.head == old(origin.head)
      ensures origin.now >= old(origin.now)
      ensures P.Paced(old(origin.waits), origin.waits, |rounds|, !ok)
    {
      rounds := [];
      for attempt := 0 to if maxRetries > 0 then maxRetries else 0
        invariant |rounds| == attempt && Ensured(before, look, rounds) == (github.pulls, Going)
        invariant old(creates) <= creates && |creates| == |old(creates)| + attempt
        invariant P.BeforeDeadline(creates, |old(creates)|, Some(deadline))
        invariant github.failures >= old(github.failures) && (attempt > 0 ==> github.failures > old(github.failures))
        invariant origin.now >= old(origin.now) && (!origin.outsideWriters ==> origin.head == old(origin.head))
        invariant P.Waited(old(origin.waits), origin.waits, if 0 < attempt == maxRetries then attempt - 1 else attempt)
      {
        if origin.now >= deadline {
          return false, rounds;
        }
        ghost var round;
        var readable, found;
        readable, found, round := CreateOnce();
        EnsuredOneMore(before, look, rounds, round);
        rounds := rounds + [round];
        if !readable || found {
          return readable, rounds;
        }
        ghost var waits := origin.waits;
        if attempt + 1 < maxRetries {
          origin.Sleep(P.Backoff(attempt));
        }
        P.WaitedOneMore(old(origin.waits), waits, origin.waits, attempt, attempt + 1 < maxRetries);
      }
      return false, rounds;
    }

    /** Finds the open pull request, or creates it. */
    method EnsurePullRequest(deadline: int) returns (ok: bool, ghost look: Look, ghost rounds: seq<Round>)
      modifies github`pulls, github`failures, origin`head, origin`now, origin`waits, this`creates
      ensures |rounds| <= if maxRetries > 0 then maxRetries else 0
      ensures old(creates) <= creates && |creates| == |old(creates)| + |rounds|
      ensures P.BeforeDeadline(creates, |old(creates)|, Some(deadline))
      ensures Ensured(old(github.pulls), look, rounds).0 == github.pulls
      ensures ok <==> Ensured(old(github.pulls), look, rounds).1 == Settled
      ensures !ok ==> github.failures > old(github.failures) || origin.now >= deadline || maxRetries <= 0
      ensures github.failures >= old(github.failures)
      ensures !origin.outsideWriters ==> origin.head == old(origin.head)
      ensures origin.now >= old(origin.now)
      ensures if rounds == [] then origin.waits == old(origin.waits) else P.Paced(old(origin.waits), origin.waits, |rounds|, !ok)
    {
      rounds := [];
      ghost var before := github.pulls;
      var readable, found;
      readable, found, look := github.FindPullRequest();
      if !readable || found {
        return readable, look, rounds;
      }
      ok, rounds := CreateRounds(deadline, before, look);
    }

    method AddResult(attempt: string) returns (ok: bool)
      requires !Visible(github.thread, OfResult(attempt))
      modifies github`thread, github`failures, github`results
      ensures Stepped(rank, old(github.thread), github.thread, attempt, Intent(intents.records, attempt))
      ensures old(github.thread) <= github.thread && Bodies(github.thread) == Bodies(old(github.thread))
      ensures ok ==> github.thread != [] && github.thread[|github.thread| - 1] == ResultOf(attempt)
      ensures github.failures == old(github.failures) + if ok then 0 else 1
    {
      ghost var before := github.thread;
      ghost var more, landed;
      ok, more, landed := github.AddResultComment(attempt);
      if landed {
        ResultSteps(rank, before, more, attempt, Intent(intents.records, attempt));
      } else {
        ChatterSteps(rank, before, more, attempt, Intent(intents.records, attempt));
      }
    }

    /**
     Posts the attempt's result comment unless its marker is found among the last hundred comments.
     `looked` is the thread at that lookup: a call that does not fail adds one exactly when none was visible there.
     */
    method PostResult(attempt: string) returns (posted: bool, ghost looked: Comments)
      modifies github`thread, github`failures, github`results
      ensures Stepped(rank, old(github.thread), github.thread, attempt, Intent(intents.records, attempt))
      ensures old(github.thread) <= looked <= github.thread && Bodies(github.thread) == Bodies(old(github.thread))
      ensures Chatter(looked[|old(github.thread)|..])
      ensures Visible(looked, OfResult(attempt)) ==> github.thread == looked
      ensures posted && !Visible(looked, OfResult(attempt)) ==>
                github.thread != [] && github.thread[|github.thread| - 1] == ResultOf(attempt)
      ensures posted ==> ResultOf(attempt) in github.thread
      ensures posted <==> github.failures == old(github.failures)
      ensures github.failures >= old(github.failures)
    {
      ghost var before := github.thread;
      var readable, found, more := github.FindAttemptComment(attempt);
      looked := github.thread;
      ChatterSteps(rank, before, more, attempt, Intent(intents.records, attempt));
      if !readable || found {
        if found {
          VisibleIsThere(looked, OfResult(attempt));
        }
        return readable, looked;
      }
      posted := AddResult(attempt);
      SteppedTwice(rank, before, looked, github.thread, attempt, Intent(intents.records, attempt), Intent(intents.records, attempt));
    }

    // ---- The shared handoff record ------------------------------------------------------

    /** Whether a fresh read shows exactly the intended record. */
    method ConfirmSharedComment(intent: M.Record) returns (confirmed: bool)
      modifies github`thread, github`failures
      ensures Stepped(rank, old(github.thread), github.thread, intent.attempt, Some(intent))
      ensures Bodies(github.thread) == Bodies(old(github.thread))
      ensures confirmed ==> Confirms(github.thread, intent)
      ensures InView(github.thread) && github.failures == old(github.failures) ==>
                (confirmed <==> Carries(Bodies(github.thread), intent))
      ensures github.failures >= old(github.failures)
    {
      ghost var before := github.thread;
      var readable, at, more := github.FindHandoffRecord();
      ChatterSteps(rank, before, more, intent.attempt, Some(intent));
      if InView(github.thread) {
        BodiesInView(github.thread);
      }
      if !readable || at.None? {
        return false;
      }
      var shown := M.ParseHandoffRecord(github.thread[at.value].body);
      confirmed := shown == Some(intent);
    }

    /** Adds the shared comment where none is visible, if there is time and the intent can be printed. */
    method WriteNew(intent: M.Record, deadline: int)
      requires Bodies(Window(github.thread)) == [] && !Visible(github.thread, OfShared)
      modifies github`thread, github`failures
      ensures origin.now >= deadline ==> Bodies(github.thread) == Bodies(old(github.thread))
      ensures Stepped(rank, old(github.thread), github.thread, intent.attempt, Some(intent))
      ensures InView(github.thread) && M.Valid(intent) && origin.now < deadline && github.failures == old(github.failures) ==>
                Bodies(github.thread) == [M.Build(intent).value]
      ensures github.failures >= old(github.failures)
    {
      ghost var before := github.thread;
      var body := M.Build(intent);
      if origin.now < deadline && body.Some? {
        var _, more, landed := github.AddComment(Shared(body.value));
        if landed {
          CreateSteps(rank, before, more, intent.attempt, intent);
        } else {
          ChatterSteps(rank, before, more, intent.attempt, Some(intent));
        }
        if InView(github.thread) {
          GrownInView(before, github.thread);
          BodiesInView(before);
        }
      } else {
        ChatterSteps(rank, before, [], intent.attempt, Some(intent));
        assert before + [] == before;
      }
    }

    /** Rewrites the visible shared comment, which gives way, under the same conditions. */
    method WriteOver(at: nat, intent: M.Record, deadline: int)
      requires at < |github.thread| && github.thread[at].Shared?
      requires Bodies(Window(github.thread)) == [github.thread[at].body] && GivesWay(rank, github.thread[at].body, intent)
      modifies github`thread, github`failures
      ensures origin.now >= deadline ==> Bodies(github.thread) == Bodies(old(github.thread))
      ensures Stepped(rank, old(github.thread), github.thread, intent.attempt, Some(intent))
      ensures InView(github.thread) && M.Valid(intent) && origin.now < deadline && github.failures == old(github.failures) ==>
                Bodies(github.thread) == [M.Build(intent).value]
      ensures github.failures >= old(github.failures)
    {
      ghost var before := github.thread;
      var body := M.Build(intent);
      if origin.now < deadline && body.Some? {
        var _, more, landed := github.UpdateHandoffRecord(at, body.value);
        if landed {
          UpdateSteps(rank, before, at, more, intent.attempt, intent);
        } else {
          ChatterSteps(rank, before, more, intent.attempt, Some(intent));
        }
      } else {
        ChatterSteps(rank, before, [], intent.attempt, Some(intent));
        assert before + [] == before;
      }
    }

    /** Creates the shared comment; only a read of it confirms. */
    method CreateSharedComment(intent: M.Record, deadline: int) returns (confirmed: bool)
      requires Bodies(Window(github.thread)) == [] && !Visible(github.thread, OfShared)
      modifies github`thread, github`failures
      ensures origin.now >= deadline ==> Bodies(github.thread) == Bodies(old(github.thread))
      ensures Stepped(rank, old(github.thread), github.thread, intent.attempt, Some(intent))
      ensures confirmed ==> Confirms(github.thread, intent)
      ensures Unhindered(intent, deadline, old(github.failures)) ==> confirmed
      ensures github.failures >= old(github.failures)
    {
      ghost var before := github.thread;
      WriteNew(intent, deadline);
      ghost var written := github.thread;
      confirmed := ConfirmSharedComment(intent);
      SteppedTwice(rank, before, written, github.thread, intent.attempt, Some(intent), Some(intent));
      WrittenReadsBack(written, intent);
    }

    /** Rewrites the shared comment; only a read of it confirms. */
    method UpdateSharedComment(at: nat, intent: M.Record, deadline: int) returns (confirmed: bool)
      requires at < |github.thread| && github.thread[at].Shared?
      requires Bodies(Window(github.thread)) == [github.thread[at].body] && GivesWay(rank, github.thread[at].body, intent)
      modifies github`thread, github`failures
      ensures origin.now >= deadline ==> Bodies(github.thread) == Bodies(old(github.thread))
      ensures Stepped(rank, old(github.thread), github.thread, intent.attempt, Some(intent))
      ensures confirmed ==> Confirms(github.thread, intent)
      ensures Unhindered(intent, deadline, old(github.failures)) ==> confirmed
      ensures github.failures >= old(github.failures)
    {
      ghost var before := github.thread;
      WriteOver(at, intent, deadline);
      ghost var written := github.thread;
      confirmed := ConfirmSharedComment(intent);
      SteppedTwice(rank, before, written, github.thread, intent.attempt, Some(intent), Some(intent));
      WrittenReadsBack(written, intent);
    }

    /** Nothing failed, there was time, everything is in view, and the intent can be printed and read back. */
    ghost predicate Unhindered(intent: M.Record, deadline: int, failures: nat)
      reads github, origin
    {
      M.Valid(intent) && M.Clean(intent) && origin.now < deadline && InView(github.thread) && github.failures == failures
    }

    lemma WrittenReadsBack(written: Comments, intent: M.Record)
      requires Grown(written, github.thread)
      ensures InView(github.thread) ==> InView(written)
      ensures M.Valid(intent) && M.Clean(intent) && Bodies(written) == [M.Build(intent).value] ==> Carries(Bodies(written), intent)
    {
      if InView(github.thread) {
        GrownInView(written, github.thread);
      }
      if M.Valid(intent) {
        M.RoundTripExactly(intent);
      }
    }

    /** Publishes one intent: create, update, or stand back for a newer or unreadable record. */
    method PublishIntent(intent: M.Record, deadline: int) returns (confirmed: bool)
      modifies github`thread, github`failures
      ensures github.failures >= old(github.failures)
      ensures origin.now >= deadline ==> Bodies(github.thread) == Bodies(old(github.thread))
      ensures Stepped(rank, old(github.thread), github.thread, intent.attempt, Some(intent))
      ensures confirmed ==> Confirms(github.thread, intent)
      ensures Unhindered(intent, deadline, old(github.failures)) ==>
                (confirmed <==> Yields(rank, Bodies(old(github.thread)), intent))
      ensures InView(github.thread) && Carries(Bodies(old(github.thread)), intent) ==> Bodies(github.thread) == Bodies(old(github.thread))
    {
      ghost var before := github.thread;
      var readable, at, more := github.FindHandoffRecord();
      ghost var looked := github.thread;
      ChatterSteps(rank, before, more, intent.attempt, Some(intent));
      if InView(looked) {
        BodiesInView(looked);
      }
      if !readable {
        return false;
      }
      if at.None? {
        confirmed := CreateSharedComment(intent, deadline);
        SteppedInView(rank, before, looked, github.thread, intent);
        return;
      }
      var shown := M.ParseHandoffRecord(github.thread[at.value].body);
      if shown.None? {
        return false;
      }
      if shown.value.attempt == intent.attempt && shown.value == intent {
        return true;
      }
      if shown.value.attempt != intent.attempt && rank(shown.value.attempt) > rank(intent.attempt) {
        return false;
      }
      confirmed := UpdateSharedComment(at.value, intent, deadline);
      SteppedInView(rank, before, looked, github.thread, intent);
    }

    predicate Acceptable(request: Request) {
      && Requested(request)
      && request.count.value >= 0
      && request.source in M.SOURCES
      && M.IsToken(request.noteSha.value)
    }

    /** The record this request asks for, naming the verified revision. */
    function Wanted(request: Request, revision: Sha): M.Record
      requires Requested(request)
    {
      M.Record(M.VERSION, repository, issue, request.attempt, request.source, request.count.value,
               branch, revision, request.noteSha.value)
    }

    /**
     Nothing stood in the way of the shared record: the record asked for is valid, the store and GitHub
     worked, there was time, and the intent now stored is clean and all is in view.
     */
    twostate predicate Receptive(request: Request, revision: Sha, deadline: int)
      reads this, origin, github, intents
    {
      && request.count.Some? && request.noteSha.Some?
      && M.Valid(M.Record(1, repository, issue, request.attempt, request.source, request.count.value, branch, revision,
                          request.noteSha.value))
      && intents.failures == old(intents.failures) && Intent(intents.records, request.attempt).Some?
      && Unhindered(Intent(intents.records, request.attempt).value, deadline, old(github.failures))
    }

    /** Then the record is posted exactly when the stored intent names what is published and what is shown gives way to it. */
    twostate predicate PostedExactly(request: Request, revision: Sha, posted: bool)
      requires Intent(intents.records, request.attempt).Some?
      reads this, github, intents
    {
      var intent := Intent(intents.records, request.attempt).value;
      posted <==> Names(request, revision, intent) && Yields(rank, Bodies(old(github.thread)), intent)
    }

    /** Saves the intent first, and publishes it only if it still names what was verified. */
    method PublishVerified(request: Request, revision: Sha, deadline: int) returns (posted: bool)
      requires Requested(request)
      modifies intents, github`thread, github`failures
      ensures origin.now >= deadline ==> Bodies(github.thread) == Bodies(old(github.thread))
      ensures Reporting(request.attempt) && Sharing(request, revision)
      ensures Receptive(request, revision, deadline) ==> PostedExactly(request, revision, posted)
      ensures posted ==> Recorded(request, revision, intents.records)
      ensures posted ==> Confirms(github.thread, Intent(intents.records, request.attempt).value)
    {
      var wanted := Wanted(request, revision);
      var saved := intents.SaveIfAbsent(wanted);
      ChatterSteps(rank, github.thread, [], request.attempt, Intent(intents.records, request.attempt));
      assert github.thread + [] == github.thread;
      if saved.None? {
        return false;
      }
      var intent := saved.value;
      if intent.branchSha != revision || intent.noteSha != wanted.noteSha || intent.branch != wanted.branch
         || intent.issue != wanted.issue || intent.repository != wanted.repository
      {
        return false;
      }
      posted := PublishIntent(intent, deadline);
    }

    /** Pushes first unless that is done, and then publishes what was verified. */
    method PublishAccepted(request: Request, pushed: Option<Sha>, local: Sha, deadline: int)
      returns (moved: bool, posted: bool, ghost tries: seq<H.Pass>)
      requires pushed in {None, Some(local)} && Requested(request)
      modifies origin, attempts, this`verified, this`troubles, intents, github`thread, github`failures
      ensures pushed.Some? ==> tries == []
      ensures Kept(local, deadline, tries, moved) && Reporting(request.attempt) && Sharing(request, local)
      ensures Bodies(github.thread) != Bodies(old(github.thread)) ==> (pushed.Some? || verified == Some(local)) && origin.now < deadline
      ensures pushed.Some? || Reached(old(Stands()), Stands(), local, deadline, tries, origin.outsideWriters) ==>
                Receptive(request, local, deadline) ==> PostedExactly(request, local, posted)
      ensures posted ==>
                Recorded(request, local, intents.records) && Confirms(github.thread, Intent(intents.records, request.attempt).value)
      ensures moved ==> !posted
    {
      moved, tries := false, [];
      ChatterSteps(rank, github.thread, [], request.attempt, Intent(intents.records, request.attempt));
      assert github.thread + [] == github.thread;
      if pushed.None? {
        var fault;
        fault, tries := PushAndMark(local, deadline);
        if fault.Some? {
          return fault.value == BranchMoved, false, tries;
        }
      }
      posted := PublishVerified(request, local, deadline);
    }

    /** The shared record of one handoff; a moved branch is passed on, everything else unconfirmed is false. */
    method PublishHandoffRecord(request: Request, pushed: Option<Sha>, local: Sha, deadline: int)
      returns (moved: bool, posted: bool, ghost tries: seq<H.Pass>)
      requires pushed in {None, Some(local)}
      modifies origin, attempts, this`verified, this`troubles, this`answered, intents, github`thread, github`failures
      ensures pushed.Some? ==> tries == []
      ensures Kept(local, deadline, tries, moved) && Reporting(request.attempt) && Sharing(request, local)
      ensures Bodies(github.thread) != Bodies(old(github.thread)) ==> (pushed.Some? || verified == Some(local)) && origin.now < deadline
      ensures pushed.Some? || Reached(old(Stands()), Stands(), local, deadline, tries, origin.outsideWriters) ==>
                Receptive(request, local, deadline) ==> PostedExactly(request, local, posted)
      ensures tries != [] ==> request.count.Some? && request.noteSha.Some?
      ensures request.count.None? || request.noteSha.None? ==> posted && !moved
      ensures posted && request.count.Some? && request.noteSha.Some? ==>
                Recorded(request, local, intents.records) && Confirms(github.thread, Intent(intents.records, request.attempt).value)
      ensures moved ==> !posted
      ensures request.count.Some? && request.noteSha.Some?
              && (request.count.value < 0 || request.source !in {"human", "automatic", "conflict"} || !M.IsToken(request.noteSha.value)) ==>
                !posted && !moved && tries == [] && unchanged(github) && unchanged(intents)
      ensures answered == Some(posted)
    {
      moved, tries := false, [];
      ChatterSteps(rank, github.thread, [], request.attempt, Intent(intents.records, request.attempt));
      assert github.thread + [] == github.thread;
      if !Requested(request) {
        answered := Some(true);
        return false, true, [];
      }
      answered := Some(false);
      if !Acceptable(request) {
        return false, false, [];
      }
      moved, posted, tries := PublishAccepted(request, pushed, local, deadline);
      answered := Some(posted);
    }

    // ---- Publishing -----------------------------------------------------------------------

    /** Pushes unless a replay finds the push already recorded as verified. */
    method PushFirst(request: Request, local: Sha, deadline: int)
      returns (fault: Option<Fault>, linked: bool, pushed: Option<Sha>, ghost tries: seq<H.Pass>)
      modifies origin, attempts, this`verified, this`troubles
      ensures Kept(local, deadline, tries, fault == Some(BranchMoved))
      ensures fault.None? && pushed.None? ==> tries == []
      ensures pushed in {None, Some(local)} && (pushed.Some? ==> fault.None? && verified == Some(local))
      ensures linked <==> fault.None? && NeedsPush(request.decision)
      ensures linked ==> IsPublishing(attempts.checkpoint)
      ensures linked && !IsPublishing(old(attempts.checkpoint)) ==> pushed.Some? && tries != []
      ensures linked ==> IsPublishing(old(attempts.checkpoint)) || verified == Some(local)
      ensures fault.Some? && fault != Some(StateFailed) ==> !IsPublishing(attempts.checkpoint)
      ensures NeedsPush(request.decision) && !IsPublishing(old(attempts.checkpoint)) && fault != Some(StateFailed) ==>
                (tries != [] <==> old(origin.now) < deadline)
      ensures NeedsPush(request.decision) && Reached(old(Stands()), Stands(), local, deadline, tries, origin.outsideWriters) ==> linked
      ensures fault == Some(StateFailed) ==> attempts.failures > old(attempts.failures)
      ensures !NeedsPush(request.decision) ==> fault.None? && tries == [] && origin.starts == old(origin.starts)
    {
      fault, linked, pushed, tries := None, false, None, [];
      if !NeedsPush(request.decision) {
        return;
      }
      var readable, found := attempts.Read();
      if !readable {
        return Some(StateFailed), false, None, [];
      }
      if found.None? || found.value.phase != A.Publishing {
        fault, tries := PushAndMark(local, deadline);
        if fault.Some? {
          return;
        }
        pushed := Some(local);
      }
      linked := true;
    }

    /** Posting a result changes neither the intents nor the shared comments. */
    method ReportResult(attempt: string) returns (posted: bool)
      modifies github`thread, github`failures, github`results
      ensures Reporting(attempt)
      ensures old(github.thread) <= github.thread && Bodies(github.thread) == Bodies(old(github.thread))
      ensures posted ==> ResultOf(attempt) in github.thread
      ensures posted <==> github.failures == old(github.failures)
    {
      ghost var looked;
      posted, looked := PostResult(attempt);
    }

    /** Ends a handoff whose branch moved: an infrastructure error with its own result comment. */
    method MovedHandoff(request: Request, linked: bool, pulled: bool) returns (result: Result)
      modifies github`thread, github`failures, github`results
      ensures Reporting(request.attempt)
      ensures old(github.thread) <= github.thread && Bodies(github.thread) == Bodies(old(github.thread))
      ensures result == Result(InfrastructureError, linked, pulled, result.commentPosted, true, false)
      ensures result.commentPosted ==> ResultOf(request.attempt) in github.thread
      ensures result.commentPosted <==> github.failures == old(github.failures)
    {
      var posted := ReportResult(request.attempt);
      return Result(InfrastructureError, linked, pulled, posted, true, false);
    }

    /** After the shared record: a comment if the branch moved, if someone must look, or if nothing was recorded. */
    method SettleLink(request: Request, linked: bool, pulled: bool, lost: bool, posted: bool) returns (result: Result)
      requires lost ==> !posted
      requires posted && Requested(request) ==>
                 Intent(intents.records, request.attempt).Some? && Confirms(github.thread, Intent(intents.records, request.attempt).value)
      modifies github`thread, github`failures, github`results
      ensures Reporting(request.attempt) && Bodies(github.thread) == Bodies(old(github.thread))
      ensures posted && Requested(request) ==> Confirms(github.thread, Intent(intents.records, request.attempt).value)
      ensures result == Result(if lost then InfrastructureError else Handoff, linked, pulled, result.commentPosted, lost || posted,
                               posted && Requested(request) && !request.notify)
      ensures result.suppressed ==> result.commentPosted && github.results == old(github.results)
      ensures result.commentPosted && !result.suppressed ==> ResultOf(request.attempt) in github.thread
      ensures github.failures == old(github.failures) ==> result.commentPosted
    {
      ghost var recorded := github.thread;
      if lost {
        result := MovedHandoff(request, linked, pulled);
        return;
      }
      if request.notify || !Requested(request) || !posted {
        var commented := ReportResult(request.attempt);
        if posted && Requested(request) {
          StillConfirms(recorded, github.thread, Intent(intents.records, request.attempt).value);
        }
        return Result(Handoff, linked, pulled, commented, posted, false);
      }
      ChatterSteps(rank, github.thread, [], request.attempt, Intent(intents.records, request.attempt));
      assert github.thread + [] == github.thread;
      return Result(Handoff, linked, pulled, true, posted, true);
    }

    /** Link mode: the shared record first, and a comment only when someone must look. */
    method PublishHandoffLink(request: Request, linked: bool, pulled: bool, pushed: Option<Sha>, local: Sha, deadline: int)
      returns (result: Result, ghost moved: bool, ghost tries: seq<H.Pass>)
      requires pushed in {None, Some(local)}
      modifies origin, attempts, this`verified, this`troubles, this`answered, intents, github`thread, github`failures, github`results
      ensures !moved ==> answered == Some(result.handoffPosted)
      ensures tries != [] ==> request.count.Some? && request.noteSha.Some?
      ensures pushed.Some? ==> tries == []
      ensures Kept(local, deadline, tries, moved) && Reporting(request.attempt) && Sharing(request, local)
      ensures Bodies(github.thread) != Bodies(old(github.thread)) ==> (pushed.Some? || verified == Some(local)) && origin.now < deadline
      ensures moved <==> result.outcome == InfrastructureError
      ensures !moved <==> result.outcome == Handoff
      ensures !moved && result.handoffPosted && request.count.Some? && request.noteSha.Some? ==>
                Recorded(request, local, intents.records) && Confirms(github.thread, Intent(intents.records, request.attempt).value)
      ensures result.suppressed <==>
                !moved && result.handoffPosted && request.count.Some? && request.noteSha.Some? && !request.notify
      ensures result.suppressed ==> result.commentPosted && github.results == old(github.results)
      ensures result.commentPosted && !result.suppressed ==> ResultOf(request.attempt) in github.thread
      ensures github.failures == old(github.failures) ==> result.commentPosted
      ensures result.branchLinked == linked && result.pullRequest == pulled
    {
      ghost var before := github.thread;
      var lost, posted;
      lost, posted, tries := PublishHandoffRecord(request, pushed, local, deadline);
      moved := lost;
      ghost var recorded := github.thread;
      ghost var intent := Intent(intents.records, request.attempt);
      result := SettleLink(request, linked, pulled, lost, posted);
      SteppedTwice(rank, before, recorded, github.thread, request.attempt, intent, intent);
    }

    /** Verbose mode and every other outcome: the result comment first, then a handoff's shared record. */
    method PublishCommented(request: Request, outcome: AttemptOutcome, linked: bool, pulled: bool, pushed: Option<Sha>,
                            local: Sha, deadline: int)
      returns (result: Result, ghost moved: bool, ghost tries: seq<H.Pass>)
      requires pushed in {None, Some(local)}
      modifies origin, attempts, this`verified, this`troubles, this`answered, intents, github`thread, github`failures, github`results
      ensures !moved && outcome == Handoff ==> answered == Some(result.handoffPosted)
      ensures tries != [] ==> outcome == Handoff && request.count.Some? && request.noteSha.Some?
      ensures pushed.Some? ==> tries == []
      ensures Kept(local, deadline, tries, moved) && Reporting(request.attempt) && Sharing(request, local)
      ensures Bodies(github.thread) != Bodies(old(github.thread)) ==>
                outcome == Handoff && (pushed.Some? || verified == Some(local)) && origin.now < deadline
      ensures result.outcome == if moved then InfrastructureError else outcome
      ensures moved ==> outcome == Handoff
      ensures !moved && outcome == Handoff && result.handoffPosted && request.count.Some? && request.noteSha.Some? ==>
                Recorded(request, local, intents.records) && Confirms(github.thread, Intent(intents.records, request.attempt).value)
      ensures !result.suppressed && (result.commentPosted ==> ResultOf(request.attempt) in github.thread)
      ensures github.failures == old(github.failures) ==> result.commentPosted
      ensures result.branchLinked == linked && result.pullRequest == pulled
    {
      moved, tries := false, [];
      ghost var before, earlier := github.thread, Intent(intents.records, request.attempt);
      var commented := ReportResult(request.attempt);
      var recorded := true;
      if outcome == Handoff {
        ghost var posted := github.thread;
        var lost: bool;
        lost, recorded, tries := PublishHandoffRecord(request, pushed, local, deadline);
        ghost var intent := Intent(intents.records, request.attempt);
        SteppedTwice(rank, before, posted, github.thread, request.attempt, earlier, intent);
        if commented {
          StillPosted(posted, github.thread, request.attempt);
        }
        if lost {
          moved := true;
          ghost var middle := github.thread;
          result := MovedHandoff(request, linked, pulled);
          SteppedTwice(rank, before, middle, github.thread, request.attempt, intent, intent);
          return;
        }
      }
      return Result(outcome, linked, pulled, commented, recorded, false), false, tries;
    }

    /** The pull request of an eligible attempt, and the merge that may follow it. */
    method PublishPullRequest(request: Request, deadline: int) returns (ok: bool, ghost pass: PullPass)
      modifies github`pulls, github`failures, github`merges, origin`head, origin`now, origin`waits, this`creates
      ensures github.merges == old(github.merges) + if ok && request.merge then 1 else 0
      ensures old(creates) <= creates && |creates| == |old(creates)| + |pass.rounds|
      ensures P.BeforeDeadline(creates, |old(creates)|, Some(deadline))
      ensures ok <==> Ensured(old(github.pulls), pass.look, pass.rounds).1 == Settled
      ensures Follows(old(github.pulls), github.pulls, [pass])
      ensures ok ==> Created(github.pulls) > old(github.pulls).closed
      ensures !ok ==> github.failures > old(github.failures) || origin.now >= deadline || maxRetries <= 0
      ensures github.failures >= old(github.failures)
      ensures !origin.outsideWriters ==> origin.head == old(origin.head)
      ensures origin.now >= old(origin.now)
    {
      ghost var look, rounds;
      ok, look, rounds := EnsurePullRequest(deadline);
      pass := PullRequests.Pass(look, rounds);
      PassKeeps(old(github.pulls), look, rounds);
      assert [pass][..0] == [];
      ghost var closes := 0;
      if ok && request.merge {
        closes := github.MergePullRequest();
      }
      assert github.pulls == Close(Passed(old(github.pulls), [pass]), closes);
    }

    /** The comments: a handoff in link mode starts with its record, and everything else with its result. */
    method ReportOutcome(request: Request, outcome: Option<AttemptOutcome>, linked: bool, pulled: bool, pushed: Option<Sha>,
                         local: Sha, deadline: int)
      returns (result: Result, ghost moved: bool, ghost tries: seq<H.Pass>)
      requires pushed in {None, Some(local)}
      modifies origin, attempts, this`verified, this`troubles, this`answered, intents, github`thread, github`failures, github`results
      ensures tries != [] ==> outcome == Some(Handoff) && request.count.Some? && request.noteSha.Some?
      ensures pushed.Some? ==> tries == []
      ensures Kept(local, deadline, tries, moved) && Reporting(request.attempt) && Sharing(request, local)
      ensures moved ==> outcome == Some(Handoff)
      ensures result.outcome == if moved || outcome.None? then InfrastructureError else outcome.value
      ensures result.outcome == Handoff ==> answered == Some(result.handoffPosted)
      ensures result.suppressed <==> result.outcome == Handoff && mode == Link && result.handoffPosted
                                     && request.count.Some? && request.noteSha.Some? && !request.notify
      ensures result.suppressed ==> github.results == old(github.results)
      ensures Bodies(github.thread) != Bodies(old(github.thread)) ==> (pushed.Some? || verified == Some(local)) && origin.now < deadline
      ensures result.outcome == Handoff && result.handoffPosted && request.count.Some? && request.noteSha.Some? ==>
                Recorded(request, local, intents.records) && Confirms(github.thread, Intent(intents.records, request.attempt).value)
      ensures result.commentPosted && !result.suppressed ==> ResultOf(request.attempt) in github.thread
      ensures github.failures == old(github.failures) ==> result.commentPosted
      ensures result.branchLinked == linked && result.pullRequest == pulled
    {
      if outcome == Some(Handoff) && mode == Link {
        result, moved, tries := PublishHandoffLink(request, linked, pulled, pushed, local, deadline);
      } else {
        var final := if outcome.Some? then outcome.value else InfrastructureError;
        result, moved, tries := PublishCommented(request, final, linked, pulled, pushed, local, deadline);
      }
    }

    /** What follows a settled push: the pull request of an eligible attempt, then the report. */
    method Report(request: Request, linked: bool, pushed: Option<Sha>, local: Sha, deadline: int)
      returns (result: Result, ghost moved: bool, ghost tries: seq<H.Pass>, ghost pulled: seq<PullPass>)
      requires pushed in {None, Some(local)} && (linked <==> NeedsPush(request.decision))
      modifies origin, attempts, this`verified, this`troubles, this`answered, this`creates, intents, github
      ensures tries != [] ==> request.decision.outcome == Some(Handoff) && !request.decision.eligible
                              && request.count.Some? && request.noteSha.Some?
      ensures pushed.Some? ==> tries == []
      ensures Kept(local, deadline, tries, moved) && Reporting(request.attempt) && Sharing(request, local)
      ensures result.outcome == Handoff ==>
                && answered == Some(result.handoffPosted)
                && (result.suppressed <==>
                      mode == Link && result.handoffPosted && request.count.Some? && request.noteSha.Some? && !request.notify)
      ensures result.suppressed ==> github.results == old(github.results)
      ensures github.merges == old(github.merges) + if result.pullRequest && request.merge then 1 else 0
      ensures P.BeforeDeadline(creates, |old(creates)|, Some(deadline)) && old(creates) <= creates
      ensures Follows(old(github.pulls), github.pulls, pulled)
      ensures |pulled| == if request.decision.eligible then 1 else 0
      ensures result.pullRequest <==> pulled != [] && Ensured(old(github.pulls), pulled[0].look, pulled[0].rounds).1 == Settled
      ensures Bodies(github.thread) != Bodies(old(github.thread)) ==> (pushed.Some? || verified == Some(local)) && origin.now < deadline
      ensures Honest(request, result, moved, mode, old(github.pulls), github.pulls, github.thread, intents.records)
      ensures result.outcome == Handoff && result.handoffPosted && request.count.Some? && request.noteSha.Some? ==>
                Recorded(request, local, intents.records)
      ensures github.failures == old(github.failures) ==> result.commentPosted
      ensures github.failures == old(github.failures) && request.decision.eligible && maxRetries > 0 ==>
                result.outcome == Complete || origin.now >= deadline
      ensures result.branchLinked == linked
    {
      var outcome, ok := request.decision.outcome, false;
      moved, tries, pulled := false, [], [];
      assert github.pulls == Close(Passed(github.pulls, []), 0);
      if request.decision.eligible {
        ghost var pass;
        ok, pass := PublishPullRequest(request, deadline);
        pulled := [pass];
        if !ok {
          var posted := ReportResult(request.attempt);
          return Result(InfrastructureError, linked, false, posted, true, false), false, [], pulled;
        }
        outcome := Some(Complete);
      }
      result, moved, tries := ReportOutcome(request, outcome, linked, ok, pushed, local, deadline);
    }

    /** What follows the push: a raise for an unusable checkpoint, the report of a failed push, or the publication itself. */
    method Settle(request: Request, local: Sha, deadline: int, fault: Option<Fault>, linked: bool, pushed: Option<Sha>)
      returns (reply: Reply, ghost moved: bool, ghost tries: seq<H.Pass>, ghost pulled: seq<PullPass>)
      requires pushed in {None, Some(local)} && (linked <==> fault.None? && NeedsPush(request.decision))
      requires fault.Some? ==> NeedsPush(request.decision)
      modifies origin, attempts, this`verified, this`troubles, this`answered, this`creates, intents, github
      ensures Kept(local, deadline, tries, moved) && Reporting(request.attempt) && Sharing(request, local)
      ensures fault.Some? ==> tries == [] && !moved && attempts.checkpoint == old(attempts.checkpoint)
      ensures pushed.Some? ==> tries == []
      ensures tries != [] ==> request.decision.outcome == Some(Handoff) && !request.decision.eligible
                              && request.count.Some? && request.noteSha.Some?
      ensures reply.Returned? && reply.result.outcome == Handoff ==>
                && answered == Some(reply.result.handoffPosted)
                && (reply.result.suppressed <==>
                      mode == Link && reply.result.handoffPosted && request.count.Some? && request.noteSha.Some? && !request.notify)
      ensures reply.Returned? && reply.result.suppressed ==> github.results == old(github.results)
      ensures github.merges == old(github.merges) + if reply.Returned? && reply.result.pullRequest && request.merge then 1 else 0
      ensures P.BeforeDeadline(creates, |old(creates)|, Some(deadline)) && old(creates) <= creates
      ensures Follows(old(github.pulls), github.pulls, pulled)
      ensures |pulled| <= 1 && (pulled != [] ==> request.decision.eligible && fault.None?)
      ensures reply.Returned? ==> (reply.result.pullRequest <==>
                pulled != [] && Ensured(old(github.pulls), pulled[0].look, pulled[0].rounds).1 == Settled)
      ensures Bodies(github.thread) != Bodies(old(github.thread)) ==>
                fault.None? && (pushed.Some? || verified == Some(local)) && origin.now < deadline
      ensures reply.Returned? ==> reply.result.branchLinked == linked
      ensures reply.Returned? ==>
                Honest(request, reply.result, moved || fault == Some(BranchMoved), mode, old(github.pulls), github.pulls, github.thread,
                       intents.records)
      ensures Confirming(Pass.Pass(request, local, 0), reply) ==> Recorded(request, local, intents.records)
      ensures reply.Returned? && github.failures == old(github.failures) ==> reply.result.commentPosted
      ensures reply.Raised? <==> fault == Some(StateFailed)
      ensures reply.Raised? ==> unchanged(github) && unchanged(intents)
    {
      if fault == Some(StateFailed) {
        moved, tries, pulled := false, [], [];
        NothingReported(request.attempt);
        return Raised, moved, tries, pulled;
      }
      if fault.Some? {
        moved, tries, pulled := false, [], [];
        var failed := FaultReport(request, fault.value);
        return Returned(failed), moved, tries, pulled;
      }
      var result;
      result, moved, tries, pulled := Report(request, linked, pushed, local, deadline);
      return Returned(result), moved, tries, pulled;
    }

    /**
     The branch of an eligible attempt, and the partial work of an incomplete or handed-off one, is
     pushed unless it was marked as publishing before, if there is any time; it is linked exactly when
     it is marked, as it is when nothing stood in the way. Of no other attempt is the branch linked, and
     only a handoff's record pushes it.
     */
    static ghost predicate Linking(a: Standing, b: Standing, request: Request, reply: Reply, local: Sha, tries: seq<H.Pass>, timeout: int,
                                   outsideWriters: bool)
    {
      var d := request.decision;
      if d.eligible || (d.path == PartialPath && (d.outcome == Some(Incomplete) || d.outcome == Some(Handoff)))
      then
        reply.Returned? ==>
          && (reply.result.branchLinked <==> IsPublishing(b.checkpoint))
          && (!IsPublishing(a.checkpoint) ==> (tries != [] <==> timeout > 0))
          && (Reached(a, b, local, a.now + timeout, tries, outsideWriters) ==> reply.result.branchLinked)
      else
        && (reply.Returned? ==> !reply.result.branchLinked)
        && (tries != [] ==> d.outcome == Some(Handoff) && request.count.Some? && request.noteSha.Some?)
    }

    /** What the first push, from `a` to `m`, and the report after it, from `m` to `b`, say of the branch. */
    static ghost predicate Steps(a: Standing, m: Standing, b: Standing, request: Request, reply: Reply, local: Sha, timeout: int,
                                 fault: Option<Fault>, linked: bool, pushed: Option<Sha>, first: seq<H.Pass>, tries: seq<H.Pass>,
                                 outsideWriters: bool)
    {
      var due := NeedsPush(request.decision);
      && (linked <==> fault.None? && due)
      && (linked ==> IsPublishing(m.checkpoint) && (IsPublishing(a.checkpoint) || pushed.Some?))
      && (fault.None? && pushed.None? ==> first == [])
      && (fault.Some? && fault != Some(StateFailed) ==> !IsPublishing(m.checkpoint))
      && (due && !IsPublishing(a.checkpoint) && fault != Some(StateFailed) ==> (first != [] <==> timeout > 0))
      && (due && Reached(a, m, local, a.now + timeout, first, outsideWriters) ==> linked)
      && (!due ==> fault.None? && first == [])
      && (fault.Some? ==> tries == [] && b.checkpoint == m.checkpoint)
      && (pushed.Some? ==> tries == [])
      && (tries != [] ==> request.decision.outcome == Some(Handoff) && !request.decision.eligible && Requested(request))
      && (reply.Returned? ==> reply.result.branchLinked == linked)
      && (reply.Raised? <==> fault == Some(StateFailed))
    }

    static lemma LinkingOnwards(a: Standing, m: Standing, b: Standing, request: Request, reply: Reply, local: Sha, timeout: int,
                                fault: Option<Fault>, linked: bool, pushed: Option<Sha>, first: seq<H.Pass>, tries: seq<H.Pass>,
                                outsideWriters: bool)
      requires Steps(a, m, b, request, reply, local, timeout, fault, linked, pushed, first, tries, outsideWriters)
      requires a.now <= m.now <= b.now && a.failures <= m.failures <= b.failures
      requires IsPublishing(m.checkpoint) ==> IsPublishing(b.checkpoint)
      ensures Linking(a, b, request, reply, local, first + tries, timeout, outsideWriters)
    {
    }

    /** The first push, and the report after it. */
    method PushAndSettle(request: Request, local: Sha, timeout: int)
      returns (reply: Reply, ghost moved: bool, ghost first: seq<H.Pass>, ghost tries: seq<H.Pass>, ghost pulled: seq<PullPass>,
               ghost middle: Standing, ghost fault: Option<Fault>, ghost linked: bool, ghost pushed: Option<Sha>)
      modifies origin, attempts, this`verified, this`troubles, this`answered, this`creates, intents, github
      ensures Held(old(Stands()), middle, local, old(origin.now) + timeout, first, fault == Some(BranchMoved), origin.outsideWriters)
      ensures Held(middle, Stands(), local, old(origin.now) + timeout, tries, moved, origin.outsideWriters)
      ensures (first == [] || tries == []) && Reporting(request.attempt) && Sharing(request, local)
      ensures Steps(old(Stands()), middle, Stands(), request, reply, local, timeout, fault, linked, pushed, first, tries, origin.outsideWriters)
      ensures reply.Returned? && reply.result.outcome == Handoff ==>
                && answered == Some(reply.result.handoffPosted)
                && (reply.result.suppressed <==>
                      mode == Link && reply.result.handoffPosted && request.count.Some? && request.noteSha.Some? && !request.notify)
      ensures reply.Returned? && reply.result.suppressed ==> github.results == old(github.results)
      ensures github.merges == old(github.merges) + if reply.Returned? && reply.result.pullRequest && request.merge then 1 else 0
      ensures P.BeforeDeadline(creates, |old(creates)|, Some(old(origin.now) + timeout)) && old(creates) <= creates
      ensures Follows(old(github.pulls), github.pulls, pulled)
      ensures |pulled| <= 1 && (pulled != [] ==>
                request.decision.eligible && (IsPublishing(old(attempts.checkpoint)) || verified == Some(local)))
      ensures reply.Returned? ==> (reply.result.pullRequest <==>
                pulled != [] && Ensured(old(github.pulls), pulled[0].look, pulled[0].rounds).1 == Settled)
      ensures Bodies(github.thread) != Bodies(old(github.thread)) ==> verified == Some(local) && origin.now < old(origin.now) + timeout
      ensures reply.Returned? ==>
                Honest(request, reply.result, moved || fault == Some(BranchMoved), mode, old(github.pulls), github.pulls, github.thread, intents.records)
      ensures Confirming(Pass.Pass(request, local, timeout), reply) ==> Recorded(request, local, intents.records)
      ensures reply.Returned? && github.failures == old(github.failures) ==> reply.result.commentPosted
      ensures reply.Raised? ==> attempts.failures > old(attempts.failures)
      ensures reply.Raised? ==> !moved && fault != Some(BranchMoved) && unchanged(github) && unchanged(intents)
    {
      var deadline := origin.now + timeout;
      var failed, joined, sent;
      failed, joined, sent, first := PushFirst(request, local, deadline);
      middle, fault, linked, pushed := Stands(), failed, joined, sent;
      reply, moved, tries, pulled := Settle(request, local, deadline, failed, joined, sent);
    }

    /** One publication of an attempt whose clone stands at `local`. */
    method Publish(request: Request, local: Sha, timeout: int)
      returns (reply: Reply, ghost moved: bool, ghost tries: seq<H.Pass>, ghost pulled: seq<PullPass>)
      modifies origin, attempts, this`verified, this`troubles, this`answered, this`creates, intents, github
      ensures Kept(local, old(origin.now) + timeout, tries, moved) && Reporting(request.attempt) && Sharing(request, local)
      ensures Linking(old(Stands()), Stands(), request, reply, local, tries, timeout, origin.outsideWriters)
      ensures reply.Returned? && reply.result.outcome == Handoff ==>
                && answered == Some(reply.result.handoffPosted)
                && (reply.result.suppressed <==>
                      mode == Link && reply.result.handoffPosted && request.count.Some? && request.noteSha.Some? && !request.notify)
      ensures reply.Returned? && reply.result.suppressed ==> github.results == old(github.results)
      ensures github.merges == old(github.merges) + if reply.Returned? && reply.result.pullRequest && request.merge then 1 else 0
      ensures P.BeforeDeadline(creates, |old(creates)|, Some(old(origin.now) + timeout)) && old(creates) <= creates
      ensures Follows(old(github.pulls), github.pulls, pulled)
      ensures |pulled| <= 1 && (pulled != [] ==>
                request.decision.eligible && (IsPublishing(old(attempts.checkpoint)) || verified == Some(local)))
      ensures reply.Returned? ==> (reply.result.pullRequest <==>
                pulled != [] && Ensured(old(github.pulls), pulled[0].look, pulled[0].rounds).1 == Settled)
      ensures Bodies(github.thread) != Bodies(old(github.thread)) ==> verified == Some(local) && origin.now < old(origin.now) + timeout
      ensures reply.Returned? ==>
                Honest(request, reply.result, moved, mode, old(github.pulls), github.pulls, github.thread, intents.records)
      ensures Confirming(Pass.Pass(request, local, timeout), reply) ==> Recorded(request, local, intents.records)
      ensures reply.Returned? && github.failures == old(github.failures) ==> reply.result.commentPosted
      ensures reply.Raised? ==> attempts.failures > old(attempts.failures)
      ensures reply.Raised? ==> !moved && unchanged(github) && unchanged(intents)
    {
      ghost var first, middle, fault, linked, pushed;
      reply, moved, first, tries, pulled, middle, fault, linked, pushed := PushAndSettle(request, local, timeout);
      ghost var lost := fault == Some(BranchMoved);
      HeldOnwards(old(Stands()), middle, Stands(), local, old(origin.now) + timeout, first, tries, lost, moved, origin.outsideWriters);
      LinkingOnwards(old(Stands()), middle, Stands(), request, reply, local, timeout, fault, linked, pushed, first, tries, origin.outsideWriters);
      moved, tries := moved || lost, first + tries;
    }

    lemma NothingReported(attempt: string)
      ensures Stepped(rank, github.thread, github.thread, attempt, Intent(intents.records, attempt))
      ensures Follows(github.pulls, github.pulls, [])
    {
      ChatterSteps(rank, github.thread, [], attempt, Intent(intents.records, attempt));
      assert github.thread + [] == github.thread;
      assert github.pulls == Close(Passed(github.pulls, []), 0);
    }

    /** A push that failed is reported, and nothing else. */
    method FaultReport(request: Request, fault: Fault) returns (result: Result)
      modifies github`thread, github`failures, github`results
      ensures Reporting(request.attempt) && Bodies(github.thread) == Bodies(old(github.thread))
      ensures Follows(old(github.pulls), github.pulls, [])
      ensures result == Result(AfterFault(request.decision, fault), false, false, result.commentPosted, true, false)
      ensures result.commentPosted ==> ResultOf(request.attempt) in github.thread
      ensures github.failures == old(github.failures) ==> result.commentPosted
    {
      var posted := ReportResult(request.attempt);
      assert github.pulls == Close(Passed(github.pulls, []), 0);
      return Result(AfterFault(request.decision, fault), false, false, posted, true, false);
    }

    /** What publications read and change outside this process. */
    ghost function Now(): (now: Moment)
      reads origin, github, attempts, intents
    {
      Moment(github.thread, intents.records, github.pulls, origin.head, LeaseOf(attempts.checkpoint))
    }

    /** Every confirming pass left the issue showing the attempt's intent as now stored, which names what the pass published. */
    ghost predicate AllConfirmed(passes: seq<Pass>, replies: seq<Reply>, shown: seq<Comments>, intent: Option<M.Record>) {
      && |replies| == |shown| <= |passes|
      && forall i :: 0 <= i < |replies| && Confirming(passes[i], replies[i]) ==>
           intent.Some? && Names(passes[i].request, passes[i].local, intent.value) && Confirms(shown[i], intent.value)
    }

    lemma OneMoreConfirmed(passes: seq<Pass>, replies: seq<Reply>, shown: seq<Comments>, before: Option<M.Record>,
                           reply: Reply, thread: Comments, now: Option<M.Record>)
      requires AllConfirmed(passes, replies, shown, before) && |replies| < |passes|
      requires before.Some? ==> now == before
      requires Confirming(passes[|replies|], reply) ==>
                 now.Some? && Names(passes[|replies|].request, passes[|replies|].local, now.value) && Confirms(thread, now.value)
      ensures AllConfirmed(passes, replies + [reply], shown + [thread], now)
    {
    }

    /** Some publication asked for exactly this record. */
    ghost predicate FromSome(passes: seq<Pass>, intent: M.Record) {
      exists i :: 0 <= i < |passes| && Names(passes[i].request, passes[i].local, intent) && Original(passes[i].request, intent)
    }

    /** One publication, as a story. */
    method PublishPass(pass: Pass) returns (reply: Reply, ghost story: Story)
      modifies origin, attempts, this`verified, this`troubles, this`answered, this`creates, intents, github
      ensures Told(rank, pass.request.attempt, old(Now()), Now(), story, origin.outsideWriters) && Within(story, [pass])
      ensures AsAsked(pass, old(intents.records), intents.records)
      ensures Confirming(pass, reply) ==>
                && Recorded(pass.request, pass.local, intents.records)
                && Confirms(github.thread, Intent(intents.records, pass.request.attempt).value)
      ensures story.pulls != [] ==> old(IsPublishing(attempts.checkpoint)) || verified == Some(pass.local)
      ensures IsPublishing(attempts.checkpoint) ==> old(IsPublishing(attempts.checkpoint)) || verified == Some(pass.local)
      ensures old(origin.seen) <= origin.seen
      ensures verified == old(verified) || (verified == Some(pass.local) && verified in origin.seen)
    {
      ghost var moved, tries, pulls;
      reply, moved, tries, pulls := Publish(pass.request, pass.local, pass.timeout);
      story := Story(pulls, tries, moved);
      assert Sharing(pass.request, pass.local);
      AskedFor(pass, old(intents.records), intents.records);
    }

    lemma AskedFor(pass: Pass, before: map<string, M.Record>, now: map<string, M.Record>)
      requires var attempt := pass.request.attempt;
        attempt !in before && attempt in now ==> Recorded(pass.request, pass.local, now) && Original(pass.request, now[attempt])
      ensures AsAsked(pass, before, now)
    {
    }

    /** The intent saved since, if any, is one that some publication asked for. */
    ghost predicate Traced(passes: seq<Pass>, first: map<string, M.Record>, now: map<string, M.Record>, attempt: string) {
      attempt !in first && attempt in now ==> FromSome(passes, Intent(now, attempt).value)
    }

    /** The intent this publication saved, if it saved one, is what it asked for. */
    ghost predicate AsAsked(pass: Pass, before: map<string, M.Record>, now: map<string, M.Record>) {
      var attempt := pass.request.attempt;
      attempt !in before && attempt in now ==>
        Names(pass.request, pass.local, Intent(now, attempt).value) && Original(pass.request, Intent(now, attempt).value)
    }

    lemma TracedOneMore(passes: seq<Pass>, n: nat, first: map<string, M.Record>, before: map<string, M.Record>,
                        now: map<string, M.Record>, attempt: string)
      requires n < |passes| && passes[n].request.attempt == attempt
      requires Traced(passes[..n], first, before, attempt) && KeepsIntents(before, now, attempt)
      requires AsAsked(passes[n], before, now)
      ensures Traced(passes[..n + 1], first, now, attempt)
    {
      if attempt !in first && attempt in now {
        if attempt in before {
          var intent := Intent(before, attempt).value;
          var i :| 0 <= i < n && Names(passes[..n][i].request, passes[..n][i].local, intent) && Original(passes[..n][i].request, intent);
          assert passes[..n + 1][i] == passes[..n][i];
        } else {
          assert passes[..n + 1][n] == passes[n];
        }
      }
    }

    /** What holds of the first n publications, from one moment to another. */
    ghost predicate Retold(attempt: string, passes: seq<Pass>, n: nat, first: Moment, now: Moment, replies: seq<Reply>,
                           shown: seq<Comments>, story: Story)
      requires n <= |passes|
    {
      && |replies| == n == |shown|
      && Told(rank, attempt, first, now, story, origin.outsideWriters) && Within(story, passes[..n])
      && AllConfirmed(passes, replies, shown, Intent(now.records, attempt))
      && Traced(passes[..n], first.records, now.records, attempt)
    }

    lemma RetoldOneMore(attempt: string, passes: seq<Pass>, n: nat, first: Moment, before: Moment, now: Moment,
                        replies: seq<Reply>, shown: seq<Comments>, story: Story, reply: Reply, more: Story)
      returns (all: Story)
      requires n < |passes| && passes[n].request.attempt == attempt
      requires Retold(attempt, passes, n, first, before, replies, shown, story)
      requires Told(rank, attempt, before, now, more, origin.outsideWriters) && Within(more, [passes[n]])
      requires AsAsked(passes[n], before.records, now.records)
      requires Confirming(passes[n], reply) ==>
                 && Recorded(passes[n].request, passes[n].local, now.records)
                 && Confirms(now.thread, Intent(now.records, attempt).value)
      ensures Retold(attempt, passes, n + 1, first, now, replies + [reply], shown + [now.thread], all)
      ensures |all.pulls| == |story.pulls| + |more.pulls|
    {
      all := ToldOnwards(rank, attempt, first, before, now, story, more, origin.outsideWriters);
      WithinOneMore(story, more, all, passes, n);
      OneMoreConfirmed(passes, replies, shown, Intent(before.records, attempt), reply, now.thread, Intent(now.records, attempt));
      TracedOneMore(passes, n, first.records, before.records, now.records, attempt);
    }

    /**
     Any number of publications of one attempt, with anything merged, closed or commented in between:
     one history of pull requests, pushes and comments, in which every confirmation showed the same
     first-saved intent.
     */
    method Replay(attempt: string, passes: seq<Pass>) returns (replies: seq<Reply>, ghost shown: seq<Comments>, ghost story: Story)
      requires forall i :: 0 <= i < |passes| ==> passes[i].request.attempt == attempt
      modifies origin, attempts, this`verified, this`troubles, this`answered, this`creates, intents, github
      ensures |replies| == |passes| == |shown|
      ensures Told(rank, attempt, old(Now()), Now(), story, origin.outsideWriters) && Within(story, passes)
      ensures AllConfirmed(passes, replies, shown, Intent(intents.records, attempt))
      ensures attempt !in old(intents.records) && attempt in intents.records ==>
                FromSome(passes, Intent(intents.records, attempt).value)
      ensures old(IsPublishing(attempts.checkpoint) ==> verified.Some?) ==>
                && (story.pulls != [] ==> verified.Some?)
                && (IsPublishing(attempts.checkpoint) ==> verified.Some?)
      ensures verified == old(verified) || verified in origin.seen
    {
      replies, shown, story := [], [], Story([], [], false);
      NothingTold(rank, attempt, Now(), origin.outsideWriters);
      for n := 0 to |passes|
        invariant Retold(attempt, passes, n, old(Now()), Now(), replies, shown, story)
        invariant old(IsPublishing(attempts.checkpoint) ==> verified.Some?) ==>
                    && (story.pulls != [] ==> verified.Some?)
                    && (IsPublishing(attempts.checkpoint) ==> verified.Some?)
        invariant old(origin.seen) <= origin.seen
        invariant verified == old(verified) || verified in origin.seen
      {
        ghost var before := Now();
        var reply;
        ghost var more;
        reply, more := PublishPass(passes[n]);
        story := RetoldOneMore(attempt, passes, n, old(Now()), before, Now(), replies, shown, story, reply, more);
        replies, shown := replies + [reply], shown + [github.thread];
      }
      assert passes[..|passes|] == passes;
    }
  }

  // ---- The history of an attempt's publications --------------------------------------------

  datatype Moment = Moment(
    thread: Comments,
    records: map<string, M.Record>,
    pulls: Pulls,
    head: Option<Sha>,
    lease: Option<Option<Sha>>)

  /** The passes over the pull request, the pushes, and whether one of these was told that the branch moved. */
  datatype Story = Story(pulls: seq<PullPass>, tries: seq<H.Pass>, moved: bool)

  /** What publications between two moments did, with anything merged, closed or commented in between. */
  ghost predicate Told(rank: string -> real, attempt: string, before: Moment, now: Moment, story: Story, outsideWriters: bool) {
    && KeepsIntents(before.records, now.records, attempt)
    && Stepped(rank, before.thread, now.thread, attempt, Intent(now.records, attempt))
    && Follows(before.pulls, now.pulls, story.pulls)
    && (!outsideWriters ==> MadeOf(before.head, before.lease, story.tries, now.head, now.lease, story.moved))
  }

  /** At most one look for the pull request and one push for each publication, and of its revision. */
  ghost predicate Within(story: Story, passes: seq<Pass>) {
    && |story.pulls| <= |passes| && |story.tries| <= |passes|
    && (OneRevision(passes) ==> forall i :: 0 <= i < |story.tries| ==> story.tries[i].local == passes[0].local)
  }

  lemma NothingTold(rank: string -> real, attempt: string, now: Moment, outsideWriters: bool)
    ensures Told(rank, attempt, now, now, Story([], [], false), outsideWriters)
  {
    ChatterSteps(rank, now.thread, [], attempt, Intent(now.records, attempt));
    assert now.thread + [] == now.thread;
    assert now.pulls == Close(Passed(now.pulls, []), 0);
  }

  lemma ToldOnwards(rank: string -> real, attempt: string, a: Moment, b: Moment, c: Moment, first: Story, second: Story,
                    outsideWriters: bool)
    returns (all: Story)
    requires Told(rank, attempt, a, b, first, outsideWriters) && Told(rank, attempt, b, c, second, outsideWriters)
    requires |second.pulls| <= 1 && |second.tries| <= 1
    ensures Told(rank, attempt, a, c, all, outsideWriters)
    ensures |all.pulls| == |first.pulls| + |second.pulls| && all.tries == first.tries + second.tries
    ensures all.moved == (first.moved || second.moved)
  {
    var pulls := FollowsOnwards(a.pulls, b.pulls, c.pulls, first.pulls, second.pulls);
    all := Story(pulls, first.tries + second.tries, first.moved || second.moved);
    KeepsIntentsTwice(a.records, b.records, c.records, attempt);
    SteppedTwice(rank, a.thread, b.thread, c.thread, attempt, Intent(b.records, attempt), Intent(c.records, attempt));
    if !outsideWriters {
      MadeOnwards(a.head, a.lease, first.tries, b.head, b.lease, second.tries, c.head, c.lease, first.moved, second.moved);
    }
  }

  lemma WithinOneMore(story: Story, more: Story, all: Story, passes: seq<Pass>, n: nat)
    requires n < |passes| && Within(story, passes[..n]) && Within(more, [passes[n]])
    requires |all.pulls| == |story.pulls| + |more.pulls| && all.tries == story.tries + more.tries
    ensures Within(all, passes[..n + 1])
  {
    var now := passes[..n + 1];
    assert forall i :: 0 <= i < n ==> now[i] == passes[..n][i];
    assert now[n] == passes[n];
    assert OneRevision([passes[n]]);
  }

  /**
   However an attempt is published again: never a second open pull request, and as long as every
   publication pushes the same revision and nobody else writes, the branch is never reported to have moved.
   */
  lemma ToldKeeps(rank: string -> real, attempt: string, before: Moment, now: Moment, story: Story, passes: seq<Pass>)
    requires Told(rank, attempt, before, now, story, false) && Within(story, passes)
    ensures PullsKept(before.pulls, now.pulls)
    ensures OneRevision(passes) && before.lease.Some? && H.Sound(H.Book(before.head, before.lease.value), passes[0].local) ==>
              && !story.moved && now.lease.Some?
              && H.Sound(H.Book(now.head, now.lease.value), passes[0].local)
  {
    FollowsKeeps(before.pulls, now.pulls, story.pulls);
    if OneRevision(passes) && before.lease.Some? && H.Sound(H.Book(before.head, before.lease.value), passes[0].local) {
      H.OneRevisionNeverMoved(H.Book(before.head, before.lease.value), story.tries, passes[0].local);
    }
  }

  lemma MadeOnwards(head: Option<Sha>, lease: Option<Option<Sha>>, tries: seq<H.Pass>, middle: Option<Sha>, held: Option<Option<Sha>>,
                    more: seq<H.Pass>, now: Option<Sha>, kept: Option<Option<Sha>>, moved: bool, lost: bool)
    requires MadeOf(head, lease, tries, middle, held, moved) && MadeOf(middle, held, more, now, kept, lost) && |more| <= 1
    ensures MadeOf(head, lease, tries + more, now, kept, moved || lost)
  {
    if lease.Some? {
      H.RunOnwards(H.Book(head, lease.value), tries, more);
    }
  }

  lemma OneTry(b: H.Book, pass: H.Pass)
    ensures H.Run(b, [pass]) == H.After(b, pass)
    ensures H.AnyMoved(b, [pass]) <==> H.Tried(b, pass).1.Some? && H.Tried(b, pass).1.value.Moved?
  {
    assert [pass][..0] == [];
    assert H.MovedAt(b, [pass], 0) <==> H.Tried(b, pass).1.Some? && H.Tried(b, pass).1.value.Moved?;
  }

  lemma PushMade(head: Option<Sha>, lease: Option<Option<Sha>>, pass: H.Pass, now: Option<Sha>, settled: Option<P.Outcome>)
    requires lease.Some? && H.Tried(H.Book(head, lease.value), pass) == (now, settled)
    ensures MadeOf(head, lease, [pass], now, if settled == Some(P.Pushed) && pass.advanced then Some(Some(pass.local)) else lease,
                   settled.Some? && settled.value.Moved?)
  {
    OneTry(H.Book(head, lease.value), pass);
  }

  lemma StillPosted(before: Comments, after: Comments, attempt: string)
    requires Grown(before, after) && ResultOf(attempt) in before
    ensures ResultOf(attempt) in after
  {
    var i :| 0 <= i < |before| && before[i] == ResultOf(attempt);
    assert after[i] == before[i];
  }

  lemma SteppedInView(rank: string -> real, before: Comments, looked: Comments, now: Comments, intent: M.Record)
    requires Stepped(rank, before, looked, intent.attempt, Some(intent)) && Stepped(rank, looked, now, intent.attempt, Some(intent))
    ensures Stepped(rank, before, now, intent.attempt, Some(intent))
    ensures InView(now) ==> InView(looked)
  {
    SteppedTwice(rank, before, looked, now, intent.attempt, Some(intent), Some(intent));
    if InView(now) {
      GrownInView(looked, now);
    }
  }
}
