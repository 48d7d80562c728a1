/**
 Pushing an attempt branch by compare-and-swap against a lease. The remote may accept a push and
 lose the reply, a read may fail, time passes, and outside writers may move the branch at any moment.
 */
module PushLoop {
  import opened Prelude

  type Sha = string

  /** One own write of the ref: the lease it was pushed under, and what it replaced. */
  datatype Write = Write(lease: Option<Sha>, replaced: Option<Sha>, written: Sha)

  datatype Outcome =
    | Pushed
    | Moved(observed: Option<Sha>)
    | TimedOut
    | Unsafe
    | Invalid

  /**
   What the network does to one round of the loop: whether a fetch, the push, its reply, the check
   after an accepted push and the reconciling read get through.
   */
  datatype Luck = Luck(fetched: bool, delivered: bool, replied: bool, checked: bool, readable: bool)

  /** The ref after a push under this lease, when nobody else writes it. */
  function Swap(head: Option<Sha>, lease: Option<Sha>, local: Sha, delivered: bool): Option<Sha> {
    if delivered && head == lease then Some(local) else head
  }

  /** One push and its reconciliation, when nobody else writes: the ref, and the outcome if it is settled. */
  function PushedOnce(head: Option<Sha>, lease: Option<Sha>, local: Sha, luck: Luck): (Option<Sha>, Option<Outcome>) {
    var after := Swap(head, lease, local, luck.delivered);
    if luck.delivered && luck.replied && head in {lease, Some(local)} && luck.checked && after == Some(local)
    then (after, Some(Pushed))
    else if !luck.readable then (after, None)
    else if after == Some(local) then (after, Some(Pushed))
    else if after != lease then (after, Some(Moved(after)))
    else (after, None)
  }

  /** One round without a recorded lease: the lease is what the fetch observed. */
  function ObservedOnce(head: Option<Sha>, local: Sha, luck: Luck): (Option<Sha>, Option<Outcome>) {
    if !luck.fetched then (head, if luck.readable && head == Some(local) then Some(Pushed) else None)
    else
      var (after, outcome) := PushedOnce(head, head, local, luck);
      (after, if outcome == Some(Pushed) then outcome else None)
  }

  /** A whole push: rounds until one settles it; None when none does. */
  function Attempted(head: Option<Sha>, lease: Option<Sha>, known: bool, local: Sha, rounds: seq<Luck>)
    : (Option<Sha>, Option<Outcome>)
  {
    if rounds == [] then (head, None)
    else
      var (before, outcome) := Attempted(head, lease, known, local, rounds[..|rounds| - 1]);
      var luck := rounds[|rounds| - 1];
      if outcome.Some? then (before, outcome)
      else if known then PushedOnce(before, lease, local, luck)
      else ObservedOnce(before, local, luck)
  }

  lemma AttemptedOneMore(head: Option<Sha>, lease: Option<Sha>, known: bool, local: Sha, rounds: seq<Luck>, luck: Luck)
    requires Attempted(head, lease, known, local, rounds).1.None?
    ensures Attempted(head, lease, known, local, rounds + [luck])
         == var before := Attempted(head, lease, known, local, rounds).0;
            if known then PushedOnce(before, lease, local, luck) else ObservedOnce(before, local, luck)
  {
    assert (rounds + [luck])[..|rounds|] == rounds;
  }

  /** The outcome as far as it is settled; giving up settles nothing. */
  function Settled(outcome: Outcome): Option<Outcome> {
    if outcome.Pushed? || outcome.Moved? then Some(outcome) else None
  }

  function SettledBy(outcome: Option<Outcome>): Option<Outcome> {
    if outcome.Some? then Settled(outcome.value) else None
  }

  const RETRY_CAP := 30

  function Backoff(attempt: nat): (delay: nat)
    ensures 2 <= delay <= RETRY_CAP
    ensures delay == match attempt case 0 => 2 case 1 => 4 case 2 => 8 case 3 => 16 case _ => 30
    decreases attempt
  {
    if attempt == 0 then 2 else if 2 * Backoff(attempt - 1) >= RETRY_CAP then RETRY_CAP else 2 * Backoff(attempt - 1)
  }

  /** The origin's view of one attempt branch, with a record of what this process did and saw. */
  class Origin {
    const outsideWriters: bool
    var head: Option<Sha>
    var now: int
    ghost var writes: seq<Write>
    ghost var seen: seq<Option<Sha>>
    ghost var starts: seq<int>

    /** How long this process waited, each time it did. */
    ghost var waits: seq<nat>

    /** What every read of the ref came back with, None for a failed one. */
    ghost var asked: seq<Option<Option<Sha>>>

    constructor (outsideWriters: bool, head: Option<Sha>, now: int)
      ensures this.outsideWriters == outsideWriters && this.head == head && this.now == now
      ensures writes == [] && seen == [] && starts == [] && asked == [] && waits == []
    {
      this.outsideWriters, this.head, this.now := outsideWriters, head, now;
      writes, seen, starts, asked, waits := [], [], [], [], [];
    }

    /** Time passes, and others may write the ref. */
    method Interfere()
      modifies this`head, this`now
      ensures now >= old(now)
      ensures !outsideWriters ==> head == old(head)
    {
      var next, elapsed := *, *;
      if outsideWriters {
        head := next;
      }
      now := if elapsed > 0 then now + elapsed else now;
    }

    method Sleep(delay: nat)
      modifies this`head, this`now, this`waits
      ensures now >= old(now) + delay && waits == old(waits) + [delay]
      ensures !outsideWriters ==> head == old(head)
    {
      Interfere();
      now, waits := now + delay, waits + [delay];
    }

    /** `git push --force-with-lease`: swaps the ref if it equals the lease; the reply may be lost. */
    method Push(lease: Option<Sha>, local: Sha) returns (ok: bool, ghost delivered: bool, ghost replied: bool)
      modifies this
      ensures now >= old(now) && seen == old(seen) && asked == old(asked) && starts == old(starts) + [old(now)] && waits == old(waits)
      ensures writes == old(writes) || (writes == old(writes) + [Write(lease, lease, local)] && lease != Some(local))
      ensures !outsideWriters ==>
                && head == Swap(old(head), lease, local, delivered)
                && (writes == old(writes) <==> head == old(head))
                && ok == (delivered && replied && old(head) in {lease, Some(local)})
    {
      starts := starts + [now];
      Interfere();
      ok := false;
      var arrives, answers := *, *;
      delivered, replied := arrives, answers;
      if arrives {
        if head == Some(local) {
          ok := answers;
        } else if head == lease {
          head, writes := Some(local), writes + [Write(lease, head, local)];
          ok := answers;
        }
      }
      Interfere();
    }

    /** `git ls-remote`: the ref as the origin has it, unless the read fails. */
    method ReadHead() returns (readable: bool, revision: Option<Sha>)
      modifies this
      ensures now >= old(now) && writes == old(writes) && starts == old(starts) && waits == old(waits)
      ensures seen == if readable then old(seen) + [revision] else old(seen)
      ensures asked == old(asked) + [if readable then Some(revision) else None]
      ensures !outsideWriters ==> head == old(head) && (readable ==> revision == head)
    {
      Interfere();
      readable := *;
      revision := None;
      if readable {
        revision, seen := head, seen + [head];
      }
      asked := asked + [if readable then Some(revision) else None];
    }
  }

  /** Every own write after the mark replaced exactly the lease, with the local revision. */
  ghost predicate WritesUnder(writes: seq<Write>, mark: nat, lease: Option<Sha>, local: Sha) {
    mark <= |writes| && forall i :: mark <= i < |writes| ==> writes[i] == Write(lease, lease, local)
  }

  ghost predicate BeforeDeadline(starts: seq<int>, mark: nat, deadline: Option<int>) {
    mark <= |starts| && (deadline.Some? ==> forall i :: mark <= i < |starts| ==> starts[i] < deadline.value)
  }

  /** The waits between the first n + 1 rounds. */
  function Waits(n: nat): seq<nat> {
    if n == 0 then [] else Waits(n - 1) + [Backoff(n - 1)]
  }

  /** The waits between n + 1 rounds were made. */
  predicate Waited(before: seq<nat>, after: seq<nat>, n: nat) {
    after == before + Waits(n)
  }

  /** One more wait, if the next round is to come. */
  predicate WaitedOnce(before: seq<nat>, after: seq<nat>, attempt: nat, goesOn: bool) {
    after == before + if goesOn then [Backoff(attempt)] else []
  }

  lemma WaitedOneMore(before: seq<nat>, middle: seq<nat>, after: seq<nat>, attempt: nat, goesOn: bool)
    requires Waited(before, middle, attempt) && WaitedOnce(middle, after, attempt, goesOn)
    ensures Waited(before, after, if goesOn then attempt + 1 else attempt)
  {
  }

  /** One wait after each round but the last; after each, if the time was up when the next was due. */
  predicate Paced(before: seq<nat>, after: seq<nat>, rounds: nat, gaveUp: bool) {
    (rounds > 0 && Waited(before, after, rounds - 1)) || (gaveUp && Waited(before, after, rounds))
  }

  /** Waits before the next retry; false when that would pass the deadline. */
  method RetryDelay(origin: Origin, attempt: nat, deadline: Option<int>) returns (ok: bool)
    modifies origin`head, origin`now, origin`waits
    ensures origin.now >= old(origin.now)
    ensures origin.waits == old(origin.waits) + if ok then [Backoff(attempt)] else []
    ensures ok <==> deadline.None? || old(origin.now) + Backoff(attempt) < deadline.value
    ensures !origin.outsideWriters ==> origin.head == old(origin.head)
  {
    var delay := Backoff(attempt);
    if deadline.Some? && origin.now + delay >= deadline.value {
      return false;
    }
    origin.Sleep(delay);
    return true;
  }

  /**
   What the reads after a push settle: pushed if any shows the local revision; else moved if the last
   one can be read and shows neither that nor the lease; else nothing.
   */
  function Answered(looks: seq<Option<Option<Sha>>>, lease: Option<Sha>, local: Sha): Option<Outcome>
    requires looks != []
  {
    var last := looks[|looks| - 1];
    if Some(Some(local)) in looks then Some(Pushed)
    else if last.Some? && last.value != lease then Some(Moved(last.value))
    else None
  }

  /** One push and its reconciliation with what the origin shows; None asks for a retry. */
  method PushOnce(origin: Origin, local: Sha, lease: Option<Sha>) returns (outcome: Option<Outcome>, ghost luck: Luck)
    modifies origin
    ensures origin.now >= old(origin.now) && origin.starts == old(origin.starts) + [old(origin.now)]
    ensures origin.waits == old(origin.waits)
    ensures origin.writes == old(origin.writes)
         || (origin.writes == old(origin.writes) + [Write(lease, lease, local)] && lease != Some(local))
    ensures old(origin.seen) <= origin.seen
    ensures outcome.Some? ==> |origin.seen| > |old(origin.seen)|
    ensures outcome.Some? ==> outcome.value in {Pushed, Moved(origin.seen[|origin.seen| - 1])}
    ensures outcome == Some(Pushed) ==> origin.seen[|origin.seen| - 1] == Some(local)
    ensures outcome.Some? && outcome.value.Moved? ==> origin.seen[|origin.seen| - 1] !in {Some(local), lease}
    ensures outcome == Some(Pushed) <==> Some(local) in origin.seen[|old(origin.seen)|..]
    ensures old(origin.asked) < origin.asked
    ensures outcome == Answered(origin.asked[|old(origin.asked)|..], lease, local)
    ensures !origin.outsideWriters ==>
              && luck.fetched && (origin.head, outcome) == PushedOnce(old(origin.head), lease, local, luck)
              && (origin.writes == old(origin.writes) <==> origin.head == old(origin.head))
  {
    outcome := None;
    var accepted, delivered, replied := origin.Push(lease, local);
    luck := Luck(true, delivered, replied, false, false);
    if accepted {
      var checked, after := origin.ReadHead();
      luck := luck.(checked := checked);
      if checked && after == Some(local) {
        return Some(Pushed), luck;
      }
    }
    var readable, current := origin.ReadHead();
    luck := luck.(readable := readable);
    if readable {
      if current == Some(local) {
        return Some(Pushed), luck;
      }
      if current != lease {
        return Some(Moved(current)), luck;
      }
    }
  }

  /** What pushing reads and changes at the origin, and what is remembered of it. */
  datatype Logs = Logs(head: Option<Sha>, now: int, writes: seq<Write>, seen: seq<Option<Sha>>, starts: seq<int>, waits: seq<nat>)

  ghost function Logged(origin: Origin): Logs
    reads origin
  {
    Logs(origin.head, origin.now, origin.writes, origin.seen, origin.starts, origin.waits)
  }

  /** One round under a lease: at most one write, which replaced the lease, and pushed exactly when a read showed the local revision. */
  ghost predicate RoundLeased(a: Logs, b: Logs, local: Sha, lease: Option<Sha>, luck: Luck, settled: Option<Outcome>, outsideWriters: bool) {
    && (b.writes == a.writes || (b.writes == a.writes + [Write(lease, lease, local)] && lease != Some(local)))
    && a.seen <= b.seen && b.starts == a.starts + [a.now] && a.now <= b.now
    && (settled == Some(Pushed) <==> Some(local) in b.seen[|a.seen|..]) && LastSight(b.seen, |a.seen|, local, lease, settled)
    && (!outsideWriters ==>
          (b.head, settled) == PushedOnce(a.head, lease, local, luck) && (b.writes == a.writes <==> b.head == a.head))
  }

  /** The same of any number of rounds. */
  ghost predicate RoundsLeased(a: Logs, b: Logs, local: Sha, lease: Option<Sha>, rounds: seq<Luck>, settled: Option<Outcome>,
                               outsideWriters: bool)
  {
    && a.writes <= b.writes && WritesUnder(b.writes, |a.writes|, lease, local)
    && a.seen <= b.seen && a.starts <= b.starts && |b.starts| == |a.starts| + |rounds|
    && (settled == Some(Pushed) <==> Some(local) in b.seen[|a.seen|..]) && LastSight(b.seen, |a.seen|, local, lease, settled)
    && (!outsideWriters ==>
          && Attempted(a.head, lease, true, local, rounds) == (b.head, settled)
          && (if b.writes == a.writes then b.head == a.head
              else |b.writes| == |a.writes| + 1 && b.head == Some(local) != lease == a.head))
  }

  /** What the last read showed when a round settled the push. */
  predicate LastSight(seen: seq<Option<Sha>>, mark: nat, local: Sha, lease: Option<Sha>, settled: Option<Outcome>) {
    settled.Some? ==>
      && |seen| > mark && settled.value in {Pushed, Moved(seen[|seen| - 1])}
      && (settled.value.Pushed? ==> seen[|seen| - 1] == Some(local))
      && (settled.value.Moved? ==> seen[|seen| - 1] !in {Some(local), lease})
  }

  /** One round with the wait that follows an unsettled one unless it is the last; None goes on. */
  method LeaseRound(origin: Origin, local: Sha, lease: Option<Sha>, attempt: nat, last: bool, deadline: Option<int>)
    returns (outcome: Option<Outcome>, ghost luck: Luck)
    modifies origin
    ensures WaitedOnce(old(origin.waits), origin.waits, attempt, outcome.None? && !last)
    ensures last ==> outcome != Some(TimedOut)
    ensures RoundLeased(old(Logged(origin)), Logged(origin), local, lease, luck,
                        SettledBy(outcome), origin.outsideWriters)
    ensures outcome.Some? ==> outcome.value.TimedOut? || SettledBy(outcome) == outcome
    ensures outcome == Some(TimedOut) ==> deadline.Some? && origin.now + RETRY_CAP >= deadline.value
  {
    outcome, luck := PushOnce(origin, local, lease);
    if outcome.None? && !last {
      var ok := RetryDelay(origin, attempt, deadline);
      if !ok {
        outcome := Some(TimedOut);
      }
    }
  }

  /** The rounds from one standing to the next, each begun in time, and a wait after each but, perhaps, the last. */
  ghost predicate Leased(states: seq<Logs>, local: Sha, lease: Option<Sha>, deadline: Option<int>, rounds: seq<Luck>,
                         settled: Option<Outcome>, goesOn: bool, outsideWriters: bool)
    decreases |rounds|
  {
    && |states| == |rounds| + 1
    && if rounds == [] then settled.None?
       else
         var n := |rounds| - 1;
         && Leased(states[..n + 1], local, lease, deadline, rounds[..n], None, true, outsideWriters)
         && (deadline.Some? ==> states[n].now < deadline.value)
         && RoundLeased(states[n], states[n + 1], local, lease, rounds[n], settled, outsideWriters)
         && WaitedOnce(states[n].waits, states[n + 1].waits, n, goesOn)
  }

  lemma LeasedOneMore(states: seq<Logs>, next: Logs, local: Sha, lease: Option<Sha>, deadline: Option<int>, rounds: seq<Luck>,
                      luck: Luck, settled: Option<Outcome>, goesOn: bool, outsideWriters: bool)
    requires Leased(states, local, lease, deadline, rounds, None, true, outsideWriters)
    requires var now := states[|rounds|];
      && (deadline.Some? ==> now.now < deadline.value)
      && RoundLeased(now, next, local, lease, luck, settled, outsideWriters)
      && WaitedOnce(now.waits, next.waits, |rounds|, goesOn)
    ensures Leased(states + [next], local, lease, deadline, rounds + [luck], settled, goesOn, outsideWriters)
  {
    var n, all, more := |rounds|, states + [next], rounds + [luck];
    assert all[..n + 1] == states && more[..n] == rounds;
    assert all[n] == states[n] && all[n + 1] == next && more[n] == luck;
    assert RoundLeased(all[n], all[n + 1], local, lease, more[n], settled, outsideWriters);
  }

  lemma {:induction false} LeasedInAll(states: seq<Logs>, local: Sha, lease: Option<Sha>, deadline: Option<int>, rounds: seq<Luck>,
                                       settled: Option<Outcome>, goesOn: bool, outsideWriters: bool)
    requires Leased(states, local, lease, deadline, rounds, settled, goesOn, outsideWriters)
    ensures RoundsLeased(states[0], states[|rounds|], local, lease, rounds, settled, outsideWriters)
    ensures BeforeDeadline(states[|rounds|].starts, |states[0].starts|, deadline)
    ensures Waited(states[0].waits, states[|rounds|].waits, if goesOn || rounds == [] then |rounds| else |rounds| - 1)
    decreases |rounds|
  {
    if rounds != [] {
      var n := |rounds| - 1;
      LeasedInAll(states[..n + 1], local, lease, deadline, rounds[..n], None, true, outsideWriters);
      RoundLeasedMore(states[0], states[n], states[n + 1], local, lease, rounds[..n], rounds[n], settled, outsideWriters);
      assert rounds[..n] + [rounds[n]] == rounds;
      WaitedOneMore(states[0].waits, states[n].waits, states[n + 1].waits, n, goesOn);
    }
  }

  lemma RoundLeasedMore(a: Logs, b: Logs, c: Logs, local: Sha, lease: Option<Sha>, rounds: seq<Luck>, luck: Luck,
                        settled: Option<Outcome>, outsideWriters: bool)
    requires RoundsLeased(a, b, local, lease, rounds, None, outsideWriters)
    requires RoundLeased(b, c, local, lease, luck, settled, outsideWriters)
    ensures RoundsLeased(a, c, local, lease, rounds + [luck], settled, outsideWriters)
  {
    LaterSights(a.seen, b.seen, c.seen, Some(local));
    if !outsideWriters {
      AttemptedOneMore(a.head, lease, true, local, rounds, luck);
    }
  }

  /** Round after round under the lease until one settles it, the time is up, or none is left. */
  method LeaseRounds(origin: Origin, local: Sha, lease: Option<Sha>, maxRetries: nat, deadline: Option<int>)
    returns (outcome: Outcome, ghost rounds: seq<Luck>, ghost states: seq<Logs>)
    requires maxRetries > 0
    modifies origin
    ensures |rounds| <= maxRetries && origin.now >= old(origin.now)
    ensures outcome.Pushed? || outcome.Moved? || outcome in {TimedOut, Unsafe}
    ensures Leased(states, local, lease, deadline, rounds, Settled(outcome), false, origin.outsideWriters)
         || (outcome.TimedOut? && Leased(states, local, lease, deadline, rounds, None, true, origin.outsideWriters))
    ensures states[0] == old(Logged(origin)) && states[|rounds|] == Logged(origin)
    ensures outcome.TimedOut? ==> deadline.Some? && origin.now + RETRY_CAP >= deadline.value && |rounds| < maxRetries
    ensures rounds == [] ==> outcome.TimedOut? && origin.now >= deadline.value
    ensures outcome.Unsafe? ==> |rounds| == maxRetries
  {
    rounds, states := [], [Logged(origin)];
    for attempt := 0 to maxRetries
      invariant |rounds| == attempt && origin.now >= old(origin.now)
      invariant Leased(states, local, lease, deadline, rounds, None, attempt < maxRetries, origin.outsideWriters)
      invariant states[0] == old(Logged(origin)) && states[attempt] == Logged(origin)
    {
      if deadline.Some? && origin.now >= deadline.value {
        return TimedOut, rounds, states;
      }
      var settled, luck := LeaseRound(origin, local, lease, attempt, attempt + 1 == maxRetries, deadline);
      LeasedOneMore(states, Logged(origin), local, lease, deadline, rounds, luck, SettledBy(settled),
                    settled.None? && attempt + 1 < maxRetries, origin.outsideWriters);
      rounds, states := rounds + [luck], states + [Logged(origin)];
      if settled.Some? {
        return settled.value, rounds, states;
      }
    }
    return Unsafe, rounds, states;
  }

  /** Pushes under the recorded lease, without refetching it first. */
  method PushWithClaimLease(origin: Origin, local: Sha, lease: Option<Sha>, maxRetries: nat, deadline: Option<int>)
    returns (outcome: Outcome, ghost rounds: seq<Luck>)
    requires maxRetries > 0
    modifies origin
    ensures origin.now >= old(origin.now)
    ensures WritesUnder(origin.writes, |old(origin.writes)|, lease, local) && old(origin.writes) <= origin.writes
    ensures old(origin.seen) <= origin.seen && old(origin.starts) <= origin.starts
    ensures outcome.Pushed? <==> Some(local) in origin.seen[|old(origin.seen)|..]
    ensures outcome.Pushed? ==> |origin.seen| > |old(origin.seen)| && origin.seen[|origin.seen| - 1] == Some(local)
    ensures outcome.Moved? ==> |origin.seen| > |old(origin.seen)| && origin.seen[|origin.seen| - 1] == outcome.observed
                               && outcome.observed !in {Some(local), lease}
    ensures |origin.starts| == |old(origin.starts)| + |rounds| <= |old(origin.starts)| + maxRetries
    ensures BeforeDeadline(origin.starts, |old(origin.starts)|, deadline)
    ensures outcome.TimedOut? ==> deadline.Some? && origin.now + RETRY_CAP >= deadline.value
    ensures rounds == [] ==> outcome.TimedOut? && origin.now >= deadline.value
    ensures outcome.Unsafe? ==> |origin.starts| == |old(origin.starts)| + maxRetries
    ensures Paced(old(origin.waits), origin.waits, |rounds|, outcome.TimedOut?)
    ensures outcome.TimedOut? ==> |rounds| < maxRetries
    ensures !outcome.Invalid?
    ensures !origin.outsideWriters ==>
              && Attempted(old(origin.head), lease, true, local, rounds) == (origin.head, Settled(outcome))
              && |origin.writes| <= |old(origin.writes)| + 1
              && (origin.writes == old(origin.writes) <==> origin.head == old(origin.head))
  {
    ghost var states;
    outcome, rounds, states := LeaseRounds(origin, local, lease, maxRetries, deadline);
    ghost var dueNext := outcome.TimedOut? && Leased(states, local, lease, deadline, rounds, None, true, origin.outsideWriters);
    LeasedInAll(states, local, lease, deadline, rounds, Settled(outcome), dueNext, origin.outsideWriters);
  }

  lemma LaterSights(first: seq<Option<Sha>>, middle: seq<Option<Sha>>, now: seq<Option<Sha>>, sight: Option<Sha>)
    requires first <= middle <= now && sight !in middle[|first|..]
    ensures sight in now[|first|..] <==> sight in now[|middle|..]
  {
    assert now[|first|..] == middle[|first|..] + now[|middle|..];
  }

  // ---- Without a recorded lease ----------------------------------------------------

  /** Every own write after the mark replaced the lease it was pushed under, and that lease had been read. */
  ghost predicate WritesObserved(writes: seq<Write>, mark: nat, seen: seq<Option<Sha>>, local: Sha) {
    && mark <= |writes|
    && forall i :: mark <= i < |writes| ==>
         writes[i].replaced == writes[i].lease && writes[i].lease in seen && writes[i].written == local
  }

  /**
   The clock in one round: when the deadline was looked at, and when the fetch had a revision to push
   under, which is when the push starts. And how much had been seen when the fetch ended.
   */
  datatype Pace = Pace(checked: int, fetched: Option<int>, seen: nat)

  lemma StartedAlone(pace: Pace)
    ensures Started([pace]) == if pace.fetched.Some? then [pace.fetched.value] else []
  {
    assert [pace][..0] == [];
  }

  /** When the pushes of these rounds start. */
  function Started(paces: seq<Pace>): (starts: seq<int>)
    ensures |starts| <= |paces|
  {
    if paces == [] then []
    else
      var last := paces[|paces| - 1];
      Started(paces[..|paces| - 1]) + if last.fetched.Some? then [last.fetched.value] else []
  }

  /** The clock never runs back, and no round is entered at or past the deadline. */
  predicate Timely(paces: seq<Pace>, deadline: Option<int>) {
    && (forall i :: 0 <= i < |paces| && paces[i].fetched.Some? ==> paces[i].checked <= paces[i].fetched.value)
    && (deadline.Some? ==> forall i :: 0 <= i < |paces| ==> paces[i].checked < deadline.value)
  }

  /** The clock reached the deadline between the check at the head of the round and the end of its fetch. */
  predicate Crossed(pace: Pace, deadline: int) {
    pace.checked < deadline && pace.fetched.Some? && deadline <= pace.fetched.value
  }

  lemma {:induction false} StartedOf(paces: seq<Pace>, start: int)
    ensures start in Started(paces) <==> exists i :: 0 <= i < |paces| && paces[i].fetched == Some(start)
  {
    if paces != [] {
      var n := |paces| - 1;
      StartedOf(paces[..n], start);
      assert forall i :: 0 <= i < n ==> paces[..n][i] == paces[i];
    }
  }

  /** Some push starts at or past the deadline exactly when the clock crossed it between a check and the end of that fetch. */
  lemma LateExactly(paces: seq<Pace>, deadline: int)
    requires Timely(paces, Some(deadline))
    ensures (exists start :: start in Started(paces) && start >= deadline)
       <==> exists i :: 0 <= i < |paces| && Crossed(paces[i], deadline)
  {
    if start :| start in Started(paces) && start >= deadline {
      StartedOf(paces, start);
    }
    if i :| 0 <= i < |paces| && Crossed(paces[i], deadline) {
      StartedOf(paces, paces[i].fetched.value);
    }
  }

  predicate NoneCrossed(paces: seq<Pace>, deadline: Option<int>) {
    deadline.Some? ==> forall i :: 0 <= i < |paces| ==> !Crossed(paces[i], deadline.value)
  }

  /** Only the last push can be late: after it no retry is waited for. */
  predicate LateAtMostLast(paces: seq<Pace>, deadline: Option<int>) {
    Timely(paces, deadline) && (paces == [] || NoneCrossed(paces[..|paces| - 1], deadline))
  }

  lemma PaceOneMore(paces: seq<Pace>, pace: Pace, deadline: Option<int>)
    requires LateAtMostLast(paces, deadline) && NoneCrossed(paces, deadline) && Timely([pace], deadline)
    ensures LateAtMostLast(paces + [pace], deadline)
    ensures NoneCrossed(paces + [pace], deadline) <==> NoneCrossed([pace], deadline)
    ensures Started(paces + [pace]) == Started(paces) + Started([pace])
  {
    var all := paces + [pace];
    assert all[..|paces|] == paces && all[|paces|] == pace && [pace][0] == pace && [pace][..0] == [];
  }

  /** All these pushes start before the deadline exactly when no round crosses it. */
  lemma InTimeExactly(before: seq<int>, paces: seq<Pace>, deadline: Option<int>)
    requires Timely(paces, deadline)
    ensures BeforeDeadline(before + Started(paces), |before|, deadline) <==> NoneCrossed(paces, deadline)
  {
    if deadline.Some? {
      LateExactly(paces, deadline.value);
      var starts := before + Started(paces);
      if NoneCrossed(paces, deadline) {
        forall i | |before| <= i < |starts|
          ensures starts[i] < deadline.value
        {
          assert starts[i] == Started(paces)[i - |before|];
          assert starts[i] in Started(paces);
        }
      } else {
        var start :| start in Started(paces) && start >= deadline.value;
        var i :| 0 <= i < |Started(paces)| && Started(paces)[i] == start;
        assert starts[|before| + i] == start;
      }
    }
  }

  /** The input: one round, checked in time, whose fetch takes until the deadline; its push lands and settles. */
  lemma LatePush(head: Option<Sha>, local: Sha, now: int, deadline: int)
    requires now < deadline
    ensures var paces := [Pace(now, Some(deadline), 1)];
      Timely(paces, Some(deadline)) && Started(paces) == [deadline] && Crossed(paces[0], deadline)
    ensures Attempted(head, None, false, local, [Luck(true, true, true, true, true)]) == (Some(local), Some(Pushed))
  {
    assert [Pace(now, Some(deadline), 1)][..0] == [];
    assert [] + [Luck(true, true, true, true, true)] == [Luck(true, true, true, true, true)];
    AttemptedOneMore(head, None, false, local, [], Luck(true, true, true, true, true));
  }

  lemma WritesOnwards(mark: nat, before: seq<Write>, now: seq<Write>, seen: seq<Option<Sha>>, later: seq<Option<Sha>>, local: Sha)
    requires mark <= |before| && before <= now && seen <= later
    requires WritesObserved(before, mark, seen, local) && WritesObserved(now, |before|, later, local)
    ensures WritesObserved(now, mark, later, local)
  {
    forall i | mark <= i < |now|
      ensures now[i].replaced == now[i].lease && now[i].lease in later && now[i].written == local
    {
      if i < |before| {
        assert now[i] == before[i];
      }
    }
  }

  /** Fetches the branch; an absent ref is confirmed by a read rather than guessed. */
  method FetchBranch(origin: Origin) returns (ok: bool, observed: Option<Sha>)
    modifies origin
    ensures origin.now >= old(origin.now) && origin.writes == old(origin.writes) && origin.starts == old(origin.starts)
    ensures old(origin.seen) <= origin.seen && origin.waits == old(origin.waits)
    ensures ok ==> observed in origin.seen
    ensures !origin.outsideWriters ==> origin.head == old(origin.head) && (ok ==> observed == origin.head)
  {
    var fetched: bool := *;
    ok, observed := origin.ReadHead();
    if !fetched && observed.Some? {
      ok := false;
    }
  }

  /** One round: what it wrote replaced what it had read, and it settled exactly when a read after its fetch showed the local revision. */
  ghost predicate RoundObserved(a: Logs, b: Logs, local: Sha, luck: Luck, pace: Pace, settled: bool, outsideWriters: bool) {
    && a.writes <= b.writes && a.seen <= b.seen && WritesObserved(b.writes, |a.writes|, b.seen, local)
    && b.starts == a.starts + Started([pace])
    && |a.seen| <= pace.seen <= |b.seen| && (settled <==> Some(local) in b.seen[pace.seen..])
    && (settled ==> |b.seen| > |a.seen| && b.seen[|b.seen| - 1] == Some(local))
    && (!outsideWriters ==> (b.head, if settled then Some(Pushed) else None) == ObservedOnce(a.head, local, luck))
  }

  /** The same of any number of rounds. */
  ghost predicate RoundsObserved(a: Logs, b: Logs, local: Sha, rounds: seq<Luck>, paces: seq<Pace>, settled: bool, outsideWriters: bool) {
    && |paces| == |rounds|
    && a.writes <= b.writes && a.seen <= b.seen && WritesObserved(b.writes, |a.writes|, b.seen, local)
    && b.starts == a.starts + Started(paces)
    && (settled <==> SeenInRound(paces, b.seen, local))
    && (settled ==> |b.seen| > |a.seen| && b.seen[|b.seen| - 1] == Some(local))
    && (!outsideWriters ==> Attempted(a.head, None, false, local, rounds) == (b.head, if settled then Some(Pushed) else None))
  }

  lemma RoundsOneMore(a: Logs, b: Logs, c: Logs, local: Sha, rounds: seq<Luck>, paces: seq<Pace>, luck: Luck, pace: Pace,
                      settled: bool, outsideWriters: bool)
    requires RoundsObserved(a, b, local, rounds, paces, false, outsideWriters)
    requires RoundObserved(b, c, local, luck, pace, settled, outsideWriters)
    ensures RoundsObserved(a, c, local, rounds + [luck], paces + [pace], settled, outsideWriters)
  {
    if !outsideWriters {
      AttemptedOneMore(a.head, None, false, local, rounds, luck);
    }
    WritesOnwards(|a.writes|, b.writes, c.writes, b.seen, c.seen, local);
    SeenOneMore(paces, pace, c.seen, local);
    StartedOneMore(paces, pace);
  }

  /** The rounds from one standing to the next, each begun in time, and a wait after each but, perhaps, the last. */
  ghost predicate Observing(states: seq<Logs>, local: Sha, deadline: Option<int>, rounds: seq<Luck>, paces: seq<Pace>,
                            settled: bool, goesOn: bool, outsideWriters: bool)
    decreases |rounds|
  {
    && |states| == |rounds| + 1 && |paces| == |rounds|
    && if rounds == [] then !settled
       else
         var n := |rounds| - 1;
         && Observing(states[..n + 1], local, deadline, rounds[..n], paces[..n], false, true, outsideWriters)
         && RoundObserved(states[n], states[n + 1], local, rounds[n], paces[n], settled, outsideWriters)
         && Timely([paces[n]], deadline) && (goesOn ==> NoneCrossed([paces[n]], deadline))
         && WaitedOnce(states[n].waits, states[n + 1].waits, n, goesOn)
  }

  lemma ObservingOneMore(states: seq<Logs>, next: Logs, local: Sha, deadline: Option<int>, rounds: seq<Luck>, paces: seq<Pace>,
                         luck: Luck, pace: Pace, settled: bool, goesOn: bool, outsideWriters: bool)
    requires Observing(states, local, deadline, rounds, paces, false, true, outsideWriters)
    requires RoundObserved(states[|rounds|], next, local, luck, pace, settled, outsideWriters)
    requires Timely([pace], deadline) && (goesOn ==> NoneCrossed([pace], deadline))
    requires WaitedOnce(states[|rounds|].waits, next.waits, |rounds|, goesOn)
    ensures Observing(states + [next], local, deadline, rounds + [luck], paces + [pace], settled, goesOn, outsideWriters)
  {
    var n, all, more, times := |rounds|, states + [next], rounds + [luck], paces + [pace];
    assert all[..n + 1] == states && more[..n] == rounds && times[..n] == paces;
    assert all[n] == states[n] && all[n + 1] == next && more[n] == luck && times[n] == pace;
    assert RoundObserved(all[n], all[n + 1], local, more[n], times[n], settled, outsideWriters);
  }

  lemma {:induction false} ObservedInAll(states: seq<Logs>, local: Sha, deadline: Option<int>, rounds: seq<Luck>, paces: seq<Pace>,
                                         settled: bool, goesOn: bool, outsideWriters: bool)
    requires Observing(states, local, deadline, rounds, paces, settled, goesOn, outsideWriters)
    ensures RoundsObserved(states[0], states[|rounds|], local, rounds, paces, settled, outsideWriters)
    ensures LateAtMostLast(paces, deadline) && (goesOn || rounds == [] ==> NoneCrossed(paces, deadline))
    ensures Waited(states[0].waits, states[|rounds|].waits, if goesOn || rounds == [] then |rounds| else |rounds| - 1)
    decreases |rounds|
  {
    if rounds != [] {
      var n := |rounds| - 1;
      ObservedInAll(states[..n + 1], local, deadline, rounds[..n], paces[..n], false, true, outsideWriters);
      assert rounds[..n] + [rounds[n]] == rounds && paces[..n] + [paces[n]] == paces;
      RoundsOneMore(states[0], states[n], states[n + 1], local, rounds[..n], paces[..n], rounds[n], paces[n], settled, outsideWriters);
      PaceOneMore(paces[..n], paces[n], deadline);
      WaitedOneMore(states[0].waits, states[n].waits, states[n + 1].waits, n, goesOn);
    }
  }

  /** One round under the revision observed right before the push. */
  method PushObservedOnce(origin: Origin, local: Sha) returns (settled: bool, ghost luck: Luck, ghost pace: Pace)
    modifies origin
    ensures origin.now >= old(origin.now) == pace.checked
    ensures pace.fetched.Some? ==> pace.checked <= pace.fetched.value <= origin.now
    ensures origin.waits == old(origin.waits) && origin.starts == old(origin.starts) + Started([pace])
    ensures old(origin.writes) <= origin.writes && old(origin.seen) <= origin.seen
    ensures WritesObserved(origin.writes, |old(origin.writes)|, origin.seen, local)
    ensures |old(origin.seen)| <= pace.seen <= |origin.seen| && (settled <==> Some(local) in origin.seen[pace.seen..])
    ensures settled ==> |origin.seen| > |old(origin.seen)| && origin.seen[|origin.seen| - 1] == Some(local)
    ensures !origin.outsideWriters ==>
              (origin.head, if settled then Some(Pushed) else None) == ObservedOnce(old(origin.head), local, luck)
  {
    pace := Pace(origin.now, None, 0);
    StartedAlone(pace);
    var fetched, observed := FetchBranch(origin);
    pace := pace.(seen := |origin.seen|);
    if fetched {
      pace := pace.(fetched := Some(origin.now));
      StartedAlone(pace);
      var outcome;
      outcome, luck := PushOnce(origin, local, observed);
      return outcome == Some(Pushed), luck, pace;
    }
    var readable, current := origin.ReadHead();
    luck := Luck(false, false, false, false, readable);
    return readable && current == Some(local), luck, pace;
  }

  /** The last round saw the local revision after its fetch. */
  predicate SeenInRound(paces: seq<Pace>, seen: seq<Option<Sha>>, local: Sha) {
    && paces != [] && paces[|paces| - 1].seen <= |seen|
    && Some(local) in seen[paces[|paces| - 1].seen..]
  }

  lemma SeenOneMore(paces: seq<Pace>, pace: Pace, seen: seq<Option<Sha>>, local: Sha)
    requires pace.seen <= |seen|
    ensures SeenInRound(paces + [pace], seen, local) <==> Some(local) in seen[pace.seen..]
  {
  }

  lemma StartedOneMore(paces: seq<Pace>, pace: Pace)
    ensures Started(paces + [pace]) == Started(paces) + Started([pace])
  {
    assert (paces + [pace])[..|paces|] == paces && [pace][..0] == [];
  }

  /** One round with the wait that follows an unsettled one unless it is the last; None goes on. */
  method ObservedRound(origin: Origin, local: Sha, attempt: nat, last: bool, deadline: Option<int>)
    returns (outcome: Option<Outcome>, ghost luck: Luck, ghost pace: Pace)
    requires deadline.Some? ==> origin.now < deadline.value
    modifies origin
    ensures origin.now >= old(origin.now)
    ensures outcome in {None, Some(Pushed), Some(TimedOut)} && (last ==> outcome != Some(TimedOut))
    ensures outcome == Some(TimedOut) ==> deadline.Some? && origin.now + RETRY_CAP >= deadline.value
    ensures WaitedOnce(old(origin.waits), origin.waits, attempt, outcome.None? && !last)
    ensures Timely([pace], deadline) && (outcome.None? && !last ==> NoneCrossed([pace], deadline))
    ensures RoundObserved(old(Logged(origin)), Logged(origin), local, luck, pace, outcome == Some(Pushed), origin.outsideWriters)
  {
    var settled;
    settled, luck, pace := PushObservedOnce(origin, local);
    if settled {
      return Some(Pushed), luck, pace;
    }
    if !last {
      var ok := RetryDelay(origin, attempt, deadline);
      if !ok {
        return Some(TimedOut), luck, pace;
      }
    }
    return None, luck, pace;
  }

  /** Round after round until one settles it, the time is up, or none is left. */
  method ObservedRounds(origin: Origin, local: Sha, maxRetries: nat, deadline: Option<int>)
    returns (outcome: Outcome, ghost rounds: seq<Luck>, ghost paces: seq<Pace>, ghost states: seq<Logs>)
    requires maxRetries > 0
    modifies origin
    ensures origin.now >= old(origin.now) && |rounds| <= maxRetries
    ensures outcome in {Pushed, TimedOut, Unsafe}
    ensures Observing(states, local, deadline, rounds, paces, outcome.Pushed?, false, origin.outsideWriters)
         || (outcome.TimedOut? && Observing(states, local, deadline, rounds, paces, false, true, origin.outsideWriters))
    ensures states[0] == old(Logged(origin)) && states[|rounds|] == Logged(origin)
    ensures outcome.TimedOut? ==> deadline.Some? && origin.now + RETRY_CAP >= deadline.value && |rounds| < maxRetries
    ensures rounds == [] ==> outcome.TimedOut? && origin.now >= deadline.value
    ensures outcome.Unsafe? ==> |rounds| == maxRetries
  {
    rounds, paces, states := [], [], [Logged(origin)];
    for attempt := 0 to maxRetries
      invariant |rounds| == attempt && origin.now >= old(origin.now)
      invariant Observing(states, local, deadline, rounds, paces, false, attempt < maxRetries, origin.outsideWriters)
      invariant states[0] == old(Logged(origin)) && states[attempt] == Logged(origin)
    {
      if deadline.Some? && origin.now >= deadline.value {
        return TimedOut, rounds, paces, states;
      }
      var settled, luck, pace := ObservedRound(origin, local, attempt, attempt + 1 == maxRetries, deadline);
      ObservingOneMore(states, Logged(origin), local, deadline, rounds, paces, luck, pace, settled == Some(Pushed),
                       settled.None? && attempt + 1 < maxRetries, origin.outsideWriters);
      rounds, paces, states := rounds + [luck], paces + [pace], states + [Logged(origin)];
      if settled.Some? {
        return settled.value, rounds, paces, states;
      }
    }
    return Unsafe, rounds, paces, states;
  }

  /**
   Checkpoints written before the lease existed push under the revision observed right before each push.
   The pushes start when the fetches end, whatever the deadline: see LateExactly.
   */
  method PushObserved(origin: Origin, local: Sha, maxRetries: nat, deadline: Option<int>)
    returns (outcome: Outcome, ghost rounds: seq<Luck>, ghost paces: seq<Pace>)
    requires maxRetries > 0
    modifies origin
    ensures origin.now >= old(origin.now)
    ensures old(origin.writes) <= origin.writes && old(origin.seen) <= origin.seen
    ensures WritesObserved(origin.writes, |old(origin.writes)|, origin.seen, local)
    ensures outcome.Pushed? ==> |origin.seen| > |old(origin.seen)| && origin.seen[|origin.seen| - 1] == Some(local)
    ensures origin.starts == old(origin.starts) + Started(paces) && |paces| == |rounds| <= maxRetries
    ensures BeforeDeadline(origin.starts, |old(origin.starts)|, deadline) <==> NoneCrossed(paces, deadline)
    ensures LateAtMostLast(paces, deadline)
    ensures outcome in {Pushed, TimedOut, Unsafe}
    ensures outcome.Pushed? <==> SeenInRound(paces, origin.seen, local)
    ensures outcome.TimedOut? ==> deadline.Some? && origin.now + RETRY_CAP >= deadline.value && |rounds| < maxRetries
    ensures outcome.Unsafe? ==> |rounds| == maxRetries
    ensures Paced(old(origin.waits), origin.waits, |rounds|, outcome.TimedOut?)
    ensures rounds == [] ==> outcome.TimedOut? && origin.now >= deadline.value
    ensures !origin.outsideWriters ==>
              Attempted(old(origin.head), None, false, local, rounds) == (origin.head, Settled(outcome))
  {
    ghost var states;
    outcome, rounds, paces, states := ObservedRounds(origin, local, maxRetries, deadline);
    ghost var dueNext := outcome.TimedOut? && Observing(states, local, deadline, rounds, paces, false, true, origin.outsideWriters);
    ObservedInAll(states, local, deadline, rounds, paces, outcome.Pushed?, dueNext, origin.outsideWriters);
    InTimeExactly(old(origin.starts), paces, deadline);
  }

  predicate IsRevision(revision: Option<Sha>) {
    revision.Some? ==> NonBlank(revision.value) && NoSpace(revision.value)
  }

  /** Pushes under the recorded lease when one is known, and under the observed revision otherwise. */
  method PushAttemptBranch(origin: Origin, local: Sha, lease: Option<Sha>, leaseKnown: bool, maxRetries: int, deadline: Option<int>)
    returns (outcome: Outcome, ghost rounds: seq<Luck>, ghost paces: seq<Pace>)
    modifies origin
    ensures origin.now >= old(origin.now)
    ensures outcome.Invalid? <==> maxRetries <= 0 || (leaseKnown && !IsRevision(lease))
    ensures outcome.Invalid? ==> origin.writes == old(origin.writes) && origin.starts == old(origin.starts)
    ensures outcome.Invalid? ==> origin.waits == old(origin.waits)
    ensures !outcome.Invalid? ==> Paced(old(origin.waits), origin.waits, |rounds|, outcome.TimedOut?)
    ensures outcome.TimedOut? ==> |rounds| < maxRetries
    ensures old(origin.writes) <= origin.writes && old(origin.seen) <= origin.seen && old(origin.starts) <= origin.starts
    ensures outcome.Pushed? ==> |origin.seen| > |old(origin.seen)| && origin.seen[|origin.seen| - 1] == Some(local)
    ensures outcome.Moved? ==> leaseKnown && |origin.seen| > |old(origin.seen)|
                               && origin.seen[|origin.seen| - 1] == outcome.observed && outcome.observed !in {Some(local), lease}
    ensures leaseKnown && !outcome.Invalid? ==> (outcome.Pushed? <==> Some(local) in origin.seen[|old(origin.seen)|..])
    ensures !leaseKnown && !outcome.Invalid? ==> (outcome.Pushed? <==> SeenInRound(paces, origin.seen, local))
    ensures outcome.TimedOut? ==> deadline.Some? && origin.now + RETRY_CAP >= deadline.value
    ensures rounds == [] && !outcome.Invalid? ==> outcome.TimedOut? && origin.now >= deadline.value
    ensures leaseKnown ==> WritesUnder(origin.writes, |old(origin.writes)|, lease, local)
    ensures !leaseKnown ==> WritesObserved(origin.writes, |old(origin.writes)|, origin.seen, local)
    ensures |origin.starts| <= |old(origin.starts)| + if maxRetries > 0 then maxRetries else 0
    ensures leaseKnown ==> BeforeDeadline(origin.starts, |old(origin.starts)|, deadline)
    ensures !leaseKnown ==> origin.starts == old(origin.starts) + Started(paces) && |paces| == |rounds|
    ensures !leaseKnown ==> LateAtMostLast(paces, deadline)
    ensures !leaseKnown ==> (BeforeDeadline(origin.starts, |old(origin.starts)|, deadline) <==> NoneCrossed(paces, deadline))
    ensures !origin.outsideWriters ==>
              Attempted(old(origin.head), if leaseKnown then lease else None, leaseKnown, local, rounds)
              == (origin.head, Settled(outcome))
  {
    if maxRetries <= 0 || (leaseKnown && !IsRevision(lease)) {
      return Invalid, [], [];
    }
    paces := [];
    if leaseKnown {
      outcome, rounds := PushWithClaimLease(origin, local, lease, maxRetries, deadline);
    } else {
      outcome, rounds, paces := PushObserved(origin, local, maxRetries, deadline);
    }
  }
}
