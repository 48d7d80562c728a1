/**
 The pull requests of one attempt branch. A lookup sees open ones only, anyone may merge or close one
 between two calls, a created one may land while its reply is lost, and a lookup may fail.
 */
module PullRequests {
  datatype Pulls = Pulls(open: nat, closed: nat)

  function Created(p: Pulls): nat {
    p.open + p.closed
  }

  /** Some of the open ones are merged or closed. */
  function Close(p: Pulls, n: nat): (r: Pulls)
    ensures Created(r) == Created(p) && r.open <= p.open && r.closed >= p.closed
  {
    if n <= p.open then Pulls(p.open - n, p.closed + n) else Pulls(0, p.closed + p.open)
  }

  /** What happens around one lookup: closings before it, and whether it can be read. */
  datatype Look = Look(closes: nat, readable: bool)

  /** What happens around one create and the lookup after a failed one. */
  datatype Round = Round(closes: nat, landed: bool, replied: bool, again: Look)

  datatype Status = Going | Settled | Broken

  function Looked(p: Pulls, look: Look): (Pulls, Status) {
    var q := Close(p, look.closes);
    (q, if !look.readable then Broken else if q.open > 0 then Settled else Going)
  }

  function Rounded(p: Pulls, round: Round): (Pulls, Status) {
    var q := Close(p, round.closes);
    var r := if round.landed then q.(open := q.open + 1) else q;
    if round.landed && round.replied then (r, Settled) else Looked(r, round.again)
  }

  /** One pass of find-then-create: rounds go on while nothing open is found and nothing is confirmed. */
  function Ensured(p: Pulls, look: Look, rounds: seq<Round>): (Pulls, Status) {
    if rounds == [] then Looked(p, look)
    else
      var (q, status) := Ensured(p, look, rounds[..|rounds| - 1]);
      if status == Going then Rounded(q, rounds[|rounds| - 1]) else (q, status)
  }

  lemma EnsuredOneMore(p: Pulls, look: Look, rounds: seq<Round>, round: Round)
    requires Ensured(p, look, rounds).1 == Going
    ensures Ensured(p, look, rounds + [round]) == Rounded(Ensured(p, look, rounds).0, round)
  {
    assert (rounds + [round])[..|rounds|] == rounds;
  }

  /** How many creates of the pass landed. */
  function Made(p: Pulls, look: Look, rounds: seq<Round>): nat {
    if rounds == [] then 0
    else
      var init := rounds[..|rounds| - 1];
      Made(p, look, init) + if Ensured(p, look, init).1 == Going && rounds[|rounds| - 1].landed then 1 else 0
  }

  /** The pass found no open pull request at its lookup, and could read that. */
  predicate FoundNone(p: Pulls, look: Look) {
    Looked(p, look).1 == Going
  }

  /**
   A pass goes on only while nothing is open, so it never opens a second one, counts every create,
   and creates nothing when its lookup finds an open one or cannot be read.
   */
  lemma {:induction false} PassKeeps(p: Pulls, look: Look, rounds: seq<Round>)
    ensures var (q, status) := Ensured(p, look, rounds);
      && (status == Going ==> q.open == 0)
      && (status == Settled ==> q.open > 0)
      && (p.open <= 1 ==> q.open <= 1)
      && Created(q) == Created(p) + Made(p, look, rounds) && q.closed >= p.closed
      && (!FoundNone(p, look) ==> Made(p, look, rounds) == 0 && (q, status) == Looked(p, look))
      && Made(p, look, rounds) <= (q.closed - p.closed) + (if p.open == 0 then 1 else 0)
      && (p.open > 0 && q.open == 0 ==> q.closed > p.closed)
      && (p.open <= 1 && q.open > 0 && Made(p, look, rounds) > 0 ==> q.closed - p.closed == p.open + Made(p, look, rounds) - 1)
  {
    if rounds != [] {
      PassKeeps(p, look, rounds[..|rounds| - 1]);
    }
  }

  /** Nothing fails: every call is read, lands and is answered. */
  predicate Faultless(look: Look, rounds: seq<Round>) {
    look.readable && rounds != [] && forall i :: 0 <= i < |rounds| ==> rounds[i].landed && rounds[i].replied
  }

  /** A pass without failures creates exactly when nothing was open at its lookup, and then exactly one. */
  lemma {:induction false} FaultlessPass(p: Pulls, look: Look, rounds: seq<Round>)
    requires Faultless(look, rounds)
    ensures Made(p, look, rounds) == if FoundNone(p, look) then 1 else 0
    ensures Ensured(p, look, rounds).1 == Settled
  {
    var init := rounds[..|rounds| - 1];
    if init != [] {
      FaultlessPass(p, look, init);
    }
  }

  // ---- Any number of passes ------------------------------------------------------------

  /** One pass, with the closings since the pass before counted in its lookup. */
  datatype Pass = Pass(look: Look, rounds: seq<Round>)

  function Passed(p: Pulls, passes: seq<Pass>): Pulls {
    if passes == [] then p
    else
      var last := passes[|passes| - 1];
      Ensured(Passed(p, passes[..|passes| - 1]), last.look, last.rounds).0
  }

  /** These passes were made, and some closings followed. */
  ghost predicate Follows(before: Pulls, after: Pulls, passes: seq<Pass>) {
    exists n: nat :: after == Close(Passed(before, passes), n)
  }

  /** Never a second open pull request, and none disappears but by being closed. */
  predicate PullsKept(before: Pulls, after: Pulls) {
    before.closed <= after.closed && Created(before) <= Created(after) && (before.open <= 1 ==> after.open <= 1)
  }

  lemma {:induction false} FollowsKeeps(before: Pulls, after: Pulls, passes: seq<Pass>)
    requires Follows(before, after, passes)
    ensures PullsKept(before, after)
    decreases |passes|
  {
    if passes != [] {
      var init, last := passes[..|passes| - 1], passes[|passes| - 1];
      var middle := Passed(before, init);
      assert middle == Close(middle, 0);
      FollowsKeeps(before, middle, init);
      PassKeeps(middle, last.look, last.rounds);
    }
  }

  lemma {:induction false} EnsuredAfterClosings(p: Pulls, n: nat, look: Look, rounds: seq<Round>)
    ensures Ensured(Close(p, n), look, rounds) == Ensured(p, look.(closes := n + look.closes), rounds)
  {
    if rounds != [] {
      EnsuredAfterClosings(p, n, look, rounds[..|rounds| - 1]);
    }
  }

  /** A further pass, or none: closings before it count in its lookup. */
  function Joined(passes: seq<Pass>, n: nat, more: seq<Pass>): (r: seq<Pass>)
    requires |more| <= 1
    ensures |r| == |passes| + |more|
  {
    if more == [] then passes else passes + [more[0].(look := more[0].look.(closes := n + more[0].look.closes))]
  }

  /** Passes that follow one another are the passes of one history. */
  lemma FollowsOnwards(a: Pulls, b: Pulls, c: Pulls, passes: seq<Pass>, more: seq<Pass>) returns (all: seq<Pass>)
    requires Follows(a, b, passes) && Follows(b, c, more) && |more| <= 1
    ensures Follows(a, c, all) && |all| == |passes| + |more|
  {
    var n: nat :| b == Close(Passed(a, passes), n);
    var m: nat :| c == Close(Passed(b, more), m);
    all := Joined(passes, n, more);
    if more == [] {
      assert c == Close(Passed(a, passes), n + m);
    } else {
      PassedOneMore(b, [], more[0]);
      assert [] + [more[0]] == more;
      EnsuredAfterClosings(Passed(a, passes), n, more[0].look, more[0].rounds);
      PassedOneMore(a, passes, all[|passes|]);
      assert all == passes + [all[|passes|]];
      assert c == Close(Passed(a, all), m);
    }
  }

  /** Whether pass i found none open at its lookup. */
  predicate Missed(p: Pulls, passes: seq<Pass>, i: nat)
    requires i < |passes|
  {
    FoundNone(Passed(p, passes[..i]), passes[i].look)
  }

  function Misses(p: Pulls, passes: seq<Pass>): nat {
    if passes == [] then 0
    else
      var n := |passes| - 1;
      Misses(p, passes[..n]) + if Missed(p, passes, n) then 1 else 0
  }

  /**
   Whatever fails and whoever closes what: two are never open at once, and every create beyond the
   first is matched by a pull request that was closed before it.
   */
  lemma {:induction false} NeverTwoOpen(p: Pulls, passes: seq<Pass>)
    requires p.open <= 1
    ensures var q := Passed(p, passes);
      && q.open <= 1
      && q.closed >= p.closed
      && Created(p) <= Created(q) <= Created(p) + (q.closed - p.closed) + (1 - p.open)
      && (q.closed == p.closed && q.open == p.open ==> q == p)
  {
    if passes != [] {
      var init, last := passes[..|passes| - 1], passes[|passes| - 1];
      NeverTwoOpen(p, init);
      PassKeeps(Passed(p, init), last.look, last.rounds);
    }
  }

  /**
   Without failing calls, the pull requests created are exactly the passes whose lookup found none
   open: the first, and every later one whose predecessor's was no longer open.
   */
  lemma {:induction false} CreatedExactly(p: Pulls, passes: seq<Pass>)
    requires p.open <= 1 && forall i :: 0 <= i < |passes| ==> Faultless(passes[i].look, passes[i].rounds)
    ensures Created(Passed(p, passes)) == Created(p) + Misses(p, passes)
  {
    if passes != [] {
      var n := |passes| - 1;
      CreatedExactly(p, passes[..n]);
      FaultlessPass(Passed(p, passes[..n]), passes[n].look, passes[n].rounds);
      PassKeeps(Passed(p, passes[..n]), passes[n].look, passes[n].rounds);
    }
  }

  /** Nothing landed, and after every create it could be seen that nothing is open. */
  predicate AllSeenFailing(rounds: seq<Round>) {
    forall k :: 0 <= k < |rounds| ==> !rounds[k].landed && rounds[k].again.readable
  }

  /** Round j is the first whose create lands, and the pass comes to it. */
  predicate FirstLanding(rounds: seq<Round>, j: int) {
    0 <= j < |rounds| && rounds[j].landed && AllSeenFailing(rounds[..j])
  }

  lemma {:induction false} GoingUnmade(p: Pulls, look: Look, rounds: seq<Round>)
    ensures Ensured(p, look, rounds).1 == Going && Made(p, look, rounds) == 0 <==> FoundNone(p, look) && AllSeenFailing(rounds)
  {
    if rounds != [] {
      var n := |rounds| - 1;
      GoingUnmade(p, look, rounds[..n]);
      PassKeeps(p, look, rounds[..n]);
      assert AllSeenFailing(rounds) <==> AllSeenFailing(rounds[..n]) && !rounds[n].landed && rounds[n].again.readable by {
        assert forall k :: 0 <= k < n ==> rounds[..n][k] == rounds[k];
      }
    }
  }

  /** Whatever fails, a pass creates exactly when its lookup found none open and it came to a create that landed. */
  lemma {:induction false} MadeExactly(p: Pulls, look: Look, rounds: seq<Round>)
    ensures Made(p, look, rounds) > 0 <==> FoundNone(p, look) && exists j :: FirstLanding(rounds, j)
  {
    if rounds != [] {
      var n := |rounds| - 1;
      var init := rounds[..n];
      MadeExactly(p, look, init);
      GoingUnmade(p, look, init);
      PassKeeps(p, look, rounds);
      forall j
        ensures FirstLanding(rounds, j) <==> FirstLanding(init, j) || (j == n && rounds[n].landed && AllSeenFailing(init))
      {
        if 0 <= j < n {
          assert init[..j] == rounds[..j];
        }
      }
      if FoundNone(p, look) && rounds[n].landed && AllSeenFailing(init) {
        assert FirstLanding(rounds, n);
      }
      if j :| FirstLanding(init, j) {
        assert FirstLanding(rounds, j);
      }
    }
  }

  /**
   A pass whose lookup can be read misses exactly when none was open before it or the open one was
   closed until it; after a pass that settled only the latter is possible. Whatever failed before.
   */
  lemma MissedExactly(p: Pulls, passes: seq<Pass>, i: nat)
    requires p.open <= 1 && i < |passes| && passes[i].look.readable
    ensures Missed(p, passes, i) <==> Passed(p, passes[..i]).open == 0 || passes[i].look.closes > 0
    ensures i > 0 && Ensured(Passed(p, passes[..i - 1]), passes[i - 1].look, passes[i - 1].rounds).1 == Settled ==>
              (Missed(p, passes, i) <==> passes[i].look.closes > 0)
  {
    NeverTwoOpen(p, passes[..i]);
    if i > 0 {
      assert passes[..i][..i - 1] == passes[..i - 1] && passes[..i][i - 1] == passes[i - 1];
      PassKeeps(Passed(p, passes[..i - 1]), passes[i - 1].look, passes[i - 1].rounds);
    }
  }

  const QUIET: Round := Round(0, true, true, Look(0, true))

  lemma QuietPass(p: Pulls, closes: nat)
    ensures var q := Close(p, closes);
      Ensured(p, Look(closes, true), [QUIET]).0 == if q.open > 0 then q else q.(open := 1)
  {
    assert [QUIET][..0] == [];
    assert Ensured(p, Look(closes, true), []) == Looked(p, Look(closes, true));
  }

  lemma PassedOneMore(p: Pulls, passes: seq<Pass>, pass: Pass)
    ensures Passed(p, passes + [pass]) == Ensured(Passed(p, passes), pass.look, pass.rounds).0
  {
    assert (passes + [pass])[..|passes|] == passes;
  }

  /** The input: the first pass creates one, it is merged, and the replay creates another. */
  lemma MergedThenCreatedAgain(p: Pulls)
    requires p.open == 0
    ensures Passed(p, [Pass(Look(0, true), [QUIET])] + [Pass(Look(1, true), [QUIET])]) == Pulls(1, p.closed + 1)
  {
    var first, second := Pass(Look(0, true), [QUIET]), Pass(Look(1, true), [QUIET]);
    assert [] + [first] == [first];
    PassedOneMore(p, [], first);
    PassedOneMore(p, [first], second);
    QuietPass(p, 0);
    QuietPass(Passed(p, [first]), 1);
  }
}
