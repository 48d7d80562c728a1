/**
 The pushes of one attempt while nobody else writes its branch: what becomes of the origin and the
 recorded lease when replies are lost, and exactly when the attempt is told that its branch moved.
 */
module PushHistory {
  import opened Prelude
  import opened PushLoop

  /** One push of `local`: under the recorded lease or an observed one, and whether the lease then advanced. */
  datatype Pass = Pass(local: Sha, known: bool, rounds: seq<Luck>, advanced: bool)

  /** The ref at the origin, and the lease in the checkpoint. */
  datatype Book = Book(head: Option<Sha>, lease: Option<Sha>)

  function Tried(b: Book, p: Pass): (Option<Sha>, Option<Outcome>) {
    Attempted(b.head, if p.known then b.lease else None, p.known, p.local, p.rounds)
  }

  /** A push that returned normally makes its revision the lease, if the checkpoint can be written. */
  function After(b: Book, p: Pass): Book {
    var (head, outcome) := Tried(b, p);
    Book(head, if outcome == Some(Pushed) && p.advanced then Some(p.local) else b.lease)
  }

  function Run(b: Book, passes: seq<Pass>): Book {
    if passes == [] then b else After(Run(b, passes[..|passes| - 1]), passes[|passes| - 1])
  }

  /** Pass i was told that the branch moved. */
  predicate MovedAt(b: Book, passes: seq<Pass>, i: int)
    requires 0 <= i < |passes|
  {
    Tried(Run(b, passes[..i]), passes[i]).1.Some? && Tried(Run(b, passes[..i]), passes[i]).1.value.Moved?
  }

  predicate AnyMoved(b: Book, passes: seq<Pass>) {
    exists i :: 0 <= i < |passes| && MovedAt(b, passes, i)
  }

  /** One pass more, or none. */
  lemma RunOnwards(b: Book, passes: seq<Pass>, more: seq<Pass>)
    requires |more| <= 1
    ensures Run(b, passes + more) == Run(Run(b, passes), more)
    ensures AnyMoved(b, passes + more) <==> AnyMoved(b, passes) || AnyMoved(Run(b, passes), more)
  {
    var all := passes + more;
    assert forall i :: 0 <= i < |passes| ==> all[..i] == passes[..i] && all[i] == passes[i];
    assert forall i :: 0 <= i < |passes| ==> MovedAt(b, all, i) == MovedAt(b, passes, i);
    if more == [] {
      assert all == passes;
    } else {
      assert all[..|passes|] == passes && all[|passes|] == more[0] && more[..0] == [];
      assert Run(Run(b, passes), []) == Run(b, passes);
      assert MovedAt(b, all, |passes|) == MovedAt(Run(b, passes), more, 0);
    }
  }

  // ---- One push ---------------------------------------------------------------------

  lemma OnceMoves(head: Option<Sha>, lease: Option<Sha>, local: Sha, luck: Luck)
    ensures var (after, outcome) := PushedOnce(head, lease, local, luck);
      && after in {head, Some(local)} && (after != head ==> head == lease)
      && (outcome == Some(Pushed) ==> after == Some(local) && head in {lease, Some(local)})
      && (outcome.Some? && outcome.value.Moved? ==> after == head && head !in {lease, Some(local)})
      && (outcome.Some? ==> outcome.value.Pushed? || outcome.value.Moved?)
  {
  }

  /** A whole push writes at most its own revision, and a settled one is told of a move exactly when it may not swap. */
  lemma {:induction false} PassMoves(head: Option<Sha>, lease: Option<Sha>, known: bool, local: Sha, rounds: seq<Luck>)
    ensures var (after, outcome) := Attempted(head, lease, known, local, rounds);
      && after in {head, Some(local)} && (known && after != head ==> head == lease)
      && (outcome == Some(Pushed) ==> after == Some(local) && (known ==> head in {lease, Some(local)}))
      && (outcome.Some? && outcome.value.Moved? ==> known && after == head && head !in {lease, Some(local)})
      && (outcome.Some? ==> outcome.value.Pushed? || outcome.value.Moved?)
  {
    if rounds != [] {
      var init, luck := rounds[..|rounds| - 1], rounds[|rounds| - 1];
      PassMoves(head, lease, known, local, init);
      var before := Attempted(head, lease, known, local, init).0;
      OnceMoves(before, lease, local, luck);
      OnceMoves(before, before, local, luck);
    }
  }

  // ---- What settles a whole push ------------------------------------------------------

  /** The reads of this round show the ref. */
  predicate Sees(luck: Luck) {
    luck.readable || (luck.delivered && luck.replied && luck.checked)
  }

  /** Under this lease the ref stands at the local revision when round i ends. */
  predicate ThereBy(head: Option<Sha>, lease: Option<Sha>, local: Sha, rounds: seq<Luck>, i: int) {
    head == Some(local) || (head == lease && exists j :: 0 <= j <= i < |rounds| && rounds[j].delivered)
  }

  predicate SeenAt(head: Option<Sha>, lease: Option<Sha>, local: Sha, rounds: seq<Luck>, i: int) {
    0 <= i < |rounds| && ThereBy(head, lease, local, rounds, i) && Sees(rounds[i])
  }

  predicate ReadAt(rounds: seq<Luck>, i: int) {
    0 <= i < |rounds| && rounds[i].readable
  }

  predicate AnyDelivered(rounds: seq<Luck>) {
    exists j :: 0 <= j < |rounds| && rounds[j].delivered
  }

  lemma {:induction false} UnsettledHead(head: Option<Sha>, lease: Option<Sha>, local: Sha, rounds: seq<Luck>)
    requires Attempted(head, lease, true, local, rounds).1.None?
    ensures Attempted(head, lease, true, local, rounds).0
         == if head == lease && AnyDelivered(rounds) then Some(local) else head
  {
    if rounds != [] {
      var n := |rounds| - 1;
      UnsettledHead(head, lease, local, rounds[..n]);
      assert AnyDelivered(rounds) <==> AnyDelivered(rounds[..n]) || rounds[n].delivered by {
        assert forall j :: 0 <= j < n ==> rounds[..n][j] == rounds[j];
      }
    }
  }

  lemma RoundsBefore(head: Option<Sha>, lease: Option<Sha>, local: Sha, rounds: seq<Luck>)
    requires rounds != []
    ensures var n := |rounds| - 1;
      && ((exists i :: SeenAt(head, lease, local, rounds, i)) <==>
            (exists i :: SeenAt(head, lease, local, rounds[..n], i)) || SeenAt(head, lease, local, rounds, n))
      && ((exists i :: ReadAt(rounds, i)) <==> (exists i :: ReadAt(rounds[..n], i)) || rounds[n].readable)
      && (ThereBy(head, lease, local, rounds, n) <==>
            head == Some(local) || (head == lease && (AnyDelivered(rounds[..n]) || rounds[n].delivered)))
  {
    var n := |rounds| - 1;
    var init := rounds[..n];
    assert forall j :: 0 <= j < n ==> init[j] == rounds[j];
    forall i | 0 <= i < n
      ensures SeenAt(head, lease, local, rounds, i) <==> SeenAt(head, lease, local, init, i)
      ensures ReadAt(rounds, i) <==> ReadAt(init, i)
    {
    }
    if i :| SeenAt(head, lease, local, init, i) {
      assert SeenAt(head, lease, local, rounds, i);
    }
    if i :| ReadAt(init, i) {
      assert ReadAt(rounds, i);
    }
    if rounds[n].readable {
      assert ReadAt(rounds, n);
    }
  }

  /**
   Under a recorded lease and with nobody else writing, a push settles as pushed exactly when some
   round's reads show a ref that stood at the revision or was put there, and as moved exactly when it
   stood at neither value and some round could read that.
   */
  lemma {:induction false} SettlesExactly(head: Option<Sha>, lease: Option<Sha>, local: Sha, rounds: seq<Luck>)
    ensures Attempted(head, lease, true, local, rounds).1 == Some(Pushed) <==> exists i :: SeenAt(head, lease, local, rounds, i)
    ensures Attempted(head, lease, true, local, rounds).1 == Some(Moved(head))
       <==> head !in {lease, Some(local)} && exists i :: ReadAt(rounds, i)
    ensures Attempted(head, lease, true, local, rounds).1 in {None, Some(Pushed), Some(Moved(head))}
  {
    if rounds != [] {
      var n := |rounds| - 1;
      SettlesExactly(head, lease, local, rounds[..n]);
      RoundsBefore(head, lease, local, rounds);
      if Attempted(head, lease, true, local, rounds[..n]).1.None? {
        UnsettledHead(head, lease, local, rounds[..n]);
      }
    }
  }

  /** Without a recorded lease, when round i ends the ref stands at the local revision. */
  predicate PutBy(head: Option<Sha>, local: Sha, rounds: seq<Luck>, i: int) {
    head == Some(local) || exists j :: 0 <= j <= i < |rounds| && rounds[j].fetched && rounds[j].delivered
  }

  predicate ObservedAt(head: Option<Sha>, local: Sha, rounds: seq<Luck>, i: int) {
    && 0 <= i < |rounds| && PutBy(head, local, rounds, i)
    && if rounds[i].fetched then Sees(rounds[i]) else rounds[i].readable
  }

  predicate AnyPut(rounds: seq<Luck>) {
    exists j :: 0 <= j < |rounds| && rounds[j].fetched && rounds[j].delivered
  }

  lemma {:induction false} UnsettledObserved(head: Option<Sha>, local: Sha, rounds: seq<Luck>)
    requires Attempted(head, None, false, local, rounds).1.None?
    ensures Attempted(head, None, false, local, rounds).0 == if AnyPut(rounds) then Some(local) else head
  {
    if rounds != [] {
      var n := |rounds| - 1;
      UnsettledObserved(head, local, rounds[..n]);
      assert AnyPut(rounds) <==> AnyPut(rounds[..n]) || (rounds[n].fetched && rounds[n].delivered) by {
        assert forall j :: 0 <= j < n ==> rounds[..n][j] == rounds[j];
      }
    }
  }

  lemma ObservedBefore(head: Option<Sha>, local: Sha, rounds: seq<Luck>)
    requires rounds != []
    ensures var n := |rounds| - 1;
      && ((exists i :: ObservedAt(head, local, rounds, i)) <==>
            (exists i :: ObservedAt(head, local, rounds[..n], i)) || ObservedAt(head, local, rounds, n))
      && (PutBy(head, local, rounds, n) <==>
            head == Some(local) || AnyPut(rounds[..n]) || (rounds[n].fetched && rounds[n].delivered))
  {
    var n := |rounds| - 1;
    var init := rounds[..n];
    assert forall j :: 0 <= j < n ==> init[j] == rounds[j];
    forall i | 0 <= i < n
      ensures ObservedAt(head, local, rounds, i) <==> ObservedAt(head, local, init, i)
    {
    }
    if i :| ObservedAt(head, local, init, i) {
      assert ObservedAt(head, local, rounds, i);
    }
  }

  /** Without a recorded lease a push settles exactly when some round's reads show the revision there, and never as moved. */
  lemma {:induction false} ObservedSettlesExactly(head: Option<Sha>, local: Sha, rounds: seq<Luck>)
    ensures Attempted(head, None, false, local, rounds).1 == Some(Pushed) <==> exists i :: ObservedAt(head, local, rounds, i)
    ensures Attempted(head, None, false, local, rounds).1 in {None, Some(Pushed)}
  {
    if rounds != [] {
      var n := |rounds| - 1;
      ObservedSettlesExactly(head, local, rounds[..n]);
      ObservedBefore(head, local, rounds);
      if Attempted(head, None, false, local, rounds[..n]).1.None? {
        UnsettledObserved(head, local, rounds[..n]);
      }
    }
  }

  // ---- Histories ---------------------------------------------------------------------

  /** Pass i changed the ref: it landed. */
  predicate Landed(b: Book, passes: seq<Pass>, i: nat)
    requires i < |passes|
  {
    Run(b, passes[..i + 1]).head != Run(b, passes[..i]).head
  }

  /** No pass after pass i landed. */
  predicate LastLanding(b: Book, passes: seq<Pass>, i: nat)
    requires i < |passes|
  {
    Landed(b, passes, i) && forall j :: i < j < |passes| ==> !Landed(b, passes, j)
  }

  /** Pass j returned normally and made its revision the lease. */
  predicate Advanced(b: Book, passes: seq<Pass>, j: nat)
    requires j < |passes|
  {
    Tried(Run(b, passes[..j]), passes[j]).1 == Some(Pushed) && passes[j].advanced
  }

  lemma PrefixFacts(b: Book, passes: seq<Pass>, n: nat)
    requires n <= |passes|
    ensures forall i: nat :: i < n ==> Landed(b, passes[..n], i) == Landed(b, passes, i)
    ensures forall i: nat :: i < n ==> Advanced(b, passes[..n], i) == Advanced(b, passes, i)
  {
    forall i: nat | i < n
      ensures Landed(b, passes[..n], i) == Landed(b, passes, i) && Advanced(b, passes[..n], i) == Advanced(b, passes, i)
    {
      assert passes[..n][..i] == passes[..i] && passes[..n][..i + 1] == passes[..i + 1];
    }
  }

  lemma LastPass(b: Book, passes: seq<Pass>)
    requires passes != []
    ensures var n := |passes| - 1;
      var before, last, now := Run(b, passes[..n]), passes[n], Run(b, passes);
      && now == After(before, last)
      && (Landed(b, passes, n) <==> now.head != before.head)
      && (Advanced(b, passes, n) <==> Tried(before, last).1 == Some(Pushed) && last.advanced)
      && now.head in {before.head, Some(last.local)}
      && (last.known && now.head != before.head ==> before.head == before.lease)
      && (Tried(before, last).1 == Some(Pushed) ==> now.head == Some(last.local))
  {
    var n := |passes| - 1;
    var before, last := Run(b, passes[..n]), passes[n];
    assert passes[..n + 1] == passes;
    PassMoves(before.head, if last.known then before.lease else None, last.known, last.local, last.rounds);
  }

  /** The origin stands where the last landing put it. */
  lemma {:induction false} HeadIsLastLanding(b: Book, passes: seq<Pass>, i: nat)
    requires i < |passes| && LastLanding(b, passes, i)
    ensures Run(b, passes).head == Some(passes[i].local)
    decreases |passes|
  {
    var n := |passes| - 1;
    LastPass(b, passes);
    if i < n {
      PrefixFacts(b, passes, n);
      assert !Landed(b, passes, n);
      HeadIsLastLanding(b, passes[..n], i);
    }
  }

  lemma {:induction false} SomeLastLanding(b: Book, passes: seq<Pass>)
    ensures (forall i: nat :: i < |passes| ==> !Landed(b, passes, i)) || exists i: nat :: i < |passes| && LastLanding(b, passes, i)
    decreases |passes|
  {
    if passes != [] {
      var n := |passes| - 1;
      PrefixFacts(b, passes, n);
      SomeLastLanding(b, passes[..n]);
      if Landed(b, passes, n) {
        assert LastLanding(b, passes, n);
      } else if i: nat :| i < n && LastLanding(b, passes[..n], i) {
        assert LastLanding(b, passes, i);
      }
    }
  }

  /** Until something lands, the lease is the ref itself. */
  lemma {:induction false} LeaseFitsBeforeLanding(b: Book, passes: seq<Pass>)
    requires b.head == b.lease && forall i: nat :: i < |passes| ==> !Landed(b, passes, i)
    ensures Run(b, passes).lease == Run(b, passes).head
    decreases |passes|
  {
    if passes != [] {
      var n := |passes| - 1;
      PrefixFacts(b, passes, n);
      LeaseFitsBeforeLanding(b, passes[..n]);
      LastPass(b, passes);
      assert !Landed(b, passes, n);
    }
  }

  /**
   From a claim whose lease was the origin's ref, and with nobody else writing: a settled push under
   the recorded lease is told that the branch moved exactly when an earlier push of another revision
   landed last and the lease was not advanced to that revision.
   */
  lemma MovedExactly(claim: Book, passes: seq<Pass>, p: Pass)
    requires claim.head == claim.lease
    requires p.known && Tried(Run(claim, passes), p).1.Some?
    ensures Tried(Run(claim, passes), p).1.value.Moved?
       <==> exists i: nat :: i < |passes| && LastLanding(claim, passes, i) && passes[i].local != p.local
                             && Run(claim, passes).lease != Some(passes[i].local)
  {
    var now := Run(claim, passes);
    PassMoves(now.head, now.lease, true, p.local, p.rounds);
    SomeLastLanding(claim, passes);
    forall i: nat | i < |passes| && LastLanding(claim, passes, i)
      ensures now.head == Some(passes[i].local)
    {
      HeadIsLastLanding(claim, passes, i);
    }
    if forall i: nat :: i < |passes| ==> !Landed(claim, passes, i) {
      LeaseFitsBeforeLanding(claim, passes);
    }
  }

  /** After a landing under the recorded lease, that lease is left behind until some push advances it. */
  lemma {:induction false} LeaseBehindUntilAdvanced(b: Book, passes: seq<Pass>, i: nat)
    requires i < |passes| && passes[i].known && LastLanding(b, passes, i)
    ensures Run(b, passes).lease == Some(passes[i].local) <==> exists j: nat :: i <= j < |passes| && Advanced(b, passes, j)
    decreases |passes|
  {
    var n := |passes| - 1;
    PrefixFacts(b, passes, n);
    LastPass(b, passes);
    if i < n {
      assert !Landed(b, passes, n);
      HeadIsLastLanding(b, passes[..n], i);
      LeaseBehindUntilAdvanced(b, passes[..n], i);
      assert (exists j: nat :: i <= j < |passes| && Advanced(b, passes, j))
        <==> (exists j: nat :: i <= j < n && Advanced(b, passes[..n], j)) || Advanced(b, passes, n);
    }
  }

  /** With every lease read from the checkpoint: a move is reported exactly when the last landed push never advanced it. */
  lemma MovedExactlyUnadvanced(claim: Book, passes: seq<Pass>, p: Pass)
    requires claim.head == claim.lease && forall i :: 0 <= i < |passes| ==> passes[i].known
    requires p.known && Tried(Run(claim, passes), p).1.Some?
    ensures Tried(Run(claim, passes), p).1.value.Moved?
       <==> exists i: nat :: i < |passes| && LastLanding(claim, passes, i) && passes[i].local != p.local
                             && forall j: nat :: i <= j < |passes| ==> !Advanced(claim, passes, j)
  {
    MovedExactly(claim, passes, p);
    forall i: nat | i < |passes| && LastLanding(claim, passes, i)
      ensures Run(claim, passes).lease == Some(passes[i].local) <==> exists j: nat :: i <= j < |passes| && Advanced(claim, passes, j)
    {
      LeaseBehindUntilAdvanced(claim, passes, i);
    }
  }

  /** The recorded lease still fits the origin, whatever became of pushes of `local`. */
  predicate Sound(b: Book, local: Sha) {
    b.head in {b.lease, Some(local)}
  }

  /** Pushing one revision over and over, a lease that fits keeps fitting and nothing is told to have moved. */
  lemma {:induction false} OneRevisionNeverMoved(b: Book, passes: seq<Pass>, local: Sha)
    requires Sound(b, local) && forall i :: 0 <= i < |passes| ==> passes[i].local == local
    ensures Sound(Run(b, passes), local) && !AnyMoved(b, passes)
  {
    if passes != [] {
      var init, last := passes[..|passes| - 1], passes[|passes| - 1];
      assert passes == init + [last];
      OneRevisionNeverMoved(b, init, local);
      RunOnwards(b, init, [last]);
      LastPass(b, passes);
      var before := Run(b, init);
      PassMoves(before.head, if last.known then before.lease else None, last.known, last.local, last.rounds);
      assert [last][..0] == [] && [last][0] == last;
    }
  }

  const LOST: Luck := Luck(true, true, false, false, false)
  const READ: Luck := Luck(true, true, true, true, true)

  /** The two pushes: the first lands unseen, the second, of a new revision, is told that the branch moved. */
  lemma LandedUnseen(claim: Book, first: Sha, second: Sha)
    requires claim.head == claim.lease && first != second && claim.lease !in {Some(first), Some(second)}
    ensures var unseen, next := Pass(first, true, [LOST], false), Pass(second, true, [READ], true);
      && Tried(claim, unseen).1 == None
      && After(claim, unseen) == Book(Some(first), claim.lease)
      && Tried(After(claim, unseen), next).1 == Some(Moved(Some(first)))
  {
    assert [LOST][..0] == [] && [READ][..0] == [];
    var after := Book(Some(first), claim.lease);
    assert Attempted(claim.head, claim.lease, true, first, []) == (claim.head, None);
    assert Attempted(claim.head, claim.lease, true, first, [LOST]) == PushedOnce(claim.head, claim.lease, first, LOST);
    assert Attempted(after.head, after.lease, true, second, []) == (after.head, None);
    assert Attempted(after.head, after.lease, true, second, [READ]) == PushedOnce(after.head, after.lease, second, READ);
  }
}
