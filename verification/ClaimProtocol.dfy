/**
 Any number of Workers race to claim one issue on a shared tracker. Every remote read and
 every remote write is a step of its own, and the steps of different Workers interleave freely.

 A pool is homogeneous. Either each Worker has a distinct Worker id, and then marks its claim
 with a label of its own besides the assignment; or no Worker has an id, and then the logins are
 distinct and the assignment alone makes the claim.
 */
module ClaimProtocol {
  type Login = string
  type Worker = nat

  datatype Pool = Pool(ids: bool, logins: seq<Login>)

  predicate Homogeneous(pool: Pool) {
    pool.ids || forall v, w :: 0 <= v < |pool.logins| && 0 <= w < |pool.logins| && pool.logins[v] == pool.logins[w] ==> v == w
  }

  /** Where a Worker stands: each value names the remote operation it does next. */
  datatype Stage =
    | Idle          // may read the issue for eligibility
    | Assigning     // read it as eligible
    | Marking       // assigned its login
    | Verifying     // settled; re-reads the issue
    | Won           // verified; holds the claim until it releases
    | ReadingOwn    // yields or releases: re-reads for its own marker
    | Unmarking     // saw its own marker
    | ReadingLast   // re-reads before touching the assignment
    | Unassigning   // decided to remove the assignment

  datatype Race = Race(assignees: set<Login>, markers: set<Worker>, stages: seq<Stage>)

  predicate WellFormed(pool: Pool, r: Race) {
    |r.stages| == |pool.logins|
  }

  function Fresh(pool: Pool): Race {
    Race({}, {}, seq(|pool.logins|, _ => Idle))
  }

  /** Unassigned and unmarked: the part of the queue rules that other Workers can change. */
  predicate ReadsEligible(r: Race) {
    r.assignees == {} && r.markers == {}
  }

  /** The shared part of the issue after one Worker's operation, and where that Worker then stands. */
  datatype Effect = Effect(assignees: set<Login>, markers: set<Worker>, stage: Stage)

  /** The settle-window re-read shows another login or another Worker's marker. */
  predicate SeesOthers(pool: Pool, assignees: set<Login>, markers: set<Worker>, w: Worker)
    requires w < |pool.logins|
  {
    (exists l :: l in assignees && l != pool.logins[w]) || (pool.ids && exists v :: v in markers && v != w)
  }

  /** The next operation of Worker w from its stage. `go` resolves what the Worker decides by other means. */
  function Act(pool: Pool, assignees: set<Login>, markers: set<Worker>, w: Worker, stage: Stage, go: bool): Effect
    requires w < |pool.logins|
  {
    var login := pool.logins[w];
    match stage
    case Idle => Effect(assignees, markers, if go && assignees == {} && markers == {} then Assigning else Idle)
    case Assigning => Effect(assignees + {login}, markers, if pool.ids then Marking else Verifying)
    case Marking => Effect(assignees, markers + {w}, Verifying)
    case Verifying =>
      Effect(assignees, markers,
             if !SeesOthers(pool, assignees, markers, w) then Won else if pool.ids then ReadingOwn else Unassigning)
    case Won => Effect(assignees, markers, if !go then Won else if pool.ids then ReadingOwn else ReadingLast)
    case ReadingOwn => Effect(assignees, markers, if w in markers then Unmarking else ReadingLast)
    case Unmarking => Effect(assignees, markers - {w}, ReadingLast)
    case ReadingLast =>
      Effect(assignees, markers, if login in assignees && !(pool.ids && markers != {}) then Unassigning else Idle)
    case Unassigning => Effect(assignees - {login}, markers, Idle)
  }

  function Step(pool: Pool, r: Race, w: Worker, go: bool): Race
    requires WellFormed(pool, r) && w < |pool.logins|
  {
    var effect := Act(pool, r.assignees, r.markers, w, r.stages[w], go);
    Race(effect.assignees, effect.markers, r.stages[w := effect.stage])
  }

  /** One step of a schedule: who moves, and what it decides. A Worker that never moves again has crashed. */
  datatype Turn = Turn(worker: Worker, go: bool)

  predicate Scheduled(pool: Pool, turns: seq<Turn>) {
    forall i :: 0 <= i < |turns| ==> turns[i].worker < |pool.logins|
  }

  function Play(pool: Pool, r: Race, turns: seq<Turn>): (end: Race)
    requires WellFormed(pool, r) && Scheduled(pool, turns)
    ensures WellFormed(pool, end)
    decreases |turns|
  {
    if turns == [] then r
    else
      var before := Play(pool, r, turns[..|turns| - 1]);
      Step(pool, before, turns[|turns| - 1].worker, turns[|turns| - 1].go)
  }

  // ---- The invariant -----------------------------------------------------------

  /** The stages in which a Worker's marker is on the issue. */
  predicate Marked(stage: Stage) {
    stage in {Verifying, Won, ReadingOwn, Unmarking}
  }

  /** The stages in which a Worker without an id is assigned. */
  predicate Assigned(stage: Stage) {
    stage in {Verifying, Won, ReadingLast, Unassigning}
  }

  /** The stages in which a Worker will still read or remove the shared assignment. */
  predicate Answerable(stage: Stage) {
    stage !in {Idle, Assigning}
  }

  ghost predicate MarkersExact(pool: Pool, r: Race)
    requires WellFormed(pool, r)
  {
    && (forall w :: w in r.markers ==> pool.ids && w < |pool.logins|)
    && (pool.ids ==> forall w: Worker :: w < |pool.logins| ==> (w in r.markers <==> Marked(r.stages[w])))
  }

  ghost predicate AssigneesExact(pool: Pool, r: Race)
    requires WellFormed(pool, r)
  {
    !pool.ids ==>
      && (forall w: Worker :: w < |pool.logins| ==>
            r.stages[w] !in {Marking, ReadingOwn, Unmarking} && (pool.logins[w] in r.assignees <==> Assigned(r.stages[w])))
      && (forall l :: l in r.assignees ==> l in pool.logins)
  }

  ghost predicate OneWinner(pool: Pool, r: Race)
    requires WellFormed(pool, r)
  {
    forall v: Worker, w: Worker :: v < |pool.logins| && w < |pool.logins| && r.stages[v] == Won && r.stages[w] == Won ==> v == w
  }

  /** Every assignee is someone a Worker still in its claim or its release answers for. */
  ghost predicate AssigneesAnswered(pool: Pool, r: Race)
    requires WellFormed(pool, r)
  {
    pool.ids ==> forall l :: l in r.assignees ==> exists w: Worker :: AnswersFor(pool, r, w, l)
  }

  ghost predicate AnswersFor(pool: Pool, r: Race, w: Worker, l: Login)
    requires WellFormed(pool, r)
  {
    w < |pool.logins| && pool.logins[w] == l && Answerable(r.stages[w])
  }

  ghost predicate SharedLogin(pool: Pool) {
    forall v, w :: 0 <= v < |pool.logins| && 0 <= w < |pool.logins| ==> pool.logins[v] == pool.logins[w]
  }

  ghost predicate Inv(pool: Pool, r: Race) {
    WellFormed(pool, r) && MarkersExact(pool, r) && AssigneesExact(pool, r) && OneWinner(pool, r)
  }

  lemma FreshInv(pool: Pool)
    ensures Inv(pool, Fresh(pool)) && AssigneesAnswered(pool, Fresh(pool))
  {
  }

  /** Whoever verifies while another Worker is a winner sees that winner. */
  lemma WinnerIsSeen(pool: Pool, r: Race, v: Worker, w: Worker)
    requires Homogeneous(pool) && Inv(pool, r) && v < |pool.logins| && w < |pool.logins| && v != w
    requires r.stages[v] == Won
    ensures SeesOthers(pool, r.assignees, r.markers, w)
  {
    if pool.ids {
      assert v in r.markers;
    } else {
      assert pool.logins[v] in r.assignees;
    }
  }

  lemma StepKeepsOneWinner(pool: Pool, r: Race, w: Worker, go: bool)
    requires Homogeneous(pool) && Inv(pool, r) && w < |pool.logins|
    ensures OneWinner(pool, Step(pool, r, w, go))
  {
    forall v: Worker | v < |pool.logins| && v != w && r.stages[v] == Won
      ensures SeesOthers(pool, r.assignees, r.markers, w)
    {
      WinnerIsSeen(pool, r, v, w);
    }
  }

  lemma StepKeepsInv(pool: Pool, r: Race, w: Worker, go: bool)
    requires Homogeneous(pool) && Inv(pool, r) && w < |pool.logins|
    ensures Inv(pool, Step(pool, r, w, go))
  {
    StepKeepsOneWinner(pool, r, w, go);
    var t := Step(pool, r, w, go);
    assert MarkersExact(pool, t);
    assert AssigneesExact(pool, t) by {
      if !pool.ids {
        assert pool.logins[w] in pool.logins;
      }
    }
  }

  lemma {:induction false} PlayKeepsInv(pool: Pool, r: Race, turns: seq<Turn>)
    requires Homogeneous(pool) && Inv(pool, r) && Scheduled(pool, turns)
    ensures Inv(pool, Play(pool, r, turns))
    decreases |turns|
  {
    if turns != [] {
      PlayKeepsInv(pool, r, turns[..|turns| - 1]);
      var before := Play(pool, r, turns[..|turns| - 1]);
      StepKeepsInv(pool, before, turns[|turns| - 1].worker, turns[|turns| - 1].go);
    }
  }

  // ---- Mutual exclusion --------------------------------------------------------

  /** What makes the claim: the Worker's own marker, or its own login when no ids are used. */
  predicate HoldsClaim(pool: Pool, r: Race, w: Worker)
    requires w < |pool.logins|
  {
    if pool.ids then w in r.markers else pool.logins[w] in r.assignees
  }

  /**
   At every point of every interleaving at most one Worker is a verified, unreleased
   winner; its own claim is on the issue, and no Worker passes the eligibility read meanwhile.
   */
  lemma MutualExclusion(pool: Pool, turns: seq<Turn>, w: Worker)
    requires Homogeneous(pool) && Scheduled(pool, turns) && w < |pool.logins|
    requires Play(pool, Fresh(pool), turns).stages[w] == Won
    ensures var r := Play(pool, Fresh(pool), turns);
      && HoldsClaim(pool, r, w)
      && !ReadsEligible(r)
      && forall v: Worker :: v < |pool.logins| && v != w ==>
           r.stages[v] != Won && (forall go :: Step(pool, r, v, go).stages[v] != Won)
           && (r.stages[v] == Idle ==> forall go :: Step(pool, r, v, go) == r)
  {
    FreshInv(pool);
    PlayKeepsInv(pool, Fresh(pool), turns);
    var r := Play(pool, Fresh(pool), turns);
    assert HoldsClaim(pool, r, w);
    forall v: Worker, go: bool | v < |pool.logins| && v != w
      ensures Step(pool, r, v, go).stages[v] != Won
    {
      StepKeepsInv(pool, r, v, go);
      assert Step(pool, r, v, go).stages[w] == Won;
    }
  }

  /** A winner stays the winner, with its claim on the issue, for as long as it does not release. */
  lemma {:induction false} WinnerKeepsClaim(pool: Pool, r: Race, turns: seq<Turn>, w: Worker)
    requires Homogeneous(pool) && Inv(pool, r) && Scheduled(pool, turns) && w < |pool.logins| && r.stages[w] == Won
    requires forall i :: 0 <= i < |turns| && turns[i].worker == w ==> !turns[i].go
    ensures Play(pool, r, turns).stages[w] == Won && HoldsClaim(pool, Play(pool, r, turns), w)
    decreases |turns|
  {
    PlayKeepsInv(pool, r, turns);
    if turns != [] {
      var prefix := turns[..|turns| - 1];
      assert forall i :: 0 <= i < |prefix| ==> prefix[i] == turns[i];
      WinnerKeepsClaim(pool, r, prefix, w);
    }
  }

  // ---- Nothing is left behind --------------------------------------------------

  predicate Quiet(r: Race) {
    forall i :: 0 <= i < |r.stages| ==> r.stages[i] in {Idle, Assigning}
  }

  lemma StepKeepsAnswered(pool: Pool, r: Race, w: Worker, go: bool)
    requires Inv(pool, r) && AssigneesAnswered(pool, r) && SharedLogin(pool) && w < |pool.logins| && pool.ids
    ensures AssigneesAnswered(pool, Step(pool, r, w, go))
  {
    var t := Step(pool, r, w, go);
    forall l | l in t.assignees
      ensures exists v: Worker :: AnswersFor(pool, t, v, l)
    {
      if Answerable(t.stages[w]) {
        if l in r.assignees {
          var v: Worker :| AnswersFor(pool, r, v, l);
          assert AnswersFor(pool, t, if v == w then w else v, l);
        } else {
          assert AnswersFor(pool, t, w, l);
        }
      } else {
        var v: Worker :| AnswersFor(pool, r, v, l);
        if v == w {
          assert r.stages[w] == ReadingLast;
          var other :| other in r.markers;
          assert AnswersFor(pool, t, other, l);
        } else {
          assert AnswersFor(pool, t, v, l);
        }
      }
    }
  }

  lemma {:induction false} PlayKeepsAnswered(pool: Pool, turns: seq<Turn>)
    requires pool.ids && SharedLogin(pool) && Scheduled(pool, turns)
    ensures AssigneesAnswered(pool, Play(pool, Fresh(pool), turns)) && Inv(pool, Play(pool, Fresh(pool), turns))
    decreases |turns|
  {
    FreshInv(pool);
    PlayKeepsInv(pool, Fresh(pool), turns);
    if turns != [] {
      PlayKeepsAnswered(pool, turns[..|turns| - 1]);
      var before := Play(pool, Fresh(pool), turns[..|turns| - 1]);
      StepKeepsAnswered(pool, before, turns[|turns| - 1].worker, turns[|turns| - 1].go);
    }
  }

  /** Once every Worker that raced has finished, no marker and no assignment is left behind. */
  ghost predicate NeverStrands(pool: Pool) {
    forall turns: seq<Turn> :: Scheduled(pool, turns) && Quiet(Play(pool, Fresh(pool), turns)) ==>
      ReadsEligible(Play(pool, Fresh(pool), turns))
  }

  /** In a pool without ids every assignee is some Worker's login, and a quiet Worker has left. */
  lemma QuietLeavesNoLogin(pool: Pool, r: Race)
    requires !pool.ids && Inv(pool, r) && Quiet(r)
    ensures r.assignees == {}
  {
    forall l
      ensures l !in r.assignees
    {
    }
  }

  lemma SharedLoginNeverStrands(pool: Pool)
    requires Homogeneous(pool) && (pool.ids ==> SharedLogin(pool))
    ensures NeverStrands(pool)
  {
    forall turns: seq<Turn> | Scheduled(pool, turns) && Quiet(Play(pool, Fresh(pool), turns))
      ensures ReadsEligible(Play(pool, Fresh(pool), turns))
    {
      FreshInv(pool);
      PlayKeepsInv(pool, Fresh(pool), turns);
      var r := Play(pool, Fresh(pool), turns);
      forall w: Worker
        ensures w !in r.markers
      {
        assert w < |pool.logins| ==> !Marked(r.stages[w]);
      }
      if pool.ids {
        PlayKeepsAnswered(pool, turns);
        forall l
          ensures l !in r.assignees
        {
          assert forall w: Worker :: !AnswersFor(pool, r, w, l);
        }
      } else {
        QuietLeavesNoLogin(pool, r);
      }
      assert r.assignees == {} && r.markers == {};
    }
  }

  // ---- Which pools never strand an issue, exactly -------------------------------

  lemma PlayMore(pool: Pool, r: Race, turns: seq<Turn>, turn: Turn)
    requires WellFormed(pool, r) && Scheduled(pool, turns) && turn.worker < |pool.logins|
    ensures Scheduled(pool, turns + [turn])
    ensures Play(pool, r, turns + [turn]) == Step(pool, Play(pool, r, turns), turn.worker, turn.go)
  {
    assert (turns + [turn])[..|turns + [turn]| - 1] == turns;
  }

  /** The race in which two Workers stand as given and everyone else is idle. */
  function Pair(pool: Pool, assignees: set<Login>, markers: set<Worker>, v: Worker, a: Stage, w: Worker, b: Stage): Race
    requires v < |pool.logins| && w < |pool.logins|
  {
    Race(assignees, markers, Fresh(pool).stages[v := a][w := b])
  }

  ghost predicate Reaches(pool: Pool, turns: seq<Turn>, r: Race) {
    Scheduled(pool, turns) && Play(pool, Fresh(pool), turns) == r
  }

  /** The first of two Workers does its next operation. */
  lemma FirstActs(pool: Pool, turns: seq<Turn>, assignees: set<Login>, markers: set<Worker>,
                  v: Worker, a: Stage, w: Worker, b: Stage, effect: Effect) returns (longer: seq<Turn>)
    requires v < |pool.logins| && w < |pool.logins| && v != w
    requires Reaches(pool, turns, Pair(pool, assignees, markers, v, a, w, b))
    requires Act(pool, assignees, markers, v, a, true) == effect
    ensures Reaches(pool, longer, Pair(pool, effect.assignees, effect.markers, v, effect.stage, w, b))
  {
    longer := turns + [Turn(v, true)];
    PlayMore(pool, Fresh(pool), turns, Turn(v, true));
    assert Fresh(pool).stages[v := a][w := b][v := effect.stage] == Fresh(pool).stages[v := effect.stage][w := b];
  }

  /** The second of two Workers does its next operation. */
  lemma SecondActs(pool: Pool, turns: seq<Turn>, assignees: set<Login>, markers: set<Worker>,
                   v: Worker, a: Stage, w: Worker, b: Stage, effect: Effect) returns (longer: seq<Turn>)
    requires v < |pool.logins| && w < |pool.logins| && v != w
    requires Reaches(pool, turns, Pair(pool, assignees, markers, v, a, w, b))
    requires Act(pool, assignees, markers, w, b, true) == effect
    ensures Reaches(pool, longer, Pair(pool, effect.assignees, effect.markers, v, a, w, effect.stage))
  {
    longer := turns + [Turn(w, true)];
    PlayMore(pool, Fresh(pool), turns, Turn(w, true));
    assert Fresh(pool).stages[v := a][w := b][w := effect.stage] == Fresh(pool).stages[v := a][w := effect.stage];
  }

  /** Two Workers read the issue as eligible before either one assigns. */
  lemma BothEligible(pool: Pool, v: Worker, w: Worker) returns (turns: seq<Turn>)
    requires v < |pool.logins| && w < |pool.logins| && v != w
    ensures Reaches(pool, turns, Pair(pool, {}, {}, v, Assigning, w, Assigning))
  {
    assert Fresh(pool) == Pair(pool, {}, {}, v, Idle, w, Idle) by {
      assert Fresh(pool).stages == Fresh(pool).stages[v := Idle][w := Idle];
    }
    assert Reaches(pool, [], Fresh(pool));
    turns := FirstActs(pool, [], {}, {}, v, Idle, w, Idle, Effect({}, {}, Assigning));
    turns := SecondActs(pool, turns, {}, {}, v, Assigning, w, Idle, Effect({}, {}, Assigning));
  }

  /** With Worker ids and two different logins, the first loser leaves its own assignment to a Worker that only removes its own. */
  lemma StrandingRun(pool: Pool, v: Worker, w: Worker) returns (turns: seq<Turn>)
    requires pool.ids && v < |pool.logins| && w < |pool.logins| && v != w
    requires pool.logins[v] != pool.logins[w]
    ensures Reaches(pool, turns, Pair(pool, {pool.logins[v]}, {}, v, Idle, w, Idle))
  {
    var a, b := pool.logins[v], pool.logins[w];
    turns := BothEligible(pool, v, w);
    turns := FirstActs(pool, turns, {}, {}, v, Assigning, w, Assigning, Effect({a}, {}, Marking));
    turns := FirstActs(pool, turns, {a}, {}, v, Marking, w, Assigning, Effect({a}, {v}, Verifying));
    turns := SecondActs(pool, turns, {a}, {v}, v, Verifying, w, Assigning, Effect({a, b}, {v}, Marking));
    turns := SecondActs(pool, turns, {a, b}, {v}, v, Verifying, w, Marking, Effect({a, b}, {v, w}, Verifying));
    turns := FirstActs(pool, turns, {a, b}, {v, w}, v, Verifying, w, Verifying, Effect({a, b}, {v, w}, ReadingOwn));
    turns := FirstActs(pool, turns, {a, b}, {v, w}, v, ReadingOwn, w, Verifying, Effect({a, b}, {v, w}, Unmarking));
    turns := FirstActs(pool, turns, {a, b}, {v, w}, v, Unmarking, w, Verifying, Effect({a, b}, {w}, ReadingLast));
    turns := FirstActs(pool, turns, {a, b}, {w}, v, ReadingLast, w, Verifying, Effect({a, b}, {w}, Idle));
    turns := SecondActs(pool, turns, {a, b}, {w}, v, Idle, w, Verifying, Effect({a, b}, {w}, ReadingOwn));
    turns := SecondActs(pool, turns, {a, b}, {w}, v, Idle, w, ReadingOwn, Effect({a, b}, {w}, Unmarking));
    turns := SecondActs(pool, turns, {a, b}, {w}, v, Idle, w, Unmarking, Effect({a, b}, {}, ReadingLast));
    turns := SecondActs(pool, turns, {a, b}, {}, v, Idle, w, ReadingLast, Effect({a, b}, {}, Unassigning));
    turns := SecondActs(pool, turns, {a, b}, {}, v, Idle, w, Unassigning, Effect({a}, {}, Idle));
  }

  /** With one shared login, a releasing Worker that saw no marker removes the assignment of a Worker that won in between. */
  lemma StrippingRun(pool: Pool, v: Worker, w: Worker) returns (turns: seq<Turn>)
    requires pool.ids && v < |pool.logins| && w < |pool.logins| && v != w
    requires pool.logins[v] == pool.logins[w]
    ensures Reaches(pool, turns, Pair(pool, {}, {w}, v, Idle, w, Won))
  {
    var a, b := pool.logins[v], pool.logins[w];
    turns := BothEligible(pool, v, w);
    turns := FirstActs(pool, turns, {}, {}, v, Assigning, w, Assigning, Effect({a}, {}, Marking));
    turns := FirstActs(pool, turns, {a}, {}, v, Marking, w, Assigning, Effect({a}, {v}, Verifying));
    turns := FirstActs(pool, turns, {a}, {v}, v, Verifying, w, Assigning, Effect({a}, {v}, Won));
    turns := FirstActs(pool, turns, {a}, {v}, v, Won, w, Assigning, Effect({a}, {v}, ReadingOwn));
    turns := FirstActs(pool, turns, {a}, {v}, v, ReadingOwn, w, Assigning, Effect({a}, {v}, Unmarking));
    turns := FirstActs(pool, turns, {a}, {v}, v, Unmarking, w, Assigning, Effect({a}, {}, ReadingLast));
    turns := FirstActs(pool, turns, {a}, {}, v, ReadingLast, w, Assigning, Effect({a}, {}, Unassigning));
    turns := SecondActs(pool, turns, {a}, {}, v, Unassigning, w, Assigning, Effect({a}, {}, Marking));
    turns := SecondActs(pool, turns, {a}, {}, v, Unassigning, w, Marking, Effect({a}, {w}, Verifying));
    turns := SecondActs(pool, turns, {a}, {w}, v, Unassigning, w, Verifying, Effect({a}, {w}, Won));
    turns := FirstActs(pool, turns, {a}, {w}, v, Unassigning, w, Won, Effect({}, {w}, Idle));
  }

  /** Marker pools strand no issue exactly when all their Workers share one login. */
  lemma NeverStrandsExactly(pool: Pool)
    requires pool.ids
    ensures NeverStrands(pool) <==> SharedLogin(pool)
  {
    if SharedLogin(pool) {
      SharedLoginNeverStrands(pool);
    } else {
      var v, w :| 0 <= v < |pool.logins| && 0 <= w < |pool.logins| && pool.logins[v] != pool.logins[w];
      var turns := StrandingRun(pool, v, w);
      var r := Play(pool, Fresh(pool), turns);
      assert Quiet(r) && pool.logins[v] in r.assignees;
    }
  }

  /** At every point of every interleaving a winner is still assigned. */
  ghost predicate WinnersStayAssigned(pool: Pool) {
    forall turns: seq<Turn>, w: Worker ::
      Scheduled(pool, turns) && w < |pool.logins| && Play(pool, Fresh(pool), turns).stages[w] == Won ==>
      pool.logins[w] in Play(pool, Fresh(pool), turns).assignees
  }

  predicate DistinctLogins(pool: Pool) {
    forall v, w :: 0 <= v < |pool.logins| && 0 <= w < |pool.logins| && pool.logins[v] == pool.logins[w] ==> v == w
  }

  /** A Worker with a login of its own stays assigned from its assignment until it removes it. */
  ghost predicate OwnAssignment(pool: Pool, r: Race)
    requires WellFormed(pool, r)
  {
    forall w: Worker :: w < |pool.logins| && Answerable(r.stages[w]) && r.stages[w] != ReadingLast ==> pool.logins[w] in r.assignees
  }

  lemma {:induction false} OwnAssignmentHolds(pool: Pool, turns: seq<Turn>)
    requires DistinctLogins(pool) && Scheduled(pool, turns)
    ensures OwnAssignment(pool, Play(pool, Fresh(pool), turns))
    decreases |turns|
  {
    if turns != [] {
      OwnAssignmentHolds(pool, turns[..|turns| - 1]);
    }
  }

  /** Marker pools keep every winner assigned exactly when no two of their Workers share a login. */
  lemma WinnersStayAssignedExactly(pool: Pool)
    requires pool.ids
    ensures WinnersStayAssigned(pool) <==> DistinctLogins(pool)
  {
    if DistinctLogins(pool) {
      forall turns: seq<Turn>, w: Worker |
        Scheduled(pool, turns) && w < |pool.logins| && Play(pool, Fresh(pool), turns).stages[w] == Won
        ensures pool.logins[w] in Play(pool, Fresh(pool), turns).assignees
      {
        OwnAssignmentHolds(pool, turns);
      }
    } else {
      var v, w :| 0 <= v < |pool.logins| && 0 <= w < |pool.logins| && pool.logins[v] == pool.logins[w] && v != w;
      var turns := StrippingRun(pool, v, w);
      assert Play(pool, Fresh(pool), turns).stages[w] == Won;
    }
  }

  // ---- Every Worker finishes ----------------------------------------------------

  /** An upper bound on the operations a Worker still does before it is idle. */
  function Left(stage: Stage): nat {
    match stage
    case Idle => 0
    case Assigning => 8
    case Marking => 7
    case Verifying => 6
    case Won => 5
    case ReadingOwn => 4
    case Unmarking => 3
    case ReadingLast => 2
    case Unassigning => 1
  }

  function TotalLeft(stages: seq<Stage>): nat {
    if stages == [] then 0 else Left(stages[0]) + TotalLeft(stages[1..])
  }

  lemma {:induction false} TotalAfterMove(stages: seq<Stage>, w: nat, stage: Stage)
    requires w < |stages|
    ensures TotalLeft(stages[w := stage]) == TotalLeft(stages) - Left(stages[w]) + Left(stage)
  {
    if w == 0 {
      assert stages[0 := stage][1..] == stages[1..];
    } else {
      assert stages[w := stage][1..] == stages[1..][w - 1 := stage];
      TotalAfterMove(stages[1..], w - 1, stage);
    }
  }

  /** Every turn goes to a Worker in the middle of a claim or a release, and a winner releases. */
  ghost predicate NoNewClaims(pool: Pool, r: Race, turns: seq<Turn>)
    requires WellFormed(pool, r) && Scheduled(pool, turns)
    decreases |turns|
  {
    turns == [] ||
    (var prefix, last := turns[..|turns| - 1], turns[|turns| - 1];
     NoNewClaims(pool, r, prefix) && last.go && Play(pool, r, prefix).stages[last.worker] != Idle)
  }

  /** Without new claims a race takes a bounded number of operations, whatever the interleaving. */
  lemma {:induction false} RaceEnds(pool: Pool, r: Race, turns: seq<Turn>)
    requires WellFormed(pool, r) && Scheduled(pool, turns) && NoNewClaims(pool, r, turns)
    ensures TotalLeft(Play(pool, r, turns).stages) + |turns| <= TotalLeft(r.stages)
    decreases |turns|
  {
    if turns != [] {
      var prefix, last := turns[..|turns| - 1], turns[|turns| - 1];
      RaceEnds(pool, r, prefix);
      var before := Play(pool, r, prefix);
      var after := Step(pool, before, last.worker, last.go);
      TotalAfterMove(before.stages, last.worker, after.stages[last.worker]);
      assert after.stages == before.stages[last.worker := after.stages[last.worker]];
    }
  }

  // ---- One Worker on its own -----------------------------------------------------

  /** A Worker's next operation, with everyone else standing still. */
  lemma ActsAlone(pool: Pool, r: Race, turns: seq<Turn>, w: Worker, before: Effect, go: bool, after: Effect)
    returns (longer: seq<Turn>)
    requires WellFormed(pool, r) && w < |pool.logins| && Alone(pool, turns, w)
    requires Play(pool, r, turns) == Race(before.assignees, before.markers, r.stages[w := before.stage])
    requires Act(pool, before.assignees, before.markers, w, before.stage, go) == after
    ensures longer == turns + [Turn(w, go)] && Alone(pool, longer, w)
    ensures Play(pool, r, longer) == Race(after.assignees, after.markers, r.stages[w := after.stage])
  {
    longer := turns + [Turn(w, go)];
    PlayMore(pool, r, turns, Turn(w, go));
    assert r.stages[w := before.stage][w := after.stage] == r.stages[w := after.stage];
  }

  /** Only this Worker moves. */
  predicate Alone(pool: Pool, turns: seq<Turn>, w: Worker)
    requires w < |pool.logins|
  {
    forall i :: 0 <= i < |turns| ==> turns[i].worker == w
  }

  /** A Worker that finds the issue free and meets nobody wins it, with its login and its marker on the issue. */
  lemma UncontestedWins(pool: Pool, r: Race, w: Worker) returns (turns: seq<Turn>)
    requires WellFormed(pool, r) && w < |pool.logins|
    requires r.stages[w] == Idle && r.assignees == {} && r.markers == {}
    ensures Alone(pool, turns, w) && |turns| == (if pool.ids then 4 else 3)
    ensures Play(pool, r, turns) == Race({pool.logins[w]}, if pool.ids then {w} else {}, r.stages[w := Won])
  {
    var mine := {pool.logins[w]};
    assert r.stages[w := Idle] == r.stages;
    turns := ActsAlone(pool, r, [], w, Effect({}, {}, Idle), true, Effect({}, {}, Assigning));
    if pool.ids {
      turns := ActsAlone(pool, r, turns, w, Effect({}, {}, Assigning), true, Effect(mine, {}, Marking));
      turns := ActsAlone(pool, r, turns, w, Effect(mine, {}, Marking), true, Effect(mine, {w}, Verifying));
      turns := ActsAlone(pool, r, turns, w, Effect(mine, {w}, Verifying), true, Effect(mine, {w}, Won));
    } else {
      turns := ActsAlone(pool, r, turns, w, Effect({}, {}, Assigning), true, Effect(mine, {}, Verifying));
      turns := ActsAlone(pool, r, turns, w, Effect(mine, {}, Verifying), true, Effect(mine, {}, Won));
    }
  }

  /** What a withdrawal leaves: the own marker is gone, and the own login too unless another marker remains. */
  function Withdrawn(pool: Pool, r: Race, w: Worker): Race
    requires WellFormed(pool, r) && w < |pool.logins|
  {
    Race(if r.markers - {w} == {} then r.assignees - {pool.logins[w]} else r.assignees, r.markers - {w}, r.stages[w := Idle])
  }

  /** Reading for the own marker, removing it if it is there, and then the login if no marker remains. */
  lemma GivesBack(pool: Pool, r: Race, prior: seq<Turn>, w: Worker) returns (turns: seq<Turn>)
    requires pool.ids && WellFormed(pool, r) && w < |pool.logins| && Alone(pool, prior, w)
    requires Play(pool, r, prior) == Race(r.assignees, r.markers, r.stages[w := ReadingOwn])
    ensures Alone(pool, turns, w) && |turns| <= |prior| + 4 && Play(pool, r, turns) == Withdrawn(pool, r, w)
  {
    var a, m, rest := r.assignees, r.markers, r.markers - {w};
    if w in m {
      turns := ActsAlone(pool, r, prior, w, Effect(a, m, ReadingOwn), true, Effect(a, m, Unmarking));
      turns := ActsAlone(pool, r, turns, w, Effect(a, m, Unmarking), true, Effect(a, rest, ReadingLast));
    } else {
      assert m == rest;
      turns := ActsAlone(pool, r, prior, w, Effect(a, m, ReadingOwn), true, Effect(a, rest, ReadingLast));
    }
    turns := LooksLast(pool, r, turns, w, rest);
  }

  /** The last read of a release, and the unassignment if it is called for. */
  lemma LooksLast(pool: Pool, r: Race, prior: seq<Turn>, w: Worker, rest: set<Worker>) returns (turns: seq<Turn>)
    requires WellFormed(pool, r) && w < |pool.logins| && Alone(pool, prior, w)
    requires rest == r.markers - {w} && (pool.ids || rest == {})
    requires Play(pool, r, prior) == Race(r.assignees, rest, r.stages[w := ReadingLast])
    ensures Alone(pool, turns, w) && |turns| <= |prior| + 2 && Play(pool, r, turns) == Withdrawn(pool, r, w)
  {
    var a, mine := r.assignees, pool.logins[w];
    if mine in a && rest == {} {
      turns := ActsAlone(pool, r, prior, w, Effect(a, rest, ReadingLast), true, Effect(a, rest, Unassigning));
      turns := ActsAlone(pool, r, turns, w, Effect(a, rest, Unassigning), true, Effect(a - {mine}, rest, Idle));
    } else {
      assert rest == {} ==> a - {mine} == a;
      turns := ActsAlone(pool, r, prior, w, Effect(a, rest, ReadingLast), true, Effect(a, rest, Idle));
    }
  }

  /**
   In any reachable race, a Worker whose re-read shows another login or another marker withdraws by its own
   next operations, as does a winner that releases; and a re-read that shows neither makes it a winner.
   */
  lemma VerifiesOrWithdraws(pool: Pool, r: Race, w: Worker) returns (turns: seq<Turn>)
    requires Homogeneous(pool) && Inv(pool, r) && w < |pool.logins| && (r.stages[w] == Verifying || r.stages[w] == Won)
    ensures Alone(pool, turns, w) && |turns| <= 5
    ensures r.stages[w] == Verifying && r.assignees <= {pool.logins[w]} && r.markers <= {w}
            ==> |turns| == 1 && Play(pool, r, turns) == r.(stages := r.stages[w := Won])
    ensures r.stages[w] == Won || !(r.assignees <= {pool.logins[w]} && r.markers <= {w})
            ==> Play(pool, r, turns) == Withdrawn(pool, r, w)
  {
    var a, m, stage := r.assignees, r.markers, r.stages[w];
    assert r.stages[w := stage] == r.stages;
    if !pool.ids {
      assert m == {};
    }
    SeesOthersExactly(pool, a, m, w);
    if stage == Verifying && !SeesOthers(pool, a, m, w) {
      turns := ActsAlone(pool, r, [], w, Effect(a, m, Verifying), true, Effect(a, m, Won));
    } else if pool.ids {
      turns := ActsAlone(pool, r, [], w, Effect(a, m, stage), true, Effect(a, m, ReadingOwn));
      turns := GivesBack(pool, r, turns, w);
    } else if stage == Won {
      turns := ActsAlone(pool, r, [], w, Effect(a, m, Won), true, Effect(a, m, ReadingLast));
      turns := LooksLast(pool, r, turns, w, m);
    } else {
      turns := ActsAlone(pool, r, [], w, Effect(a, m, Verifying), true, Effect(a, m, Unassigning));
      turns := ActsAlone(pool, r, turns, w, Effect(a, m, Unassigning), true, Effect(a - {pool.logins[w]}, m, Idle));
    }
  }

  lemma SeesOthersExactly(pool: Pool, assignees: set<Login>, markers: set<Worker>, w: Worker)
    requires w < |pool.logins| && (pool.ids || markers == {})
    ensures SeesOthers(pool, assignees, markers, w) <==> !(assignees <= {pool.logins[w]} && markers <= {w})
  {
  }
}
