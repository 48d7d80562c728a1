/**
 Stop-after accounting: the counted rows of every stop-after command match its
 acknowledgement in every reachable state, and the claims admitted while a countdown is
 pending are exactly the attempts it has counted or is about to count.
 */
module ControlCounts {
  import opened Prelude
  import opened ControlModel
  import opened ControlInvariant
  import opened ControlRuns
  import opened ControlLog

  // ---- Steps that count nothing ----------------------------------------------

  /** No attempt is counted, plans only end by being superseded, and a new countdown starts full. */
  ghost predicate CountsNothing(s: State, t: State) {
    && t.counted == s.counted
    && RowsKept(s.commands, t.commands)
    && (forall id :: id in t.commands && t.commands[id].kind == StopAfter ==>
          if id in s.commands then t.commands[id].ack in {s.commands[id].ack, Superseded}
          else t.commands[id].ack == Accepted)
    && (t.countdown.Some? && t.pending.Some? ==>
          if t.pending.value in s.commands
          then s.pending == t.pending && s.countdown == t.countdown
          else t.countdown.value.remaining == t.countdown.value.requested)
  }

  lemma NobodyCounted(s: State, id: RequestId)
    requires CountsMatch(s) && id !in s.commands
    ensures CountedFor(s, id) == {}
  {
  }

  lemma PlanCountKept(s: State, t: State, id: RequestId, before: Mode, after: Mode)
    requires Consistent(s, before) && Consistent(t, after) && CountsMatch(s) && CountsNothing(s, t)
    requires id in t.commands && t.commands[id].kind == StopAfter
    ensures PlanCount(t, id)
  {
    assert CountedFor(t, id) == CountedFor(s, id);
    if t.commands[id].ack == Accepted {
      assert Waiting(t, id);
    } else if id in s.commands {
      assert SameRow(s.commands[id], t.commands[id]);
      assert PlanCount(s, id);
    }
  }

  lemma CountsKept(s: State, t: State, before: Mode, after: Mode)
    requires Consistent(s, before) && Consistent(t, after) && CountsMatch(s) && CountsNothing(s, t)
    ensures CountsMatch(t)
  {
    forall id | id in t.commands && t.commands[id].kind == StopAfter
      ensures PlanCount(t, id)
    {
      PlanCountKept(s, t, id, before, after);
    }
    forall a | a in t.counted
      ensures t.counted[a].plan in t.commands && t.commands[t.counted[a].plan].kind == StopAfter
    {
      assert SameRow(s.commands[s.counted[a].plan], t.commands[s.counted[a].plan]);
    }
    if t.countdown.Some? {
      var plan := t.pending.value;
      assert CountedFor(t, plan) == CountedFor(s, plan);
      if plan !in s.commands {
        NobodyCounted(s, plan);
      }
    }
  }

  lemma NewRowCountsNothing(s: State, id: RequestId, kind: Kind, payload: Payload, ack: Acknowledgement)
    requires CountdownMatches(s) && kind != StopAfter && id !in s.commands
    ensures CountsNothing(s, Record(s, id, kind, payload, ack).next)
  {
    var t := Record(s, id, kind, payload, ack).next;
    forall other | other in t.commands && t.commands[other].kind == StopAfter
      ensures other in s.commands && t.commands[other] == s.commands[other]
    {
    }
  }

  lemma JoiningCountsNothing(s: State, id: RequestId)
    requires CountdownMatches(s) && id !in s.commands
    ensures CountsNothing(s, Record(JoinStopping(s, id), id, Stop, NoArguments, Accepted).next)
  {
  }

  lemma StopCountsNothing(s: State, id: RequestId, mode: Mode)
    requires Consistent(s, mode)
    ensures CountsNothing(s, SubmitStop(s, id, Active(mode).Some?).next)
  {
    if WellFormedId(id) && id !in s.commands {
      match s.intake
      case Stopped => NewRowCountsNothing(s, id, Stop, NoArguments, Completed);
      case Stopping => JoiningCountsNothing(s, id);
      case Running => RunningPlansCleared(s, mode);
    }
  }

  lemma ResumeCountsNothing(s: State, id: RequestId, held: bool)
    requires CountdownMatches(s)
    ensures CountsNothing(s, SubmitResume(s, id, held).next)
  {
  }

  lemma StopAfterCountsNothing(s: State, id: RequestId, count: int, mode: Mode)
    requires CountdownMatches(s)
    ensures CountsNothing(s, SubmitStopAfter(s, id, count, Active(mode).Some?, Active(mode)).next)
  {
  }

  lemma HandoffCountsNothing(s: State, id: RequestId, mode: Mode, held: bool)
    requires CountdownMatches(s)
    ensures CountsNothing(s, SubmitHandoff(s, id, Active(mode).Some?, held).next)
  {
  }

  lemma ResolvingCountsNothing(s: State, id: RequestId, ack: Acknowledgement)
    requires CountdownMatches(s)
    requires id in s.commands ==> s.commands[id].kind == Handoff
    ensures CountsNothing(s, ResolveHandoff(s, id, ack))
  {
  }

  lemma NextIssueCountsNothing(s: State, id: RequestId, number: int)
    requires CountdownMatches(s) && SlotMatches(s)
    ensures CountsNothing(s, SubmitNextIssue(s, id, number).next)
  {
  }

  lemma ClearingCountsNothing(s: State, ack: Acknowledgement)
    requires CountdownMatches(s) && SlotMatches(s)
    ensures CountsNothing(s, ClearPriority(s, ack))
  {
  }

  lemma RowCountsNothing(s: State, id: RequestId, kind: Kind, payload: Payload, ack: Acknowledgement)
    requires CountdownMatches(s) && kind != StopAfter
    ensures CountsNothing(s, SubmitRow(s, id, kind, payload, ack).next)
  {
    if WellFormedId(id) && id !in s.commands {
      NewRowCountsNothing(s, id, kind, payload, ack);
    }
  }

  // ---- The step that counts --------------------------------------------------

  lemma CountOneMore(s: State, attempt: AttemptId, outcome: string, plan: RequestId)
    requires attempt !in s.counted
    ensures var t := s.(counted := s.counted[attempt := Counted(plan, outcome)]);
      && |CountedFor(t, plan)| == |CountedFor(s, plan)| + 1
      && forall id :: id != plan ==> CountedFor(t, id) == CountedFor(s, id)
  {
    var t := s.(counted := s.counted[attempt := Counted(plan, outcome)]);
    assert CountedFor(t, plan) == CountedFor(s, plan) + {attempt};
    forall id | id != plan
      ensures CountedFor(t, id) == CountedFor(s, id)
    {
    }
  }

  lemma CountingMatches(s: State, attempt: AttemptId, outcome: string, mode: Mode)
    requires Consistent(s, mode) && CountsMatch(s) && attempt !in s.counted && s.countdown.Some?
    ensures CountsMatch(RecordFinalized(s, attempt, outcome))
  {
    var plan := s.pending.value;
    CountOneMore(s, attempt, outcome, plan);
    var t := RecordFinalized(s, attempt, outcome);
    forall id | id in t.commands && t.commands[id].kind == StopAfter
      ensures PlanCount(t, id)
    {
      assert PlanCount(s, id);
      assert CountedFor(t, id) == CountedFor(s.(counted := s.counted[attempt := Counted(plan, outcome)]), id);
    }
    assert CountedFor(t, plan) == CountedFor(s.(counted := s.counted[attempt := Counted(plan, outcome)]), plan);
  }

  // ---- The whole invariant ---------------------------------------------------

  /** The step reports an attempt that was not counted yet while a countdown is pending. */
  predicate CountsNow(sys: System, op: Op) {
    && (op.Count? || op.Recount?) && Active(sys.mode).Some?
    && sys.mode.attempt !in sys.store.counted && sys.store.countdown.Some?
  }

  lemma ReportCountsNothing(s: State, attempt: AttemptId, outcome: string, mode: Mode)
    requires Consistent(s, mode) && (attempt in s.counted || s.countdown.None?)
    ensures CountsNothing(s, RecordFinalized(s, attempt, outcome))
  {
  }

  lemma TrackedCountsNothing(s: State, ack: Acknowledgement, mode: Mode)
    requires Consistent(s, mode)
    ensures CountsNothing(s, ResolveTracked(s, ack))
  {
    if s.handoff.request.Some? {
      ResolvingCountsNothing(s, s.handoff.request.value, ack);
    }
  }

  lemma PolledCountsNothing(s: State)
    requires Consistent(s, Idle)
    ensures CountsNothing(s, Polled(s))
  {
    TrackedCountsNothing(s, NotFulfilled, Idle);
    ResolveTrackedKeeps(s, NotFulfilled, Idle);
  }

  /** Every step that does not count an attempt counts nothing. */
  lemma OtherStepsCountNothing(sys: System, op: Op)
    requires Inv(sys) && Enabled(sys, op) && !CountsNow(sys, op)
    ensures CountsNothing(sys.store, Step(sys, op).store)
  {
    var s, mode := sys.store, sys.mode;
    match op
    case StopCommand(id) => StopCountsNothing(s, id, mode);
    case ResumeCommand(id, held) => ResumeCountsNothing(s, id, held);
    case StopAfterCommand(id, count) => StopAfterCountsNothing(s, id, count, mode);
    case HandoffCommand(id, held) => HandoffCountsNothing(s, id, mode, held);
    case NextIssueCommand(id, number) => NextIssueCountsNothing(s, id, number);
    case RetryCommand(id, attempt) => RowCountsNothing(s, id, RecoveryRetry, Attempt(attempt), Accepted);
    case ReleaseCommand(id, attempt, at) => RowCountsNothing(s, id, RecoveryRelease, Secured(attempt, at), Accepted);
    case ErrorsResetCommand(id) => RowCountsNothing(s, id, ErrorsReset, NoArguments, Completed);
    case EndHandoff(id, ack) => ResolvingCountsNothing(s, id, ack);
    case TakePriority(number) => ClearingCountsNothing(s, Completed);
    case DropPriority => ClearingCountsNothing(s, NotFulfilled);
    case Count(outcome) => ReportCountsNothing(s, mode.attempt, outcome, mode);
    case Recount(outcome) => ReportCountsNothing(s, mode.attempt, outcome, mode);
    case SettleHandoff(fulfilled) =>
      if fulfilled.Some? {
        TrackedCountsNothing(s, Outcome(fulfilled.value), mode);
      }
    case IdlePoll => PolledCountsNothing(s);
    case _ =>
  }

  lemma CountingKeepsFresh(sys: System, op: Op)
    requires Inv(sys) && Enabled(sys, op) && CountsNow(sys, op)
    ensures FreshActive(Step(sys, op))
  {
  }

  lemma OtherStepsKeepFresh(sys: System, op: Op)
    requires FreshActive(sys) && Enabled(sys, op) && Step(sys, op).store.counted == sys.store.counted
    ensures FreshActive(Step(sys, op))
  {
  }

  lemma StepKeepsInv(sys: System, op: Op)
    requires Inv(sys) && Enabled(sys, op)
    ensures Inv(Step(sys, op))
  {
    StepKeepsConsistent(sys, op);
    if CountsNow(sys, op) {
      CountingKeepsFresh(sys, op);
      CountingMatches(sys.store, sys.mode.attempt, op.outcome, sys.mode);
    } else {
      OtherStepsCountNothing(sys, op);
      OtherStepsKeepFresh(sys, op);
      CountsKept(sys.store, Step(sys, op).store, sys.mode, Step(sys, op).mode);
    }
  }

  lemma StartInv()
    ensures Inv(START)
  {
  }

  /** Every reachable state is consistent and its counted rows match its commands. */
  lemma {:induction false} RunKeepsInv(sys: System, ops: seq<Op>)
    requires Inv(sys) && Legal(sys, ops)
    ensures Inv(Run(sys, ops))
  {
    if ops != [] {
      RunKeepsInv(sys, ops[..|ops| - 1]);
      StepKeepsInv(Run(sys, ops[..|ops| - 1]), ops[|ops| - 1]);
    }
  }

  // ---- Claims admitted under one countdown -----------------------------------

  function Claims(ops: seq<Op>): nat {
    if ops == [] then 0 else Claims(ops[..|ops| - 1]) + if ops[|ops| - 1].Claim? then 1 else 0
  }

  /** Attempts counted only when they were reported again, after their finalization had counted nothing. */
  ghost function LateCounts(sys: System, ops: seq<Op>): nat {
    if ops == [] then 0
    else
      var prefix, last := ops[..|ops| - 1], ops[|ops| - 1];
      LateCounts(sys, prefix) + if last.Recount? && CountsNow(Run(sys, prefix), last) then 1 else 0
  }

  /** An attempt still to be counted. */
  function InFlight(sys: System): nat {
    if sys.mode.Working? then 1 else 0
  }

  predicate Counting(sys: System, plan: RequestId) {
    sys.store.pending == Some(plan) && sys.store.countdown.Some?
  }

  /** While one countdown stays pending, a claim puts an attempt in flight and counting one uses one count up. */
  lemma CountdownStep(sys: System, op: Op, plan: RequestId)
    requires Inv(sys) && Enabled(sys, op) && Counting(sys, plan) && Counting(Step(sys, op), plan)
    ensures var t := Step(sys, op);
      && t.store.countdown.value.requested == sys.store.countdown.value.requested
      && (if op.Claim? then 1 else 0) + (if op.Recount? && CountsNow(sys, op) then 1 else 0)
         == sys.store.countdown.value.remaining - t.store.countdown.value.remaining + InFlight(t) - InFlight(sys)
  {
    if CountsNow(sys, op) {
      CountingKeeps(sys.store, sys.mode.attempt, op.outcome, sys.mode);
    } else {
      OtherStepsCountNothing(sys, op);
    }
  }

  /** A countdown that is pending after a step was pending before it, unless it is new. */
  lemma CountdownWasPending(sys: System, op: Op, plan: RequestId)
    requires Inv(sys) && Enabled(sys, op) && plan in sys.store.commands && Counting(Step(sys, op), plan)
    ensures Counting(sys, plan)
  {
    StepKeepsInv(sys, op);
    StepExtends(sys, op);
    var t := Step(sys, op);
    assert SameRow(sys.store.commands[plan], t.store.commands[plan]);
    assert Waiting(sys.store, plan);
  }

  /**
   Between any two moments at which the same countdown is pending, the claims admitted and the
   late counts are the counts used up in between, corrected by the attempts in flight at either end.
   */
  lemma {:induction false} ClaimsWhileCounting(sys: System, ops: seq<Op>, plan: RequestId)
    requires Inv(sys) && Legal(sys, ops) && Counting(sys, plan) && Counting(Run(sys, ops), plan)
    ensures var t := Run(sys, ops);
      Claims(ops) + LateCounts(sys, ops)
      == sys.store.countdown.value.remaining - t.store.countdown.value.remaining + InFlight(t) - InFlight(sys)
    ensures Run(sys, ops).store.countdown.value.requested == sys.store.countdown.value.requested
  {
    if ops != [] {
      var prefix, last := ops[..|ops| - 1], ops[|ops| - 1];
      RunKeepsInv(sys, prefix);
      LogRowStays(sys, prefix, plan);
      CountdownWasPending(Run(sys, prefix), last, plan);
      ClaimsWhileCounting(sys, prefix, plan);
      CountdownStep(Run(sys, prefix), last, plan);
    }
  }

  lemma {:induction false} LogRowStays(sys: System, ops: seq<Op>, id: RequestId)
    requires id in sys.store.commands
    ensures id in Run(sys, ops).store.commands
    ensures SameRow(sys.store.commands[id], Run(sys, ops).store.commands[id])
  {
    if ops != [] {
      LogRowStays(sys, ops[..|ops| - 1], id);
      StepExtends(Run(sys, ops[..|ops| - 1]), ops[|ops| - 1]);
      var r, t := Run(sys, ops[..|ops| - 1]), Run(sys, ops);
      assert SameRow(r.store.commands[id], t.store.commands[id]);
    }
  }

  /** A stop-after submission of this count is accepted here under a new request ID. */
  ghost predicate Accepts(sys: System, id: RequestId, count: int) {
    && id !in sys.store.commands
    && SubmitStopAfter(sys.store, id, count, Active(sys.mode).Some?, Active(sys.mode)).reply.Stored?
  }

  /** How a pending countdown ends: with its last count, or superseded before it. */
  lemma CountdownEnds(sys: System, op: Op, plan: RequestId)
    requires Inv(sys) && Enabled(sys, op) && Counting(sys, plan)
    ensures var s, u := sys.store, Step(sys, op).store;
      && plan in s.commands && s.commands[plan].payload == After(s.countdown.value.requested)
      && |CountedFor(s, plan)| == s.countdown.value.requested - s.countdown.value.remaining
      && plan in u.commands
      && (u.commands[plan].ack == Completed ==>
            && CountsNow(sys, op) && s.countdown.value.remaining == 1
            && |CountedFor(u, plan)| == s.countdown.value.requested && u.intake == Stopped)
      && (u.commands[plan].ack == Superseded ==> |CountedFor(u, plan)| < s.countdown.value.requested)
  {
    StepKeepsInv(sys, op);
    StepExtends(sys, op);
    var u := Step(sys, op);
    assert SameRow(sys.store.commands[plan], u.store.commands[plan]);
    assert PlanCount(u.store, plan);
    if CountsNow(sys, op) {
      CountingKeeps(sys.store, sys.mode.attempt, op.outcome, sys.mode);
    } else {
      OtherStepsCountNothing(sys, op);
    }
  }

  /**
   From the acceptance of `stop --after N` on: while it is pending at most N claims were admitted,
   N - 1 when an attempt was still to be counted at acceptance, and at the step that completes it
   exactly that many were, late counts included, with exactly N counted rows naming it.
   */
  lemma StopAfterAdmitsExactly(sys: System, id: RequestId, count: int, ops: seq<Op>, last: Op)
    requires Inv(sys) && Accepts(sys, id, count)
    requires var accepted := Step(sys, StopAfterCommand(id, count));
      Legal(accepted, ops) && Enabled(Run(accepted, ops), last) && Counting(Run(accepted, ops), id)
    ensures var accepted := Step(sys, StopAfterCommand(id, count));
      var t := Run(accepted, ops);
      var u := Step(t, last);
      var admitted := Claims(ops) + LateCounts(accepted, ops);
      && admitted <= count - InFlight(sys)
      && |CountedFor(t.store, id)| == count - t.store.countdown.value.remaining < count
      && id in u.store.commands
      && (u.store.commands[id].ack == Completed ==>
            && admitted + (if last.Recount? then 1 else 0) == count - InFlight(sys)
            && |CountedFor(u.store, id)| == count && u.store.intake == Stopped)
      && (u.store.commands[id].ack == Superseded ==> |CountedFor(u.store, id)| < count)
  {
    var op := StopAfterCommand(id, count);
    var accepted := Step(sys, op);
    StepKeepsInv(sys, op);
    ClaimsWhileCounting(accepted, ops, id);
    RunKeepsInv(accepted, ops);
    CountdownEnds(Run(accepted, ops), last, id);
  }
}
