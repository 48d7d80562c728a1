/**
 Whole runs of the control record: operator commands, lifecycle outcomes, and the steps that
 admit an attempt, count it, drop its checkpoint, end its handoff and poll without one.
 */
module ControlRuns {
  import opened Prelude
  import opened ControlModel
  import opened ControlInvariant

  datatype System = System(store: State, mode: Mode, used: set<AttemptId>)

  datatype Op =
    | StopCommand(id: RequestId)
    | ResumeCommand(id: RequestId, held: bool)
    | StopAfterCommand(id: RequestId, count: int)
    | HandoffCommand(id: RequestId, held: bool)
    | NextIssueCommand(id: RequestId, number: int)
    | RetryCommand(id: RequestId, attempt: AttemptId)
    | ReleaseCommand(id: RequestId, attempt: AttemptId, savedAt: string)
    | ErrorsResetCommand(id: RequestId)
    | DeliverHandoff(id: RequestId)
    | BeginHandoff(id: RequestId)
    | EndHandoff(id: RequestId, ack: Acknowledgement)
    | EndRecovery(id: RequestId, ack: Acknowledgement)
    | TakePriority(number: int)
    | DropPriority
    | ReplayFinalized(attempt: AttemptId, outcome: string)
    | ReenterStopping
    | Claim(attempt: AttemptId)
    | Count(outcome: string)
    | Recount(outcome: string)
    | Drop
    | SettleHandoff(fulfilled: Option<bool>)
    | IdlePoll

  const START: System := System(INITIAL, Idle, {})

  /** What the callers of each transaction guarantee, and the order of the lifecycle's own steps. */
  predicate Enabled(sys: System, op: Op) {
    match op
    case EndHandoff(id, ack) =>
      (ack == Completed || ack == NotFulfilled) && (id in sys.store.commands ==> sys.store.commands[id].kind == Handoff)
    case EndRecovery(id, ack) =>
      (ack == Completed || ack == NotFulfilled) && (id in sys.store.commands ==> sys.store.commands[id].kind in RECOVERY_KINDS)
    case ReplayFinalized(attempt, outcome) => attempt in sys.store.counted
    case ReenterStopping => sys.mode.Working?
    case Claim(attempt) => sys.store.intake == Running && sys.mode.Idle? && attempt !in sys.used && NonBlank(attempt)
    case Count(outcome) => sys.mode.Working? && NonBlank(outcome)
    case Recount(outcome) => sys.mode.Closing? && NonBlank(outcome)
    case Drop => sys.mode.Closing?
    case SettleHandoff(fulfilled) => sys.mode.Dropped?
    case IdlePoll => sys.mode.Idle?
    case _ => true
  }

  /** Ends the tracked handoff if it is still accepted. */
  function ResolveTracked(s: State, ack: Acknowledgement): State {
    if s.handoff.request.Some? && IsAccepted(s.commands, s.handoff.request.value)
    then ResolveHandoff(s, s.handoff.request.value, ack)
    else s
  }

  function Outcome(fulfilled: bool): Acknowledgement {
    if fulfilled then Completed else NotFulfilled
  }

  /** The poll without an attempt: a stopping instance fails an orphaned handoff and finishes plain stops. */
  function Polled(s: State): State {
    if s.intake == Stopping then CompletePendingStop(ResolveTracked(s, NotFulfilled)) else s
  }

  ghost function StoreStep(sys: System, op: Op): State {
    var s, active := sys.store, Active(sys.mode);
    match op
    case StopCommand(id) => SubmitStop(s, id, active.Some?).next
    case ResumeCommand(id, held) => SubmitResume(s, id, held).next
    case StopAfterCommand(id, count) => SubmitStopAfter(s, id, count, active.Some?, active).next
    case HandoffCommand(id, held) => SubmitHandoff(s, id, active.Some?, held).next
    case NextIssueCommand(id, number) => SubmitNextIssue(s, id, number).next
    case RetryCommand(id, attempt) => SubmitRow(s, id, RecoveryRetry, Attempt(attempt), Accepted).next
    case ReleaseCommand(id, attempt, at) => SubmitRow(s, id, RecoveryRelease, Secured(attempt, at), Accepted).next
    case ErrorsResetCommand(id) => SubmitRow(s, id, ErrorsReset, NoArguments, Completed).next
    case DeliverHandoff(id) => MarkDelivering(s, id)
    case BeginHandoff(id) => MarkBegun(s, id)
    case EndHandoff(id, ack) => ResolveHandoff(s, id, ack)
    case EndRecovery(id, ack) => ResolveRecovery(s, id, ack)
    case TakePriority(number) => CompleteNextIssue(s, number)
    case DropPriority => FailNextIssue(s)
    case ReplayFinalized(attempt, outcome) => RecordFinalized(s, attempt, outcome)
    case ReenterStopping => EnterStoppingForFinalClaim(s)
    case Claim(attempt) => EnterStoppingForFinalClaim(s)
    case Count(outcome) => if active.Some? then RecordFinalized(s, active.value, outcome) else s
    case Recount(outcome) => if active.Some? then RecordFinalized(s, active.value, outcome) else s
    case Drop => s
    case SettleHandoff(fulfilled) => if fulfilled.Some? then ResolveTracked(s, Outcome(fulfilled.value)) else s
    case IdlePoll => Polled(s)
  }

  function ModeStep(mode: Mode, op: Op): Mode {
    match op
    case Claim(attempt) => Working(attempt)
    case Count(_) => if mode.Working? then Closing(mode.attempt) else mode
    case Drop => Dropped
    case SettleHandoff(_) => Idle
    case _ => mode
  }

  ghost function Step(sys: System, op: Op): System {
    System(StoreStep(sys, op), ModeStep(sys.mode, op), if op.Claim? then sys.used + {op.attempt} else sys.used)
  }

  ghost function Run(sys: System, ops: seq<Op>): System {
    if ops == [] then sys else Step(Run(sys, ops[..|ops| - 1]), ops[|ops| - 1])
  }

  ghost predicate Legal(sys: System, ops: seq<Op>) {
    ops == [] || (Legal(sys, ops[..|ops| - 1]) && Enabled(Run(sys, ops[..|ops| - 1]), ops[|ops| - 1]))
  }

  lemma RunOneMore(sys: System, ops: seq<Op>, op: Op)
    ensures Run(sys, ops + [op]) == Step(Run(sys, ops), op)
    ensures Legal(sys, ops + [op]) <==> Legal(sys, ops) && Enabled(Run(sys, ops), op)
  {
    assert (ops + [op])[..|ops + [op]| - 1] == ops;
  }

  lemma {:induction false} RunFurther(sys: System, ops: seq<Op>, more: seq<Op>)
    ensures Run(sys, ops + more) == Run(Run(sys, ops), more)
    ensures Legal(sys, ops + more) <==> Legal(sys, ops) && Legal(Run(sys, ops), more)
  {
    if more == [] {
      assert ops + more == ops;
    } else {
      var init, last := more[..|more| - 1], more[|more| - 1];
      RunFurther(sys, ops, init);
      RunOneMore(sys, ops + init, last);
      assert ops + more == ops + init + [last];
    }
  }

  // ---- Counted attempts -----------------------------------------------------

  function CountedFor(s: State, plan: RequestId): set<AttemptId> {
    set attempt | attempt in s.counted && s.counted[attempt].plan == plan
  }

  /** How many attempts a stop-after command asked for. */
  function Asked(s: State, plan: RequestId): int
    requires plan in s.commands
  {
    if s.commands[plan].payload.After? then s.commands[plan].payload.count else 0
  }

  /** Each stop-after command, in whatever state it is, has exactly the counted rows that state implies. */
  ghost predicate CountsMatch(s: State) {
    && (forall a :: a in s.counted ==> s.counted[a].plan in s.commands && s.commands[s.counted[a].plan].kind == StopAfter)
    && (s.countdown.Some? && s.pending.Some? ==>
          |CountedFor(s, s.pending.value)| == s.countdown.value.requested - s.countdown.value.remaining)
    && (forall id :: id in s.commands && s.commands[id].kind == StopAfter ==> PlanCount(s, id))
  }

  ghost predicate PlanCount(s: State, id: RequestId)
    requires id in s.commands
  {
    match s.commands[id].ack
    case Accepted => s.pending == Some(id)
    case Completed => |CountedFor(s, id)| == Asked(s, id)
    case Superseded => |CountedFor(s, id)| < Asked(s, id)
    case NotFulfilled => false
  }

  /** The attempt at work has not been counted, and attempt IDs are not claimed twice. */
  ghost predicate FreshActive(sys: System) {
    && sys.store.counted.Keys <= sys.used
    && (Active(sys.mode).Some? ==> Active(sys.mode).value in sys.used)
    && (sys.mode.Working? ==> sys.mode.attempt !in sys.store.counted)
  }

  ghost predicate Inv(sys: System) {
    Consistent(sys.store, sys.mode) && CountsMatch(sys.store) && FreshActive(sys)
  }

  // ---- The lifecycle's steps keep the tables consistent ----------------------

  lemma ClaimKeeps(s: State, attempt: AttemptId)
    requires Consistent(s, Idle) && s.intake == Running
    ensures Consistent(EnterStoppingForFinalClaim(s), Working(attempt))
  {
  }

  /** Counting against a countdown ends the plan with its last count and otherwise leaves intake running. */
  lemma CountingKeeps(s: State, attempt: AttemptId, outcome: string, mode: Mode)
    requires Consistent(s, mode) && Active(mode).Some? && attempt !in s.counted && s.countdown.Some?
    ensures var t := RecordFinalized(s, attempt, outcome);
      && Consistent(t, Closing(mode.attempt))
      && (s.countdown.value.remaining == 1 ==> t.intake == Stopped && t.pending.None?)
      && (s.countdown.value.remaining > 1 ==> t.intake == Running && t.pending == s.pending)
  {
  }

  lemma CountKeeps(s: State, attempt: AttemptId, outcome: string, mode: Mode)
    requires Consistent(s, mode) && Active(mode).Some?
    requires mode.Working? ==> attempt !in s.counted
    ensures Consistent(RecordFinalized(s, attempt, outcome), Closing(mode.attempt))
  {
    if attempt !in s.counted {
      if s.countdown.Some? {
        CountingKeeps(s, attempt, outcome, mode);
      } else {
        CompletePendingStopKeeps(s, mode);
      }
    }
  }

  lemma ResolveTrackedKeeps(s: State, ack: Acknowledgement, mode: Mode)
    requires Consistent(s, mode) && (ack == Completed || ack == NotFulfilled)
    ensures Consistent(ResolveTracked(s, ack), mode)
  {
    if s.handoff.request.Some? {
      ResolveHandoffKeeps(s, s.handoff.request.value, ack, mode);
    }
  }

  lemma PolledKeeps(s: State)
    requires Consistent(s, Idle)
    ensures Consistent(Polled(s), Idle)
  {
    ResolveTrackedKeeps(s, NotFulfilled, Idle);
    CompletePendingStopKeeps(ResolveTracked(s, NotFulfilled), Idle);
  }

  lemma StepKeepsConsistent(sys: System, op: Op)
    requires Inv(sys) && Enabled(sys, op)
    ensures Consistent(Step(sys, op).store, Step(sys, op).mode)
  {
    var s, mode := sys.store, sys.mode;
    match op
    case StopCommand(id) => StopKeeps(s, id, mode);
    case ResumeCommand(id, held) => ResumeKeeps(s, id, held, mode);
    case StopAfterCommand(id, count) => StopAfterKeeps(s, id, count, mode);
    case HandoffCommand(id, held) => HandoffKeeps(s, id, held, mode);
    case NextIssueCommand(id, number) => NextIssueKeeps(s, id, number, mode);
    case RetryCommand(id, attempt) => RowKeeps(s, id, RecoveryRetry, Attempt(attempt), Accepted, mode);
    case ReleaseCommand(id, attempt, at) => RowKeeps(s, id, RecoveryRelease, Secured(attempt, at), Accepted, mode);
    case ErrorsResetCommand(id) => RowKeeps(s, id, ErrorsReset, NoArguments, Completed, mode);
    case DeliverHandoff(id) => TrackingKeeps(s, id, mode);
    case BeginHandoff(id) => TrackingKeeps(s, id, mode);
    case EndHandoff(id, ack) => ResolveHandoffKeeps(s, id, ack, mode);
    case EndRecovery(id, ack) => ResolveRecoveryKeeps(s, id, ack, mode);
    case TakePriority(number) => ClearPriorityKeeps(s, Completed, mode);
    case DropPriority => ClearPriorityKeeps(s, NotFulfilled, mode);
    case ReplayFinalized(attempt, outcome) =>
    case ReenterStopping =>
    case Claim(attempt) => ClaimKeeps(s, attempt);
    case Count(outcome) => CountKeeps(s, mode.attempt, outcome, mode);
    case Recount(outcome) => CountKeeps(s, mode.attempt, outcome, mode);
    case Drop =>
    case SettleHandoff(fulfilled) =>
      if fulfilled.Some? {
        ResolveTrackedKeeps(s, Outcome(fulfilled.value), mode);
      }
    case IdlePoll => PolledKeeps(s);
  }
}
