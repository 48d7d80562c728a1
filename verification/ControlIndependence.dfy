/**
 Next-issue, recovery and errors-reset commands never disturb intake: erasing them from a
 run leaves the intake state, the pending plan, the countdown, the counted attempts and the
 handoff tracking as they were, as long as no request ID serves both sorts of command.
 */
module ControlIndependence {
  import opened Prelude
  import opened ControlModel
  import opened ControlInvariant
  import opened ControlRuns
  import opened ControlLog
  import opened ControlCounts

  const CORE_KINDS: set<Kind> := {Stop, StopAfter, Resume, Handoff}

  predicate IsSide(op: Op) {
    || op.NextIssueCommand? || op.RetryCommand? || op.ReleaseCommand? || op.ErrorsResetCommand?
    || op.EndRecovery? || op.TakePriority? || op.DropPriority?
  }

  function Erase(ops: seq<Op>): seq<Op> {
    if ops == [] then []
    else Erase(ops[..|ops| - 1]) + if IsSide(ops[|ops| - 1]) then [] else [ops[|ops| - 1]]
  }

  /** The request IDs under which side commands are submitted. */
  function SideIds(ops: seq<Op>): set<RequestId> {
    set i | 0 <= i < |ops| && IsSide(ops[i]) && Submitted(ops[i]).Some? :: Submitted(ops[i]).value.id
  }

  /** No core command, and no report about one, uses the request ID of a side command. */
  predicate Separate(ops: seq<Op>, side: set<RequestId>) {
    forall i :: 0 <= i < |ops| && !IsSide(ops[i]) ==> CoreAvoids(ops[i], side)
  }

  predicate CoreAvoids(op: Op, side: set<RequestId>) {
    && (Submitted(op).Some? ==> Submitted(op).value.id !in side)
    && (op.EndHandoff? ==> op.id !in side)
  }

  /** The state as the core commands see it: their own rows without sequence numbers, and no priority. */
  function Core(s: State): State {
    s.(commands := CoreRows(s.commands), priority := None)
  }

  function CoreRows(m: Commands): Commands {
    map id | id in m && m[id].kind in CORE_KINDS :: m[id].(sequence := 0)
  }

  // ---- A side step is invisible ------------------------------------------------

  lemma CoreInserts(m: Commands, id: RequestId, row: Command)
    ensures row.kind in CORE_KINDS ==> CoreRows(m[id := row]) == CoreRows(m)[id := row.(sequence := 0)]
    ensures row.kind !in CORE_KINDS && id !in m ==> CoreRows(m[id := row]) == CoreRows(m)
  {
  }

  lemma SideRowInvisible(s: State, id: RequestId, kind: Kind, payload: Payload, ack: Acknowledgement)
    requires kind !in CORE_KINDS
    ensures Core(SubmitRow(s, id, kind, payload, ack).next) == Core(s)
  {
    if WellFormedId(id) && id !in s.commands {
      CoreInserts(s.commands, id, Record(s, id, kind, payload, ack).next.commands[id]);
    }
  }

  lemma SettlingSideInvisible(m: Commands, id: RequestId, ack: Acknowledgement)
    requires id in m ==> m[id].kind !in CORE_KINDS
    ensures CoreRows(SettleOne(m, id, ack)) == CoreRows(m)
  {
  }

  /** The slot names a next-issue row, so settling it touches no core row. */
  lemma SlotInvisible(s: State, ack: Acknowledgement, mode: Mode)
    requires Consistent(s, mode)
    ensures Core(ClearPriority(s, ack)) == Core(s)
  {
    if s.priority.Some? {
      SettlingSideInvisible(s.commands, s.priority.value.request, ack);
    }
  }

  lemma NextIssueInvisible(s: State, id: RequestId, number: int, mode: Mode)
    requires Consistent(s, mode)
    ensures Core(SubmitNextIssue(s, id, number).next) == Core(s)
  {
    if WellFormedId(id) && number > 0 && id !in s.commands {
      var t := ClearPriority(s, Superseded);
      SlotInvisible(s, Superseded, mode);
      CoreInserts(t.commands, id, SubmitNextIssue(s, id, number).next.commands[id]);
    }
  }

  lemma SideStepInvisible(sys: System, op: Op)
    requires Inv(sys) && Enabled(sys, op) && IsSide(op)
    ensures Core(Step(sys, op).store) == Core(sys.store)
  {
    var s := sys.store;
    match op
    case NextIssueCommand(id, number) => NextIssueInvisible(s, id, number, sys.mode);
    case RetryCommand(id, attempt) => SideRowInvisible(s, id, RecoveryRetry, Attempt(attempt), Accepted);
    case ReleaseCommand(id, attempt, at) => SideRowInvisible(s, id, RecoveryRelease, Secured(attempt, at), Accepted);
    case ErrorsResetCommand(id) => SideRowInvisible(s, id, ErrorsReset, NoArguments, Completed);
    case EndRecovery(id, ack) => SettlingSideInvisible(s.commands, id, ack);
    case TakePriority(number) => SlotInvisible(s, Completed, sys.mode);
    case DropPriority => SlotInvisible(s, NotFulfilled, sys.mode);
  }

  // ---- A core step only sees the core ------------------------------------------

  lemma CoreReads(m: Commands, kinds: set<Kind>)
    requires kinds <= CORE_KINDS
    ensures AnyAccepted(CoreRows(m), kinds) == AnyAccepted(m, kinds)
  {
    if id :| id in m && IsAcceptedOf(m, id, kinds) {
      assert IsAcceptedOf(CoreRows(m), id, kinds);
    }
    if id :| id in CoreRows(m) && IsAcceptedOf(CoreRows(m), id, kinds) {
      assert IsAcceptedOf(m, id, kinds);
    }
  }

  lemma CoreSettles(m: Commands, kinds: set<Kind>, ack: Acknowledgement)
    requires kinds <= CORE_KINDS
    ensures CoreRows(Settle(m, kinds, ack)) == Settle(CoreRows(m), kinds, ack)
  {
  }

  lemma CoreSettlesOne(m: Commands, id: RequestId, ack: Acknowledgement)
    requires id in m ==> m[id].kind in CORE_KINDS
    ensures CoreRows(SettleOne(m, id, ack)) == SettleOne(CoreRows(m), id, ack)
  {
  }

  /** Two states with the same core record the same core row. */
  lemma CoreRecords(t: State, u: State, id: RequestId, kind: Kind, payload: Payload, ack: Acknowledgement)
    requires Core(t) == Core(u) && kind in CORE_KINDS
    ensures Core(Record(t, id, kind, payload, ack).next) == Core(Record(u, id, kind, payload, ack).next)
  {
    CoreInserts(t.commands, id, Record(t, id, kind, payload, ack).next.commands[id]);
    CoreInserts(u.commands, id, Record(u, id, kind, payload, ack).next.commands[id]);
  }

  /** Facts about the tracked and pending commands read the same from the core alone. */
  lemma CoreView(s: State, mode: Mode)
    requires Consistent(s, mode)
    ensures Core(Core(s)) == Core(s)
    ensures HandoffBegun(Core(s)) == HandoffBegun(s)
    ensures forall kind :: kind in CORE_KINDS ==> PendingIs(Core(s), kind) == PendingIs(s, kind)
    ensures PendingPlainStop(Core(s)) == PendingPlainStop(s)
    ensures forall kinds: set<Kind> :: kinds <= CORE_KINDS ==> AnyAccepted(CoreRows(s.commands), kinds) == AnyAccepted(s.commands, kinds)
    ensures forall kinds: set<Kind>, ack :: kinds <= CORE_KINDS ==>
              CoreRows(Settle(s.commands, kinds, ack)) == Settle(CoreRows(s.commands), kinds, ack)
  {
    assert CoreRows(CoreRows(s.commands)) == CoreRows(s.commands);
    forall kinds: set<Kind> | kinds <= CORE_KINDS
      ensures AnyAccepted(CoreRows(s.commands), kinds) == AnyAccepted(s.commands, kinds)
    {
      CoreReads(s.commands, kinds);
    }
    forall kinds: set<Kind>, ack | kinds <= CORE_KINDS
      ensures CoreRows(Settle(s.commands, kinds, ack)) == Settle(CoreRows(s.commands), kinds, ack)
    {
      CoreSettles(s.commands, kinds, ack);
    }
    if s.pending.Some? {
      assert Waiting(s, s.pending.value);
    }
  }

  /** Whether the request ID belongs to a core row or to no row at all. */
  predicate Free(s: State, id: RequestId) {
    id in s.commands ==> s.commands[id].kind in CORE_KINDS
  }

  lemma StopSeesCore(s: State, id: RequestId, mode: Mode)
    requires Consistent(s, mode) && Free(s, id)
    ensures Core(SubmitStop(s, id, Active(mode).Some?).next) == Core(SubmitStop(Core(s), id, Active(mode).Some?).next)
  {
    CoreView(s, mode);
    if WellFormedId(id) && id !in s.commands {
      match s.intake
      case Stopped => CoreRecords(s, Core(s), id, Stop, NoArguments, Completed);
      case Stopping =>
        JoinSeesCore(s, id, mode);
        CoreRecords(JoinStopping(s, id), JoinStopping(Core(s), id), id, Stop, NoArguments, Accepted);
      case Running =>
        var t, u := ReplacePlans(s), ReplacePlans(Core(s));
        assert Core(t) == Core(u) by { ReplaceSeesCore(s, mode); }
        CoreRecords(t.(intake := Stopping, pending := Some(id)), u.(intake := Stopping, pending := Some(id)), id, Stop, NoArguments, Accepted);
        CoreRecords(t.(intake := Stopped, pending := None), u.(intake := Stopped, pending := None), id, Stop, NoArguments, Completed);
    }
  }

  lemma ReplaceSeesCore(s: State, mode: Mode)
    requires Consistent(s, mode)
    ensures Core(ReplacePlans(s)) == Core(ReplacePlans(Core(s)))
  {
    CoreView(s, mode);
    var kinds := if HandoffBegun(s) then {StopAfter} else {StopAfter, Handoff};
    CoreReads(s.commands, kinds);
    CoreSettles(s.commands, kinds, Superseded);
    assert CoreRows(Settle(CoreRows(s.commands), kinds, Superseded)) == Settle(CoreRows(s.commands), kinds, Superseded);
  }

  lemma JoinSeesCore(s: State, id: RequestId, mode: Mode)
    requires Consistent(s, mode) && id !in s.commands
    ensures Core(JoinStopping(s, id)) == Core(JoinStopping(Core(s), id))
  {
    CoreView(s, mode);
    CoreReads(s.commands, {StopAfter});
    CoreReads(s.commands, {Handoff});
    CoreSettles(s.commands, {StopAfter}, Superseded);
    CoreSettles(s.commands, {Handoff}, Superseded);
    var after := Settle(s.commands, {StopAfter}, Superseded);
    CoreReads(after, {Handoff});
    CoreSettles(after, {Handoff}, Superseded);
    assert forall m: Commands :: CoreRows(CoreRows(m)) == CoreRows(m);
  }

  lemma PlansSeeCore(s: State, id: RequestId, count: int, held: bool, mode: Mode)
    requires Consistent(s, mode) && Free(s, id)
    ensures Core(SubmitResume(s, id, held).next) == Core(SubmitResume(Core(s), id, held).next)
    ensures Core(SubmitHandoff(s, id, Active(mode).Some?, held).next) == Core(SubmitHandoff(Core(s), id, Active(mode).Some?, held).next)
    ensures Core(SubmitStopAfter(s, id, count, Active(mode).Some?, Active(mode)).next)
         == Core(SubmitStopAfter(Core(s), id, count, Active(mode).Some?, Active(mode)).next)
  {
    CoreView(s, mode);
    if WellFormedId(id) && id !in s.commands {
      ResumeSeesCore(s, id, held, mode);
      HandoffSeesCore(s, id, held, mode);
      StopAfterSeesCore(s, id, count, mode);
    }
  }

  /** Superseding every plan, and then any other columns, agrees on the core. */
  lemma SupersededSeesCore(s: State)
    ensures CoreRows(Settle(s.commands, PLAN_KINDS, Superseded)) == CoreRows(Settle(CoreRows(s.commands), PLAN_KINDS, Superseded))
  {
    CoreSettles(s.commands, PLAN_KINDS, Superseded);
    CoreSettles(CoreRows(s.commands), PLAN_KINDS, Superseded);
    assert CoreRows(CoreRows(s.commands)) == CoreRows(s.commands);
  }

  lemma ResumeSeesCore(s: State, id: RequestId, held: bool, mode: Mode)
    requires Consistent(s, mode) && WellFormedId(id) && id !in s.commands
    ensures Core(SubmitResume(s, id, held).next) == Core(SubmitResume(Core(s), id, held).next)
  {
    CoreView(s, mode);
    if !held {
      if HandoffBegun(s) {
        CoreRecords(s, Core(s), id, Resume, NoArguments, Completed);
      } else {
        SupersededSeesCore(s);
        CoreReads(s.commands, {Handoff});
        var handoff := if !AnyAccepted(s.commands, {Handoff}) then s.handoff else UNTRACKED;
        var t := s.(commands := Settle(s.commands, PLAN_KINDS, Superseded), intake := Running, pending := None,
                    countdown := None, handoff := handoff);
        var u := Core(s).(commands := Settle(CoreRows(s.commands), PLAN_KINDS, Superseded), intake := Running, pending := None,
                          countdown := None, handoff := handoff);
        CoreRecords(t, u, id, Resume, NoArguments, Completed);
      }
    }
  }

  lemma HandoffSeesCore(s: State, id: RequestId, held: bool, mode: Mode)
    requires Consistent(s, mode) && WellFormedId(id) && id !in s.commands
    ensures Core(SubmitHandoff(s, id, Active(mode).Some?, held).next) == Core(SubmitHandoff(Core(s), id, Active(mode).Some?, held).next)
  {
    CoreView(s, mode);
    if !held && Active(mode).Some? && !HandoffBegun(s) {
      SupersededSeesCore(s);
      var tracking := Tracking(Some(id), false, Some(AcceptedPhase));
      var t := s.(commands := Settle(s.commands, PLAN_KINDS, Superseded), intake := Stopping, pending := Some(id),
                  countdown := None, handoff := tracking);
      var u := Core(s).(commands := Settle(CoreRows(s.commands), PLAN_KINDS, Superseded), intake := Stopping, pending := Some(id),
                        countdown := None, handoff := tracking);
      CoreRecords(t, u, id, Handoff, NoArguments, Accepted);
    }
  }

  lemma StopAfterSeesCore(s: State, id: RequestId, count: int, mode: Mode)
    requires Consistent(s, mode) && WellFormedId(id) && id !in s.commands
    ensures Core(SubmitStopAfter(s, id, count, Active(mode).Some?, Active(mode)).next)
         == Core(SubmitStopAfter(Core(s), id, count, Active(mode).Some?, Active(mode)).next)
  {
    CoreView(s, mode);
    assert TrackingAfterCountdown(Core(s)) == TrackingAfterCountdown(s);
    if SubmitStopAfter(s, id, count, Active(mode).Some?, Active(mode)).reply.Stored? {
      SupersededSeesCore(s);
      var t := SubmitStopAfter(s, id, count, Active(mode).Some?, Active(mode)).next.(commands := Settle(s.commands, PLAN_KINDS, Superseded));
      var u := SubmitStopAfter(Core(s), id, count, Active(mode).Some?, Active(mode)).next
               .(commands := Settle(CoreRows(s.commands), PLAN_KINDS, Superseded));
      CoreRecords(t, u, id, StopAfter, After(count), Accepted);
    }
  }

  /** Resolving a handoff only depends on the core, so two states with one core resolve alike. */
  lemma ResolvingAlike(s: State, t: State, id: RequestId, ack: Acknowledgement)
    requires Core(s) == Core(t) && Free(s, id) && Free(t, id)
    ensures Core(ResolveHandoff(s, id, ack)) == Core(ResolveHandoff(t, id, ack))
  {
    CoreSettlesOne(s.commands, id, ack);
    CoreSettlesOne(t.commands, id, ack);
    CoreSettles(SettleOne(s.commands, id, ack), {Stop}, Completed);
    CoreSettles(SettleOne(t.commands, id, ack), {Stop}, Completed);
    assert id in s.commands <==> id in CoreRows(s.commands);
    assert id in t.commands <==> id in CoreRows(t.commands);
  }

  lemma ReportsSeeCore(s: State, id: RequestId, mode: Mode)
    requires Consistent(s, mode) && Free(s, id)
    ensures Core(MarkDelivering(s, id)) == Core(MarkDelivering(Core(s), id))
    ensures Core(MarkBegun(s, id)) == Core(MarkBegun(Core(s), id))
  {
    CoreView(s, mode);
    assert id in s.commands <==> id in CoreRows(s.commands);
    assert TracksAccepted(Core(s), id) == TracksAccepted(s, id);
  }

  lemma CountingSeesCore(s: State, attempt: AttemptId, outcome: string, mode: Mode)
    requires Consistent(s, mode)
    ensures Core(RecordFinalized(s, attempt, outcome)) == Core(RecordFinalized(Core(s), attempt, outcome))
    ensures Core(CompletePendingStop(s)) == Core(CompletePendingStop(Core(s)))
  {
    CoreView(s, mode);
    CoreSettles(s.commands, {Stop}, Completed);
    CoreSettles(CoreRows(s.commands), {Stop}, Completed);
    if s.pending.Some? {
      assert Waiting(s, s.pending.value);
      CoreSettlesOne(s.commands, s.pending.value, Completed);
      CoreSettlesOne(CoreRows(s.commands), s.pending.value, Completed);
    }
  }

  /** Resolving the tracked handoff sees the core, as what it resolves is a core row. */
  lemma TrackedSeesCore(s: State, ack: Acknowledgement, mode: Mode)
    requires Consistent(s, mode)
    ensures Core(ResolveTracked(s, ack)) == Core(ResolveTracked(Core(s), ack))
  {
    CoreView(s, mode);
    if s.handoff.request.Some? {
      var h := s.handoff.request.value;
      assert h in CoreRows(s.commands) && CoreRows(s.commands)[h].ack == s.commands[h].ack;
      ResolvingAlike(s, Core(s), h, ack);
    }
  }

  lemma FinishingAlike(s: State, t: State)
    requires Core(s) == Core(t)
    requires s.pending.Some? ==> Free(s, s.pending.value) && Free(t, s.pending.value)
    ensures Core(CompletePendingStop(s)) == Core(CompletePendingStop(t))
  {
    CoreSettles(s.commands, {Stop}, Completed);
    CoreSettles(t.commands, {Stop}, Completed);
    if s.pending.Some? {
      var p := s.pending.value;
      assert p in s.commands <==> p in CoreRows(s.commands);
      assert p in t.commands <==> p in CoreRows(t.commands);
    }
  }

  lemma PolledSeesCore(s: State)
    requires Consistent(s, Idle)
    ensures Core(Polled(s)) == Core(Polled(Core(s)))
  {
    TrackedSeesCore(s, NotFulfilled, Idle);
    ResolveTrackedKeeps(s, NotFulfilled, Idle);
    var t, u := ResolveTracked(s, NotFulfilled), ResolveTracked(Core(s), NotFulfilled);
    if t.pending.Some? {
      assert Waiting(t, t.pending.value);
      assert t.pending.value in CoreRows(t.commands) && t.pending.value in CoreRows(u.commands);
    }
    FinishingAlike(t, u);
  }

  /** A core step changes the core in a way that depends on the core alone. */
  lemma CoreStepSeesCore(sys: System, op: Op)
    requires Inv(sys) && Enabled(sys, op) && !IsSide(op)
    requires Submitted(op).Some? ==> Free(sys.store, Submitted(op).value.id)
    ensures Core(Step(sys, op).store) == Core(Step(sys.(store := Core(sys.store)), op).store)
  {
    var s, mode := sys.store, sys.mode;
    CoreView(s, mode);
    match op
    case StopCommand(id) => StopSeesCore(s, id, mode);
    case ResumeCommand(id, held) => PlansSeeCore(s, id, 1, held, mode);
    case StopAfterCommand(id, count) => PlansSeeCore(s, id, count, false, mode);
    case HandoffCommand(id, held) => PlansSeeCore(s, id, 1, held, mode);
    case DeliverHandoff(id) => ReportSeesCore(s, id, mode);
    case BeginHandoff(id) => ReportSeesCore(s, id, mode);
    case EndHandoff(id, ack) => ResolvingAlike(s, Core(s), id, ack);
    case ReplayFinalized(attempt, outcome) => CountingSeesCore(s, attempt, outcome, mode);
    case ReenterStopping =>
    case Claim(attempt) =>
    case Count(outcome) => CountingSeesCore(s, mode.attempt, outcome, mode);
    case Recount(outcome) => CountingSeesCore(s, mode.attempt, outcome, mode);
    case Drop =>
    case SettleHandoff(fulfilled) =>
      if fulfilled.Some? {
        TrackedSeesCore(s, Outcome(fulfilled.value), mode);
      }
    case IdlePoll => PolledSeesCore(s);
  }

  /** Delivery and begin reports only act on the tracked handoff, which is a core row. */
  lemma ReportSeesCore(s: State, id: RequestId, mode: Mode)
    requires Consistent(s, mode)
    ensures Core(MarkDelivering(s, id)) == Core(MarkDelivering(Core(s), id))
    ensures Core(MarkBegun(s, id)) == Core(MarkBegun(Core(s), id))
  {
    CoreView(s, mode);
    if s.handoff.request == Some(id) {
      ReportsSeeCore(s, id, mode);
    }
  }

  // ---- Erasing the side commands -----------------------------------------------

  /** The two runs agree on the core, and side rows only sit under side request IDs. */
  ghost predicate Agree(full: System, erased: System, side: set<RequestId>) {
    && Core(full.store) == Core(erased.store)
    && full.mode == erased.mode && full.used == erased.used
    && (forall id :: id in full.store.commands && id !in side ==> full.store.commands[id].kind in CORE_KINDS)
    && (forall id :: id in erased.store.commands ==> erased.store.commands[id].kind in CORE_KINDS)
  }

  lemma PlanRowAfter(sys: System, op: Op, id: RequestId)
    requires op.StopCommand? || op.ResumeCommand? || op.StopAfterCommand? || op.HandoffCommand?
    requires id in Step(sys, op).store.commands && id !in sys.store.commands
    ensures Submitted(op).value.id == id && Step(sys, op).store.commands[id].kind == Submitted(op).value.kind
  {
  }

  lemma SideRowAfter(sys: System, op: Op, id: RequestId)
    requires op.NextIssueCommand? || op.RetryCommand? || op.ReleaseCommand? || op.ErrorsResetCommand?
    requires id in Step(sys, op).store.commands && id !in sys.store.commands
    ensures Submitted(op).value.id == id && Step(sys, op).store.commands[id].kind == Submitted(op).value.kind
  {
  }

  lemma ReportsAddNoRow(sys: System, op: Op)
    requires Submitted(op).None?
    ensures Step(sys, op).store.commands.Keys == sys.store.commands.Keys
  {
  }

  /** Only a submission adds a row: its own, under its request ID. */
  lemma RowsAfter(sys: System, op: Op, id: RequestId)
    requires id in Step(sys, op).store.commands && id !in sys.store.commands
    ensures Submitted(op).Some? && Submitted(op).value.id == id
    ensures Step(sys, op).store.commands[id].kind == Submitted(op).value.kind
  {
    if Submitted(op).None? {
      ReportsAddNoRow(sys, op);
    } else if op.StopCommand? || op.ResumeCommand? || op.StopAfterCommand? || op.HandoffCommand? {
      PlanRowAfter(sys, op, id);
    } else {
      SideRowAfter(sys, op, id);
    }
  }

  lemma AgreeStep(full: System, erased: System, op: Op, side: set<RequestId>)
    requires Inv(full) && Inv(erased) && Agree(full, erased, side) && Enabled(full, op)
    requires if IsSide(op) then Submitted(op).Some? ==> Submitted(op).value.id in side else CoreAvoids(op, side)
    ensures IsSide(op) ==> Agree(Step(full, op), erased, side)
    ensures !IsSide(op) ==> Enabled(erased, op) && Agree(Step(full, op), Step(erased, op), side)
  {
    StepExtends(full, op);
    StepExtends(erased, op);
    var t, u := Step(full, op), Step(erased, op);
    forall id | id in t.store.commands && id !in side
      ensures t.store.commands[id].kind in CORE_KINDS
    {
      if id in full.store.commands {
        assert SameRow(full.store.commands[id], t.store.commands[id]);
      } else {
        RowsAfter(full, op, id);
      }
    }
    if IsSide(op) {
      SideStepInvisible(full, op);
    } else {
      assert forall id :: id in erased.store.commands ==> id in CoreRows(erased.store.commands);
      assert Enabled(erased, op);
      CoreStepSeesCore(full, op);
      CoreStepSeesCore(erased, op);
      forall id | id in u.store.commands
        ensures u.store.commands[id].kind in CORE_KINDS
      {
        if id in erased.store.commands {
          assert SameRow(erased.store.commands[id], u.store.commands[id]);
        } else {
          RowsAfter(erased, op, id);
        }
      }
    }
  }

  lemma {:induction false} ErasedRunAgrees(ops: seq<Op>, side: set<RequestId>)
    requires Legal(START, ops) && Separate(ops, side) && SideIds(ops) <= side
    ensures Legal(START, Erase(ops)) && Agree(Run(START, ops), Run(START, Erase(ops)), side)
    ensures Inv(Run(START, ops)) && Inv(Run(START, Erase(ops)))
  {
    StartInv();
    if ops != [] {
      var prefix, last := ops[..|ops| - 1], ops[|ops| - 1];
      assert forall i :: 0 <= i < |prefix| ==> prefix[i] == ops[i];
      assert SideIds(prefix) <= side by {
        forall id | id in SideIds(prefix)
          ensures id in SideIds(ops)
        {
        }
      }
      ErasedRunAgrees(prefix, side);
      if IsSide(last) && Submitted(last).Some? {
        assert Submitted(last).value.id in SideIds(ops);
      }
      AgreeStep(Run(START, prefix), Run(START, Erase(prefix)), last, side);
      StepKeepsInv(Run(START, prefix), last);
      if !IsSide(last) {
        assert Erase(ops)[..|Erase(ops)| - 1] == Erase(prefix);
        StepKeepsInv(Run(START, Erase(prefix)), last);
      } else {
        assert Erase(ops) == Erase(prefix);
      }
    }
  }

  /** Non-interference: without request-ID reuse across the two sorts, erasing the side commands changes no core state. */
  lemma SideCommandsDoNotInterfere(ops: seq<Op>)
    requires Legal(START, ops) && Separate(ops, SideIds(ops))
    ensures Legal(START, Erase(ops))
    ensures var s, t := Run(START, ops).store, Run(START, Erase(ops)).store;
      && s.intake == t.intake && s.pending == t.pending && s.countdown == t.countdown
      && s.latest == t.latest && s.handoff == t.handoff && s.counted == t.counted
      && CoreRows(s.commands) == CoreRows(t.commands)
    ensures Run(START, ops).mode == Run(START, Erase(ops)).mode
  {
    ErasedRunAgrees(ops, SideIds(ops));
  }

  lemma EraseFirst(side: Op, core: Op)
    requires IsSide(side) && !IsSide(core)
    ensures Erase([side]) == [] && Erase([side, core]) == [core]
  {
    assert [side][..0] == [] && [side, core][..1] == [side];
    assert Erase([side]) == Erase([]) + [];
    assert Erase([side, core]) == Erase([side]) + [core];
  }

  /** The condition is needed: a stop sent under the request ID of a next-issue command is refused. */
  lemma ReusedIdInterferes(id: RequestId, number: int)
    requires WellFormedId(id) && number > 0
    ensures var ops := [NextIssueCommand(id, number), StopCommand(id)];
      && Legal(START, ops) && Erase(ops) == [StopCommand(id)]
      && Run(START, ops).store.intake == Running && Run(START, Erase(ops)).store.intake == Stopped
  {
    var first, second := NextIssueCommand(id, number), StopCommand(id);
    EraseFirst(first, second);
    RunOne(START, second);
    RunTwo(START, first, second);
    TakenIdIsRefused(Step(START, first).store, id);
  }

  lemma RunOne(sys: System, op: Op)
    ensures Run(sys, [op]) == Step(sys, op) && (Legal(sys, [op]) <==> Enabled(sys, op))
  {
    assert [op][..0] == [];
    assert Run(sys, []) == sys && Legal(sys, []);
  }

  lemma RunTwo(sys: System, first: Op, second: Op)
    ensures Run(sys, [first, second]) == Step(Step(sys, first), second)
    ensures Legal(sys, [first, second]) <==> Enabled(sys, first) && Enabled(Step(sys, first), second)
  {
    RunOne(sys, first);
    assert [first, second][..1] == [first];
  }

  lemma TakenIdIsRefused(s: State, id: RequestId)
    requires id in s.commands
    ensures SubmitStop(s, id, false).next == s
  {
  }
}
