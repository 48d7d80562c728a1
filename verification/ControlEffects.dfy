/**
 What each operator command and each lifecycle outcome does to a reachable record, told from the
 record before it: which rows move, what waits afterwards, and what is answered. And over runs:
 after a stop nothing is claimed until a resume or a stop-after.
 */
module ControlEffects {
  import opened Prelude
  import opened ControlModel
  import opened ControlInvariant
  import opened ControlRuns
  import opened ControlLog
  import opened ControlCounts
  import opened ControlGuarantees

  /** The new row, and every other row as it was but for the ended ones. */
  ghost predicate RowsAre(s: State, t: State, id: RequestId, kind: Kind, payload: Payload, ack: Acknowledgement,
                          ended: set<RequestId>)
  {
    && t.commands.Keys == s.commands.Keys + {id} && id !in s.commands
    && t.commands[id].kind == kind && t.commands[id].payload == payload && t.commands[id].ack == ack
    && (forall other :: other in s.commands ==>
          t.commands[other] == if other in ended then s.commands[other].(ack := Superseded) else s.commands[other])
  }

  /** A command was refused: nothing changed. */
  predicate Refused(s: State, r: Result) {
    r.reply.Rejected? && r.next == s
  }

  /** A command was stored: it answers with its row. */
  predicate Answered(r: Result, id: RequestId) {
    id in r.next.commands && r.reply == Stored(r.next.commands[id])
  }

  /** Counting and the priority slot are as they were. */
  predicate CountsAndSlotKept(s: State, t: State) {
    t.counted == s.counted && t.latest == s.latest && t.priority == s.priority
  }

  /** The tracking is cleared when the tracked handoff is replaced. */
  function Untracked(s: State): Tracking {
    if PendingIs(s, Handoff) then UNTRACKED else s.handoff
  }

  predicate NewId(s: State, id: RequestId) {
    id !in s.commands && exists i :: 0 <= i < |id| <= 128 && !IsSpace(id[i])
  }

  // ---- Stop ------------------------------------------------------------------------------

  /** The plan a plain stop takes the place of: a countdown, or a handoff the model has not begun. */
  predicate StopReplaces(s: State) {
    s.pending.Some? && s.pending.value in s.commands
    && match s.commands[s.pending.value].kind
       case StopAfter => true
       case Handoff => !s.handoff.begun
       case _ => false
  }

  function StopEnds(s: State): set<RequestId> {
    if StopReplaces(s) then {s.pending.value} else {}
  }

  lemma ReplacedIsPending(s: State, mode: Mode, id: RequestId)
    requires Consistent(s, mode) && id in s.commands
    ensures id in StopEnds(s)
       <==> IsAccepted(s.commands, id) && (s.commands[id].kind == StopAfter || (s.commands[id].kind == Handoff && !HandoffBegun(s)))
  {
    if s.pending.Some? {
      assert Waiting(s, s.pending.value);
    }
    if IsAcceptedOf(s.commands, id, {StopAfter, Handoff}) {
      assert Waiting(s, id);
    }
  }

  lemma AllReplaced(s: State, mode: Mode)
    requires Consistent(s, mode)
    ensures forall id :: id in s.commands ==>
              (id in StopEnds(s)
               <==> IsAccepted(s.commands, id) && (s.commands[id].kind == StopAfter || (s.commands[id].kind == Handoff && !HandoffBegun(s))))
  {
    forall id | id in s.commands
      ensures id in StopEnds(s)
         <==> IsAccepted(s.commands, id) && (s.commands[id].kind == StopAfter || (s.commands[id].kind == Handoff && !HandoffBegun(s)))
    {
      ReplacedIsPending(s, mode, id);
    }
  }

  /** A stop while running waits for the active attempt, and without one stops at once. */
  lemma StopWhileRunning(s: State, mode: Mode, id: RequestId)
    requires Consistent(s, mode) && s.intake == Running && NewId(s, id)
    ensures var r := SubmitStop(s, id, Active(mode).Some?);
      var t, active := r.next, Active(mode).Some?;
      && Answered(r, id)
      && RowsAre(s, t, id, Stop, NoArguments, if active then Accepted else Completed, StopEnds(s))
      && t.intake == (if active then Stopping else Stopped)
      && t.pending == (if active then Some(id) else None)
      && t.countdown == None && CountsAndSlotKept(s, t)
      && t.handoff == if StopReplaces(s) then UNTRACKED else s.handoff
  {
    AllReplaced(s, mode);
    assert !HandoffBegun(s);
  }

  /** A stop while stopping waits along, and takes over from the plan it replaces. */
  lemma StopWhileStopping(s: State, mode: Mode, id: RequestId)
    requires Consistent(s, mode) && s.intake == Stopping && NewId(s, id)
    ensures var r := SubmitStop(s, id, Active(mode).Some?);
      var t := r.next;
      && Answered(r, id)
      && RowsAre(s, t, id, Stop, NoArguments, Accepted, StopEnds(s))
      && t.intake == Stopping
      && t.pending == (if StopReplaces(s) then Some(id) else s.pending)
      && t.countdown == None && CountsAndSlotKept(s, t)
      && t.handoff == if StopReplaces(s) then Untracked(s) else s.handoff
  {
    AllReplaced(s, mode);
    assert Waiting(s, s.pending.value);
    if PendingIs(s, StopAfter) {
      JoinedCountdown(s, mode, id);
    } else {
      JoinedOthers(s, mode, id);
    }
  }

  lemma JoinedCountdown(s: State, mode: Mode, id: RequestId)
    requires Consistent(s, mode) && s.intake == Stopping && PendingIs(s, StopAfter)
    ensures JoinStopping(s, id)
         == s.(commands := Settle(s.commands, {StopAfter}, Superseded), pending := Some(id), countdown := None)
  {
    assert Waiting(s, s.pending.value);
    assert IsAcceptedOf(s.commands, s.pending.value, {StopAfter});
    if AnyAccepted(s.commands, {Handoff}) {
      var h :| h in s.commands && IsAcceptedOf(s.commands, h, {Handoff});
      assert Waiting(s, h);
    }
  }

  lemma JoinedOthers(s: State, mode: Mode, id: RequestId)
    requires Consistent(s, mode) && s.intake == Stopping && !PendingIs(s, StopAfter) && id !in s.commands
    ensures JoinStopping(s, id)
         == if PendingIs(s, Handoff) && !s.handoff.begun
            then s.(commands := Settle(s.commands, {Handoff}, Superseded), pending := Some(id), handoff := UNTRACKED)
            else s
  {
    assert Waiting(s, s.pending.value);
    if AnyAccepted(s.commands, {StopAfter}) {
      var plan :| plan in s.commands && IsAcceptedOf(s.commands, plan, {StopAfter});
      assert Waiting(s, plan);
    }
    if PendingIs(s, Handoff) {
      assert IsAcceptedOf(s.commands, s.pending.value, {Handoff});
    }
  }

  lemma StopWhileStopped(s: State, mode: Mode, id: RequestId)
    requires Consistent(s, mode) && s.intake == Stopped && NewId(s, id)
    ensures var r := SubmitStop(s, id, Active(mode).Some?);
      var t := r.next;
      && Answered(r, id)
      && RowsAre(s, t, id, Stop, NoArguments, Completed, {})
      && t == s.(commands := t.commands)
  {
  }

  // ---- The other plans -----------------------------------------------------------------------

  function WaitingPlans(s: State): set<RequestId> {
    set id | id in s.commands && s.commands[id].ack == Accepted && s.commands[id].kind in {Stop, StopAfter, Handoff}
  }

  /** A begun handoff is the pending plan, and the model has begun it. */
  predicate ModelHasIt(s: State) {
    s.pending.Some? && s.pending.value in s.commands && s.commands[s.pending.value].kind == Handoff && s.handoff.begun
  }

  lemma BegunIsPending(s: State, mode: Mode)
    requires Consistent(s, mode)
    ensures HandoffBegun(s) <==> ModelHasIt(s)
  {
    if HandoffBegun(s) {
      assert Waiting(s, s.handoff.request.value);
    }
    if s.pending.Some? {
      assert Waiting(s, s.pending.value);
    }
  }

  /** A permitted resume ends every waiting plan and intake runs; beside a begun handoff it is only recorded. */
  lemma ResumeRuns(s: State, mode: Mode, id: RequestId)
    requires Consistent(s, mode) && NewId(s, id)
    ensures var r := SubmitResume(s, id, false);
      var t := r.next;
      && Answered(r, id)
      && RowsAre(s, t, id, Resume, NoArguments, Completed, if ModelHasIt(s) then {} else WaitingPlans(s))
      && (if ModelHasIt(s) then t == s.(commands := t.commands)
          else t.intake == Running && t.pending == None && t.countdown == None && t.handoff == Untracked(s)
               && CountsAndSlotKept(s, t))
  {
    BegunIsPending(s, mode);
    if !ModelHasIt(s) {
      ResumeReplaces(s, mode, id);
    }
  }

  lemma ResumeReplaces(s: State, mode: Mode, id: RequestId)
    requires Consistent(s, mode) && NewId(s, id) && !HandoffBegun(s)
    ensures var r := SubmitResume(s, id, false);
      var t := r.next;
      && Answered(r, id) && RowsAre(s, t, id, Resume, NoArguments, Completed, WaitingPlans(s))
      && t.intake == Running && t.pending == None && t.countdown == None && t.handoff == Untracked(s) && CountsAndSlotKept(s, t)
  {
  }

  lemma HeldIsRefused(s: State, id: RequestId)
    requires NewId(s, id)
    ensures Refused(s, SubmitResume(s, id, true))
  {
  }

  /** A stop-after is refused when stopped or beside a begun handoff; else it replaces every plan and counts from the start. */
  lemma StopAfterCounts(s: State, mode: Mode, id: RequestId, count: int)
    requires Consistent(s, mode) && NewId(s, id) && (Active(mode).Some? ==> NonBlank(Active(mode).value))
    ensures var r := SubmitStopAfter(s, id, count, Active(mode).Some?, Active(mode));
      var t := r.next;
      if count <= 0 || s.intake == Stopped || ModelHasIt(s) then Refused(s, r)
      else
        && Answered(r, id)
        && RowsAre(s, t, id, StopAfter, After(count), Accepted, WaitingPlans(s))
        && t.intake == (if Active(mode).Some? && count == 1 then Stopping else Running)
        && t.pending == Some(id) && t.countdown == Some(Countdown(count, count, Active(mode)))
        && t.latest == None && t.handoff == Untracked(s) && t.counted == s.counted && t.priority == s.priority
  {
    BegunIsPending(s, mode);
  }

  /** In any record: a stop-after beside an active attempt needs its identity, and beside none it names none. */
  lemma StopAfterIdentity(s: State, id: RequestId, count: int, attempt: Option<AttemptId>)
    requires NewId(s, id) && count > 0
    ensures attempt.None? || (forall i :: 0 <= i < |attempt.value| ==> IsSpace(attempt.value[i])) ==>
              SubmitStopAfter(s, id, count, true, attempt) == Result(s, Rejected(NoAttemptIdentity))
    ensures var r := SubmitStopAfter(s, id, count, false, attempt);
      r.reply.Rejected? || r.next.countdown == Some(Countdown(count, count, None))
  {
  }

  /** In any record: no stop replaces a handoff that the model has begun. */
  lemma BegunHandoffStays(s: State, id: RequestId, active: bool)
    requires s.handoff.request.Some? && s.handoff.begun && s.handoff.request.value in s.commands
    requires var row := s.commands[s.handoff.request.value]; row.ack == Accepted && row.kind == Handoff
    ensures var t, tracked := SubmitStop(s, id, active).next, s.handoff.request.value;
      tracked in t.commands && t.commands[tracked] == s.commands[tracked]
  {
  }

  /** A handoff needs an active attempt, no recovery hold and no begun handoff; then it takes over the wait. */
  lemma HandoffWaits(s: State, mode: Mode, id: RequestId, held: bool)
    requires Consistent(s, mode) && NewId(s, id)
    ensures var r := SubmitHandoff(s, id, Active(mode).Some?, held);
      var t := r.next;
      if held || Active(mode).None? || ModelHasIt(s) then Refused(s, r)
      else
        && Answered(r, id)
        && RowsAre(s, t, id, Handoff, NoArguments, Accepted, WaitingPlans(s))
        && t.intake == Stopping && t.pending == Some(id) && t.countdown == None
        && t.handoff == Tracking(Some(id), false, Some(AcceptedPhase)) && CountsAndSlotKept(s, t)
  {
    BegunIsPending(s, mode);
  }

  /** A next-issue command takes the slot with its number from whoever had it. */
  lemma NextIssueTakesTheSlot(s: State, mode: Mode, id: RequestId, number: int)
    requires Consistent(s, mode) && NewId(s, id)
    ensures var r := SubmitNextIssue(s, id, number);
      var t := r.next;
      if number <= 0 then Refused(s, r)
      else
        && Answered(r, id)
        && RowsAre(s, t, id, NextIssue, Issue(number), Accepted, if s.priority.Some? then {s.priority.value.request} else {})
        && t == s.(commands := t.commands, priority := Some(Priority(number, id)))
  {
  }

  /** Recovery commands and the errors reset add their row and nothing else. */
  lemma RowIsAdded(s: State, id: RequestId, kind: Kind, payload: Payload, ack: Acknowledgement)
    requires NewId(s, id)
    ensures var r := SubmitRow(s, id, kind, payload, ack);
      && Answered(r, id) && RowsAre(s, r.next, id, kind, payload, ack, {}) && r.next == s.(commands := r.next.commands)
  {
  }

  /** No command is taken under a blank request ID or one of more than 128 characters. */
  lemma BadIdsAreRefused(s: State, id: RequestId, active: bool, attempt: Option<AttemptId>, held: bool, number: int, kind: Kind,
                         payload: Payload, ack: Acknowledgement)
    requires |id| > 128 || forall i :: 0 <= i < |id| ==> IsSpace(id[i])
    ensures Refused(s, SubmitStop(s, id, active)) && Refused(s, SubmitResume(s, id, held))
    ensures Refused(s, SubmitStopAfter(s, id, number, active, attempt)) && Refused(s, SubmitHandoff(s, id, active, held))
    ensures Refused(s, SubmitNextIssue(s, id, number)) && Refused(s, SubmitRow(s, id, kind, payload, ack))
  {
  }

  // ---- Lifecycle outcomes ----------------------------------------------------------------------

  /** The rows are as they were but for the ended ones, which end as told. */
  ghost predicate RowsEnd(s: State, t: State, ended: map<RequestId, Acknowledgement>) {
    && t.commands.Keys == s.commands.Keys
    && (forall id :: id in s.commands ==>
          t.commands[id] == if id in ended then s.commands[id].(ack := ended[id]) else s.commands[id])
  }

  ghost function Ends1(id: RequestId, ack: Acknowledgement): map<RequestId, Acknowledgement> {
    map[id := ack]
  }

  /** The waiting plain stops complete. */
  function StopsComplete(s: State): map<RequestId, Acknowledgement> {
    map id | id in s.commands && s.commands[id].ack == Accepted && s.commands[id].kind == Stop :: Completed
  }

  /** The model's progress with the tracked handoff; for any other request nothing changes. */
  lemma HandoffProgress(s: State, mode: Mode, id: RequestId)
    requires Consistent(s, mode)
    ensures var tracked := s.handoff.request == Some(id) && id in s.commands && s.commands[id].ack == Accepted;
      && MarkDelivering(s, id) == (if tracked then s.(handoff := Tracking(Some(id), s.handoff.begun, Some(Delivering))) else s)
      && MarkBegun(s, id) == (if tracked then s.(handoff := Tracking(Some(id), true, Some(ModelWork))) else s)
  {
  }

  /** Ending a waiting handoff stops intake and completes the plain stops that waited with it. */
  lemma HandoffEnds(s: State, mode: Mode, id: RequestId, ack: Acknowledgement)
    requires Consistent(s, mode) && (ack == Completed || ack == NotFulfilled)
    requires id in s.commands && s.commands[id].kind == Handoff
    ensures var t := ResolveHandoff(s, id, ack);
      if s.commands[id].ack != Accepted then t == s
      else
        && RowsEnd(s, t, StopsComplete(s) + Ends1(id, ack))
        && t.intake == Stopped && t.pending == None && t.countdown == None
        && t.handoff == s.handoff.(phase := Some(if ack == Completed then CompletedPhase else NotFulfilledPhase))
        && CountsAndSlotKept(s, t)
  {
    if s.commands[id].ack == Accepted {
      assert Waiting(s, id);
    }
  }

  /** Claiming the issue of the slot, or dropping the slot, ends exactly its command. */
  lemma SlotEnds(s: State, mode: Mode, number: int)
    requires Consistent(s, mode)
    ensures var t := CompleteNextIssue(s, number);
      if s.priority.Some? && s.priority.value.number == number
      then RowsEnd(s, t, Ends1(s.priority.value.request, Completed)) && t == s.(commands := t.commands, priority := None)
      else t == s
    ensures var t := FailNextIssue(s);
      if s.priority.Some?
      then RowsEnd(s, t, Ends1(s.priority.value.request, NotFulfilled)) && t == s.(commands := t.commands, priority := None)
      else t == s
  {
  }

  /** Ending a recovery command ends that row, if it waits, and nothing else. */
  lemma RecoveryEnds(s: State, id: RequestId, ack: Acknowledgement)
    ensures var t := ResolveRecovery(s, id, ack);
      && t == s.(commands := t.commands)
      && RowsEnd(s, t, if id in s.commands && s.commands[id].ack == Accepted then Ends1(id, ack) else map[])
  {
  }

  /** Without a countdown a finalized attempt completes the plain stops if one of them is pending, and else changes nothing. */
  lemma FinalizedWithoutCountdown(s: State, mode: Mode, attempt: AttemptId, outcome: string)
    requires Consistent(s, mode) && attempt !in s.counted && s.countdown.None?
    ensures var t := RecordFinalized(s, attempt, outcome);
      if PendingIs(s, Stop)
      then RowsEnd(s, t, StopsComplete(s)) && t == s.(commands := t.commands, intake := Stopped, pending := None)
      else t == s
  {
  }

  /** With one it is counted for the pending plan, which completes and stops intake with its last count. */
  lemma FinalizedIsCounted(s: State, mode: Mode, attempt: AttemptId, outcome: string)
    requires Consistent(s, mode) && Active(mode).Some? && attempt !in s.counted && s.countdown.Some?
    ensures var t, plan, left := RecordFinalized(s, attempt, outcome), s.pending.value, s.countdown.value.remaining - 1;
      && t.counted == s.counted[attempt := Counted(plan, outcome)] && t.latest == Some(Progress(attempt, outcome))
      && t.handoff == s.handoff && t.priority == s.priority
      && (if left == 0
          then RowsEnd(s, t, Ends1(plan, Completed)) && t.intake == Stopped && t.pending == None && t.countdown == None
          else t.commands == s.commands && t.intake == Running && t.pending == Some(plan)
               && t.countdown == Some(Countdown(s.countdown.value.requested, left, s.countdown.value.activeAttempt)))
  {
    assert Waiting(s, s.pending.value);
  }

  /** In any record: with more than one count left, counting runs intake on unless it is stopped. */
  lemma CountingRunsOn(s: State, attempt: AttemptId, outcome: string)
    requires attempt !in s.counted && s.countdown.Some? && s.pending.Some? && s.countdown.value.remaining >= 2
    ensures var t := RecordFinalized(s, attempt, outcome);
      t.intake == (if s.intake == Stopped then Stopped else Running) && t.commands == s.commands
  {
  }

  /** The commands a finalized attempt reports as completed are the ones it completes. */
  lemma ReportedAreCompleted(s: State, mode: Mode, attempt: AttemptId, outcome: string)
    requires Consistent(s, mode)
    ensures var t := RecordFinalized(s, attempt, outcome);
      StopsEndedBy(s, attempt)
        == set id | id in s.commands && s.commands[id].ack == Accepted && id in t.commands && t.commands[id].ack == Completed
  {
    if attempt !in s.counted && s.countdown.Some? {
      assert Waiting(s, s.pending.value);
    }
  }

  /** A claim enters stopping exactly with the last count of a countdown, and changes nothing else. */
  lemma ClaimCloses(sys: System, attempt: AttemptId)
    requires Inv(sys) && Enabled(sys, Claim(attempt))
    ensures var s, t := sys.store, Step(sys, Claim(attempt)).store;
      t == s.(intake := if s.countdown.Some? && s.countdown.value.remaining == 1 then Stopping else Running)
  {
  }

  // ---- Over runs ---------------------------------------------------------------------------------

  /** Only a resume or a stop-after lets intake run again. */
  predicate LetsRun(op: Op) {
    op.ResumeCommand? || op.StopAfterCommand?
  }

  lemma OnlyThoseLetRun(sys: System, op: Op)
    requires Inv(sys) && Enabled(sys, op) && sys.store.intake != Running && !LetsRun(op)
    ensures Step(sys, op).store.intake != Running
  {
    if CountsNow(sys, op) {
      CountingKeeps(sys.store, sys.mode.attempt, op.outcome, sys.mode);
    }
  }

  /** While intake does not run, no legal run without those two contains a claim. */
  lemma {:induction false} NothingIsClaimed(sys: System, ops: seq<Op>)
    requires Inv(sys) && Legal(sys, ops) && sys.store.intake != Running
    requires forall i :: 0 <= i < |ops| ==> !LetsRun(ops[i])
    ensures Run(sys, ops).store.intake != Running && forall i :: 0 <= i < |ops| ==> !ops[i].Claim?
  {
    if ops != [] {
      var prefix, last := ops[..|ops| - 1], ops[|ops| - 1];
      NothingIsClaimed(sys, prefix);
      RunKeepsInv(sys, prefix);
      OnlyThoseLetRun(Run(sys, prefix), last);
      assert ops == prefix + [last];
    }
  }

  /** From any reachable state: once a stop is stored, nothing is claimed until a resume or a stop-after. */
  lemma AfterAStopNothingIsClaimed(sys: System, id: RequestId, ops: seq<Op>)
    requires Inv(sys) && NewId(sys.store, id)
    requires Legal(Step(sys, StopCommand(id)), ops) && forall i :: 0 <= i < |ops| ==> !LetsRun(ops[i])
    ensures Run(Step(sys, StopCommand(id)), ops).store.intake != Running && forall i :: 0 <= i < |ops| ==> !ops[i].Claim?
  {
    StopStands(sys, id);
    StepKeepsInv(sys, StopCommand(id));
    NothingIsClaimed(Step(sys, StopCommand(id)), ops);
  }

  /** A stored stop leaves intake stopped exactly when it is completed, and stopping with it accepted otherwise. */
  lemma StopStands(sys: System, id: RequestId)
    requires Inv(sys) && NewId(sys.store, id)
    ensures var t := Step(sys, StopCommand(id)).store;
      && id in t.commands && t.intake != Running
      && t.commands[id].ack == if t.intake == Stopped then Completed else Accepted
  {
    match sys.store.intake
    case Running => StopWhileRunning(sys.store, sys.mode, id);
    case Stopping => StopWhileStopping(sys.store, sys.mode, id);
    case Stopped => StopWhileStopped(sys.store, sys.mode, id);
  }

  predicate CompletesStop(s: State, t: State, id: RequestId) {
    && id in t.commands && t.commands[id].kind == Stop && t.commands[id].ack == Completed
    && (id in s.commands ==> s.commands[id].ack == Accepted)
  }

  /** Rows that were there are at most superseded. */
  ghost predicate OnlySupersedes(s: State, t: State) {
    forall id :: id in s.commands ==> id in t.commands && t.commands[id].ack in {s.commands[id].ack, Superseded}
  }

  lemma StopSupersedes(s: State, id: RequestId, active: bool)
    ensures OnlySupersedes(s, SubmitStop(s, id, active).next)
  {
  }

  lemma ResumeSupersedes(s: State, id: RequestId, held: bool)
    ensures OnlySupersedes(s, SubmitResume(s, id, held).next)
  {
  }

  lemma StopAfterSupersedes(s: State, id: RequestId, count: int, mode: Mode)
    ensures OnlySupersedes(s, SubmitStopAfter(s, id, count, Active(mode).Some?, Active(mode)).next)
  {
  }

  lemma HandoffSupersedes(s: State, id: RequestId, mode: Mode, held: bool)
    ensures OnlySupersedes(s, SubmitHandoff(s, id, Active(mode).Some?, held).next)
  {
  }

  lemma NextIssueSupersedes(s: State, id: RequestId, number: int)
    ensures OnlySupersedes(s, SubmitNextIssue(s, id, number).next)
  {
  }

  lemma CommandsSupersede(sys: System, op: Op)
    requires Submitted(op).Some?
    ensures OnlySupersedes(sys.store, Step(sys, op).store)
  {
    match op
    case StopCommand(id) => StopSupersedes(sys.store, id, Active(sys.mode).Some?);
    case ResumeCommand(id, held) => ResumeSupersedes(sys.store, id, held);
    case StopAfterCommand(id, count) => StopAfterSupersedes(sys.store, id, count, sys.mode);
    case HandoffCommand(id, held) => HandoffSupersedes(sys.store, id, sys.mode, held);
    case NextIssueCommand(id, number) => NextIssueSupersedes(sys.store, id, number);
    case _ =>
  }

  lemma NewRowIsSubmitted(sys: System, op: Op, id: RequestId)
    requires Submitted(op).Some? && id !in sys.store.commands && id in Step(sys, op).store.commands
    ensures op.id == id && Step(sys, op).store.commands[id].kind == Submitted(op).value.kind
  {
  }

  lemma CommandsCompleteNoStop(sys: System, op: Op, id: RequestId)
    requires Submitted(op).Some? && CompletesStop(sys.store, Step(sys, op).store, id)
    ensures op.StopCommand? && op.id == id && id !in sys.store.commands
  {
    CommandsSupersede(sys, op);
    if id !in sys.store.commands {
      NewRowIsSubmitted(sys, op, id);
    }
  }

  lemma OutcomesCompleteStopped(sys: System, op: Op, id: RequestId)
    requires Inv(sys) && Enabled(sys, op) && Submitted(op).None? && CompletesStop(sys.store, Step(sys, op).store, id)
    ensures Step(sys, op).store.intake == Stopped
  {
    var s, mode := sys.store, sys.mode;
    match op
    case EndHandoff(h, ack) => EndedStops(s, h, ack, mode, id);
    case ReplayFinalized(_, _) =>
    case Count(outcome) => FinalizedStops(s, mode.attempt, outcome, mode, id);
    case Recount(outcome) => FinalizedStops(s, mode.attempt, outcome, mode, id);
    case SettleHandoff(fulfilled) =>
      if fulfilled.Some? {
        ResolvedStops(s, Outcome(fulfilled.value), mode, id);
      }
    case IdlePoll =>
      if s.intake == Stopping {
        ResolvedStops(s, NotFulfilled, mode, id);
      }
    case _ =>
  }

  /** After this, the stop is as it was or intake is stopped. */
  predicate StopOrStopped(s: State, t: State, id: RequestId) {
    t.intake == Stopped || (id in s.commands ==> id in t.commands && t.commands[id] == s.commands[id])
  }

  lemma EndedStops(s: State, h: RequestId, ack: Acknowledgement, mode: Mode, id: RequestId)
    requires Consistent(s, mode) && id in s.commands && s.commands[id].kind == Stop
    requires h in s.commands ==> s.commands[h].kind == Handoff
    ensures StopOrStopped(s, ResolveHandoff(s, h, ack), id)
  {
  }

  lemma FinalizedStops(s: State, attempt: AttemptId, outcome: string, mode: Mode, id: RequestId)
    requires Consistent(s, mode) && id in s.commands && s.commands[id].kind == Stop
    ensures StopOrStopped(s, RecordFinalized(s, attempt, outcome), id)
  {
    if s.pending.Some? {
      assert Waiting(s, s.pending.value);
    }
  }

  /** No step ever completes a plain stop but one that leaves intake stopped. */
  lemma CompletedMeansStopped(sys: System, op: Op, id: RequestId)
    requires Inv(sys) && Enabled(sys, op) && CompletesStop(sys.store, Step(sys, op).store, id)
    ensures Step(sys, op).store.intake == Stopped
  {
    if Submitted(op).Some? {
      CommandsCompleteNoStop(sys, op, id);
      if WellFormedId(id) {
        StopStands(sys, id);
      }
    } else {
      OutcomesCompleteStopped(sys, op, id);
    }
  }

  lemma ResolvedStops(s: State, ack: Acknowledgement, mode: Mode, id: RequestId)
    requires Consistent(s, mode) && id in s.commands && s.commands[id].kind == Stop
    ensures StopOrStopped(s, ResolveTracked(s, ack), id)
  {
    if s.handoff.request.Some? {
      EndedStops(s, s.handoff.request.value, ack, mode, id);
    }
  }

  /** A stop met by an active attempt completes when that attempt is finalized undisturbed, and intake is then stopped. */
  lemma StopIsHonoured(sys: System, id: RequestId, outcome: string)
    requires Inv(sys) && NewId(sys.store, id) && sys.mode.Working? && sys.store.intake == Running && NonBlank(outcome)
    ensures var stopped := Step(sys, StopCommand(id));
      var ops := [Count(outcome), Drop, SettleHandoff(Some(true))];
      && Legal(stopped, ops)
      && Run(stopped, ops).store.intake == Stopped
      && id in Run(stopped, ops).store.commands && Run(stopped, ops).store.commands[id].ack == Completed
  {
    var stopped := Step(sys, StopCommand(id));
    StopWhileRunning(sys.store, sys.mode, id);
    StepKeepsInv(sys, StopCommand(id));
    FinalizeEndsTheWait(stopped, outcome, true);
    assert Waiting(stopped.store, id);
  }
}
