/**
 What holds between the tables of the control record in every reachable state,
 and that each transaction keeps it. `mode` is how far the lifecycle is with its attempt.
 */
module ControlInvariant {
  import opened Prelude
  import opened ControlModel

  /**
   The attempt's lifecycle as the control record sees it. Counting the attempt and dropping its
   checkpoint are two steps with other transactions in between, and a handoff is resolved after both.
   */
  datatype Mode =
    | Idle
    | Working(attempt: AttemptId)
    | Closing(attempt: AttemptId)
    | Dropped

  /** The attempt whose checkpoint exists, which is what operator commands look at. */
  function Active(mode: Mode): Option<AttemptId> {
    if mode.Working? || mode.Closing? then Some(mode.attempt) else None
  }

  /** A stop, stop-after or handoff command that is still accepted. */
  predicate Waiting(s: State, id: RequestId) {
    IsAcceptedOf(s.commands, id, PLAN_KINDS)
  }

  predicate PendingIs(s: State, kind: Kind) {
    s.pending.Some? && s.pending.value in s.commands && s.commands[s.pending.value].kind == kind
  }

  /** Pending is empty exactly when no plan waits, and otherwise names a waiting plan. */
  ghost predicate PendingNamesPlan(s: State) {
    && (s.pending.Some? ==> Waiting(s, s.pending.value))
    && (s.pending.None? ==> forall id :: id in s.commands ==> !Waiting(s, id))
  }

  /** A waiting stop-after or handoff is the only one of its sort: it is the pending one. */
  ghost predicate SolePlan(s: State) {
    forall id :: id in s.commands && Waiting(s, id) && s.commands[id].kind != Stop ==> s.pending == Some(id)
  }

  /** Plain stops wait together, and beside a handoff only once it has begun. */
  ghost predicate StopsShareTheWait(s: State) {
    forall id :: id in s.commands && Waiting(s, id) && s.commands[id].kind == Stop ==>
      PendingIs(s, Stop) || (PendingIs(s, Handoff) && s.handoff.begun)
  }

  ghost predicate CountdownMatches(s: State) {
    && (s.countdown.Some? <==> PendingIs(s, StopAfter))
    && (s.countdown.Some? ==>
          && 1 <= s.countdown.value.remaining <= s.countdown.value.requested
          && s.commands[s.pending.value].payload == After(s.countdown.value.requested))
  }

  ghost predicate HandoffTracked(s: State) {
    && (s.handoff.request.Some? ==>
          s.handoff.request.value in s.commands && s.commands[s.handoff.request.value].kind == Handoff)
    && (s.handoff.begun ==> s.handoff.request.Some?)
    && (PendingIs(s, Handoff) ==> s.handoff.request == s.pending)
  }

  /**
   Stopped waits for nothing, and running at most counts down. A countdown stops intake for its last
   attempt; once the attempt is counted, only for a plan of one accepted since.
   */
  ghost predicate IntakeMatches(s: State, mode: Mode) {
    && (s.intake == Stopped ==> s.pending.None?)
    && (s.intake == Running ==> s.pending.None? || PendingIs(s, StopAfter))
    && (s.intake == Stopping ==> s.pending.Some?)
    && (s.countdown.Some? ==>
          match mode
          case Working(_) => s.intake == Stopping <==> s.countdown.value.remaining == 1
          case Closing(_) => s.intake == Stopping <==> s.countdown.value.requested == 1
          case _ => s.intake == Stopping ==> s.countdown.value.requested == 1)
  }

  /** The priority slot holds exactly the one accepted next-issue command, with its number. */
  ghost predicate SlotMatches(s: State) {
    && (s.priority.Some? ==>
          && IsAccepted(s.commands, s.priority.value.request)
          && s.commands[s.priority.value.request].kind == NextIssue
          && s.commands[s.priority.value.request].payload == Issue(s.priority.value.number))
    && (forall id :: id in s.commands && IsAcceptedOf(s.commands, id, {NextIssue}) ==>
          s.priority.Some? && s.priority.value.request == id)
  }

  ghost predicate Consistent(s: State, mode: Mode) {
    && PendingNamesPlan(s)
    && SolePlan(s)
    && StopsShareTheWait(s)
    && CountdownMatches(s)
    && HandoffTracked(s)
    && IntakeMatches(s, mode)
    && SlotMatches(s)
  }

  // ---- Operator commands keep it --------------------------------------------

  /** A fresh row that waits for nothing changes no relation between the tables. */
  lemma SettledRowKeeps(s: State, id: RequestId, kind: Kind, payload: Payload, ack: Acknowledgement,
                        mode: Mode)
    requires Consistent(s, mode) && id !in s.commands
    requires ack != Accepted || (kind !in PLAN_KINDS && kind != NextIssue)
    ensures Consistent(Record(s, id, kind, payload, ack).next, mode)
  {
    var t := Record(s, id, kind, payload, ack).next;
    assert forall other :: other in t.commands && Waiting(t, other) ==> other in s.commands && Waiting(s, other);
    assert SlotMatches(t);
  }

  lemma StopWhileStoppingKeeps(s: State, id: RequestId, mode: Mode)
    requires Consistent(s, mode) && s.intake == Stopping && id !in s.commands
    ensures Consistent(Record(JoinStopping(s, id), id, Stop, NoArguments, Accepted).next, mode)
  {
  }

  /** Replacing the plans of a running instance leaves nothing waiting. */
  lemma RunningPlansCleared(s: State, mode: Mode)
    requires Consistent(s, mode) && s.intake == Running
    ensures var t := ReplacePlans(s);
      && (forall id :: id in t.commands ==> !Waiting(t, id))
      && t.countdown.None? && SlotMatches(t)
      && t.commands.Keys == s.commands.Keys
      && (t.handoff.request.Some? ==>
            t.handoff.request.value in t.commands && t.commands[t.handoff.request.value].kind == Handoff)
      && (t.handoff.begun ==> t.handoff.request.Some?)
  {
    assert !HandoffBegun(s);
  }

  lemma StopWhileRunningKeeps(s: State, id: RequestId, mode: Mode)
    requires Consistent(s, mode) && s.intake == Running && id !in s.commands && WellFormedId(id)
    ensures Consistent(SubmitStop(s, id, Active(mode).Some?).next, mode)
  {
    RunningPlansCleared(s, mode);
    var t := ReplacePlans(s);
    var u := SubmitStop(s, id, Active(mode).Some?).next;
    assert forall other :: other in u.commands && Waiting(u, other) ==> other == id;
    assert SlotMatches(u);
  }

  lemma StopKeeps(s: State, id: RequestId, mode: Mode)
    requires Consistent(s, mode)
    ensures Consistent(SubmitStop(s, id, Active(mode).Some?).next, mode)
  {
    if WellFormedId(id) && id !in s.commands {
      match s.intake
      case Stopped => SettledRowKeeps(s, id, Stop, NoArguments, Completed, mode);
      case Stopping => StopWhileStoppingKeeps(s, id, mode);
      case Running => StopWhileRunningKeeps(s, id, mode);
    }
  }

  function AllPlansSuperseded(s: State, handoff: Tracking): State {
    s.(commands := Settle(s.commands, PLAN_KINDS, Superseded), intake := Running, pending := None, countdown := None,
       handoff := handoff)
  }

  lemma PlansCleared(s: State, mode: Mode, handoff: Tracking)
    requires Consistent(s, mode) && handoff in {s.handoff, UNTRACKED}
    ensures Consistent(AllPlansSuperseded(s, handoff), mode)
  {
  }

  lemma ResumeKeeps(s: State, id: RequestId, held: bool, mode: Mode)
    requires Consistent(s, mode)
    ensures Consistent(SubmitResume(s, id, held).next, mode)
  {
    if WellFormedId(id) && id !in s.commands && !held {
      if HandoffBegun(s) {
        SettledRowKeeps(s, id, Resume, NoArguments, Completed, mode);
      } else {
        PlansCleared(s, mode, if !AnyAccepted(s.commands, {Handoff}) then s.handoff else UNTRACKED);
        SettledRowKeeps(AllPlansSuperseded(s, if !AnyAccepted(s.commands, {Handoff}) then s.handoff else UNTRACKED),
                        id, Resume, NoArguments, Completed, mode);
      }
    }
  }

  lemma StopAfterKeeps(s: State, id: RequestId, count: int, mode: Mode)
    requires Consistent(s, mode)
    ensures Consistent(SubmitStopAfter(s, id, count, Active(mode).Some?, Active(mode)).next, mode)
  {
  }

  lemma HandoffKeeps(s: State, id: RequestId, held: bool, mode: Mode)
    requires Consistent(s, mode)
    ensures Consistent(SubmitHandoff(s, id, Active(mode).Some?, held).next, mode)
  {
  }

  lemma ClearPriorityKeeps(s: State, ack: Acknowledgement, mode: Mode)
    requires Consistent(s, mode) && ack != Accepted
    ensures Consistent(ClearPriority(s, ack), mode)
  {
  }

  lemma NewSlotKeeps(s: State, id: RequestId, number: int, mode: Mode)
    requires Consistent(s, mode) && s.priority.None? && id !in s.commands
    ensures Consistent(Record(s.(priority := Some(Priority(number, id))), id, NextIssue, Issue(number), Accepted).next, mode)
  {
  }

  lemma NextIssueKeeps(s: State, id: RequestId, number: int, mode: Mode)
    requires Consistent(s, mode)
    ensures Consistent(SubmitNextIssue(s, id, number).next, mode)
  {
    if WellFormedId(id) && number > 0 && id !in s.commands {
      ClearPriorityKeeps(s, Superseded, mode);
      NewSlotKeeps(ClearPriority(s, Superseded), id, number, mode);
    }
  }

  lemma RowKeeps(s: State, id: RequestId, kind: Kind, payload: Payload, ack: Acknowledgement, mode: Mode)
    requires Consistent(s, mode) && (kind in RECOVERY_KINDS || kind == ErrorsReset)
    ensures Consistent(SubmitRow(s, id, kind, payload, ack).next, mode)
  {
    if WellFormedId(id) && id !in s.commands {
      SettledRowKeeps(s, id, kind, payload, ack, mode);
    }
  }

  // ---- Lifecycle outcomes keep it -------------------------------------------

  lemma TrackingKeeps(s: State, id: RequestId, mode: Mode)
    requires Consistent(s, mode)
    ensures Consistent(MarkDelivering(s, id), mode) && Consistent(MarkBegun(s, id), mode)
  {
  }

  lemma ResolveHandoffKeeps(s: State, id: RequestId, ack: Acknowledgement, mode: Mode)
    requires Consistent(s, mode) && (ack == Completed || ack == NotFulfilled)
    requires id in s.commands ==> s.commands[id].kind == Handoff
    ensures Consistent(ResolveHandoff(s, id, ack), mode)
  {
  }

  lemma ResolveRecoveryKeeps(s: State, id: RequestId, ack: Acknowledgement, mode: Mode)
    requires Consistent(s, mode) && ack != Accepted
    requires id in s.commands ==> s.commands[id].kind in RECOVERY_KINDS
    ensures Consistent(ResolveRecovery(s, id, ack), mode)
  {
  }

  lemma CompletePendingStopKeeps(s: State, mode: Mode)
    requires Consistent(s, mode)
    ensures Consistent(CompletePendingStop(s), mode)
  {
  }
}
