/**
 The control store updates its tables in place, one transaction per method.
 Every method is proved to commit exactly the state of its ControlModel function,
 and to change nothing when it answers with a stored command or a rejection.
 */
module ControlStore {
  import opened Prelude
  import opened ControlModel

  lemma NothingToSettle(m: Commands, kinds: set<Kind>, ack: Acknowledgement)
    ensures AcceptedOf(m, kinds) == {} <==> !AnyAccepted(m, kinds)
    ensures !AnyAccepted(m, kinds) ==> Settle(m, kinds, ack) == m
  {
    if id :| id in m && IsAcceptedOf(m, id, kinds) {
      assert id in AcceptedOf(m, kinds);
    }
  }

  lemma SettleInTwo(m: Commands, first: set<Kind>, second: set<Kind>, ack: Acknowledgement)
    requires ack != Accepted
    ensures Settle(Settle(m, first, ack), second, ack) == Settle(m, first + second, ack)
    ensures AnyAccepted(m, first + second) <==> AnyAccepted(m, first) || AnyAccepted(m, second)
  {
    if id :| id in m && IsAcceptedOf(m, id, first + second) {
      assert IsAcceptedOf(m, id, first) || IsAcceptedOf(m, id, second);
    }
    if id :| id in m && IsAcceptedOf(m, id, first) {
      assert IsAcceptedOf(m, id, first + second);
    }
    if id :| id in m && IsAcceptedOf(m, id, second) {
      assert IsAcceptedOf(m, id, first + second);
    }
  }

  /** Settling the handoffs and then, if any plan was accepted at all, the stops settles every plan. */
  lemma AllPlansSettled(m: Commands)
    ensures var t := Settle(m, {Handoff}, Superseded);
      var some := AcceptedOf(m, {Handoff}) + AcceptedOf(m, {Stop, StopAfter}) != {};
      (if some then Settle(t, {Stop, StopAfter}, Superseded) else t) == Settle(m, PLAN_KINDS, Superseded)
  {
    NothingToSettle(m, {Handoff}, Superseded);
    NothingToSettle(m, {Stop, StopAfter}, Superseded);
    NothingToSettle(m, PLAN_KINDS, Superseded);
    SettleInTwo(m, {Handoff}, {Stop, StopAfter}, Superseded);
    assert {Handoff} + {Stop, StopAfter} == PLAN_KINDS;
  }

  class ControlStore {
    var commands: Commands
    var intake: Intake
    var pending: Option<RequestId>
    var countdown: Option<Countdown>
    var latest: Option<Progress>
    var priority: Option<Priority>
    var handoff: Tracking
    var counted: map<AttemptId, Counted>

    ghost function Contents(): State
      reads this
    {
      State(commands, intake, pending, countdown, latest, priority, handoff, counted)
    }

    constructor ()
      ensures Contents() == INITIAL
    {
      commands, intake, pending, countdown := map[], Running, None, None;
      latest, priority, handoff, counted := None, None, UNTRACKED, map[];
    }

    // ---- Internals ---------------------------------------------------------

    predicate HandoffBegunNow()
      reads this
      ensures HandoffBegunNow() == HandoffBegun(Contents())
    {
      handoff.request.Some? && IsAccepted(commands, handoff.request.value) && handoff.begun
    }

    predicate TracksAcceptedNow(id: RequestId)
      reads this
      ensures TracksAcceptedNow(id) == TracksAccepted(Contents(), id)
    {
      handoff.request == Some(id) && IsAccepted(commands, id)
    }

    /** Reads the highest sequence number of any row, zero for an empty table. */
    method MaxSequence() returns (highest: nat)
      ensures IsHighest(commands, highest)
    {
      highest := 0;
      var rest := commands.Keys;
      while rest != {}
        invariant rest <= commands.Keys
        invariant forall id :: id in commands && id !in rest ==> commands[id].sequence <= highest
        invariant highest == 0 || exists id :: id in commands && commands[id].sequence == highest
        decreases |rest|
      {
        var id :| id in rest;
        if commands[id].sequence > highest {
          highest := commands[id].sequence;
        }
        rest := rest - {id};
      }
    }

    method SupersedePlans(kinds: set<Kind>) returns (superseded: set<RequestId>)
      modifies this`commands
      ensures superseded == AcceptedOf(old(commands), kinds)
      ensures superseded != {} <==> AnyAccepted(old(commands), kinds)
      ensures commands == Settle(old(commands), kinds, Superseded)
      ensures !AnyAccepted(old(commands), kinds) ==> commands == old(commands)
    {
      superseded := AcceptedOf(commands, kinds);
      NothingToSettle(commands, kinds, Superseded);
      if superseded != {} {
        commands := Settle(commands, kinds, Superseded);
      }
    }

    method Insert(id: RequestId, kind: Kind, payload: Payload, ack: Acknowledgement) returns (reply: Reply)
      requires id !in commands
      modifies this`commands
      ensures reply == Stored(Command(Highest(old(commands)) + 1, kind, payload, ack))
      ensures Contents() == old(Contents()).(commands := old(commands)[id := reply.command])
    {
      var highest := MaxSequence();
      OnlyHighest(commands, highest);
      var row := Command(highest + 1, kind, payload, ack);
      commands := commands[id := row];
      reply := Stored(row);
    }

    method ReplyStored(id: RequestId, kind: Kind, payload: Payload) returns (reply: Reply)
      requires id in commands
      ensures Result(Contents(), reply) == Retry(Contents(), id, kind, payload)
    {
      var existing := commands[id];
      if existing.kind != kind || existing.payload != payload {
        return Rejected(PayloadMismatch);
      }
      return Stored(existing);
    }

    /** A plain stop joining a wait already under way. */
    method JoinWait(id: RequestId)
      modifies this`commands, this`pending, this`countdown, this`handoff
      ensures Contents() == JoinStopping(old(Contents()), id)
    {
      var superseded := SupersedePlans({StopAfter});
      if superseded != {} {
        pending := Some(id);
        countdown := None;
      }
      if pending.Some? && TracksAcceptedNow(pending.value) && !HandoffBegunNow() {
        var handoffs := SupersedePlans({Handoff});
        if handoffs != {} {
          pending := Some(id);
          handoff := UNTRACKED;
        }
      }
    }

    method ReplaceRunningPlans()
      modifies this`commands, this`countdown, this`handoff
      ensures Contents() == ReplacePlans(old(Contents()))
    {
      var kinds := {StopAfter};
      if !HandoffBegunNow() {
        kinds := {StopAfter, Handoff};
      }
      var superseded := SupersedePlans(kinds);
      if superseded != {} {
        countdown := None;
        handoff := UNTRACKED;
      }
    }

    /** A new countdown replaces every accepted plan, and stops tracking a handoff it superseded. */
    method ReplaceAllPlans()
      modifies this`commands, this`handoff
      ensures commands == Settle(old(commands), PLAN_KINDS, Superseded)
      ensures handoff == ControlModel.TrackingAfterCountdown(old(Contents()))
    {
      var superseded := SupersedePlans(PLAN_KINDS);
      if handoff.request.Some? && handoff.request.value in superseded {
        handoff := UNTRACKED;
      }
    }

    // ---- Operator commands -------------------------------------------------

    method SubmitStop(id: RequestId, hasActiveAttempt: bool) returns (reply: Reply)
      modifies this
      ensures Result(Contents(), reply) == ControlModel.SubmitStop(old(Contents()), id, hasActiveAttempt)
    {
      if !WellFormedId(id) {
        return Rejected(BadRequestId);
      }
      if id in commands {
        reply := ReplyStored(id, Stop, NoArguments);
        return;
      }
      var acknowledgement;
      match intake {
        case Stopped =>
          acknowledgement := Completed;
        case Stopping =>
          acknowledgement := Accepted;
          JoinWait(id);
        case Running =>
          ReplaceRunningPlans();
          if hasActiveAttempt {
            acknowledgement := Accepted;
            intake, pending := Stopping, Some(id);
          } else {
            acknowledgement := Completed;
            intake, pending := Stopped, None;
          }
      }
      reply := Insert(id, Stop, NoArguments, acknowledgement);
    }

    /** Supersedes every plan, and sets intake and clears the pending command unless they already are as wanted. */
    method ReturnToRunning()
      modifies this`commands, this`handoff, this`intake, this`pending
      ensures commands == Settle(old(commands), PLAN_KINDS, Superseded) && intake == Running && pending.None?
      ensures handoff == if !AnyAccepted(old(commands), {Handoff}) then old(handoff) else UNTRACKED
    {
      var plans := AcceptedOf(commands, {Stop, StopAfter});
      var handoffs := SupersedePlans({Handoff});
      if handoffs != {} {
        handoff := UNTRACKED;
      }
      if !(intake == Running && pending.None? && handoffs + plans == {}) {
        if handoffs + plans != {} {
          commands := Settle(commands, {Stop, StopAfter}, Superseded);
        }
        intake, pending := Running, None;
      }
      AllPlansSettled(old(commands));
    }

    method SubmitResume(id: RequestId, recoveryHold: bool) returns (reply: Reply)
      modifies this
      ensures Result(Contents(), reply) == ControlModel.SubmitResume(old(Contents()), id, recoveryHold)
    {
      if !WellFormedId(id) {
        return Rejected(BadRequestId);
      }
      if id in commands {
        reply := ReplyStored(id, Resume, NoArguments);
        return;
      }
      if recoveryHold {
        return Rejected(HeldByRecovery);
      }
      if HandoffBegunNow() {
        reply := Insert(id, Resume, NoArguments, Completed);
        return;
      }
      ReturnToRunning();
      reply := Insert(id, Resume, NoArguments, Completed);
      countdown := None;
    }

    method SubmitStopAfter(id: RequestId, after: int, hasActiveAttempt: bool, activeAttempt: Option<AttemptId>)
      returns (reply: Reply)
      modifies this
      ensures Result(Contents(), reply)
           == ControlModel.SubmitStopAfter(old(Contents()), id, after, hasActiveAttempt, activeAttempt)
    {
      if !WellFormedId(id) {
        return Rejected(BadRequestId);
      }
      if after <= 0 {
        return Rejected(BadCount);
      }
      if id in commands {
        reply := ReplyStored(id, StopAfter, After(after));
        return;
      }
      if hasActiveAttempt && (activeAttempt.None? || !NonBlank(activeAttempt.value)) {
        return Rejected(NoAttemptIdentity);
      }
      if intake == Stopped {
        return Rejected(IntakeStopped);
      }
      if HandoffBegunNow() {
        return Rejected(HandoffOwnsModel);
      }
      ReplaceAllPlans();
      reply := Insert(id, StopAfter, After(after), Accepted);
      if hasActiveAttempt && after == 1 {
        intake := Stopping;
      } else {
        intake := Running;
      }
      pending := Some(id);
      countdown := Some(Countdown(after, after, if hasActiveAttempt then activeAttempt else None));
      latest := None;
    }

    method SubmitHandoff(id: RequestId, hasActiveAttempt: bool, recoveryHold: bool) returns (reply: Reply)
      modifies this
      ensures Result(Contents(), reply)
           == ControlModel.SubmitHandoff(old(Contents()), id, hasActiveAttempt, recoveryHold)
    {
      if !WellFormedId(id) {
        return Rejected(BadRequestId);
      }
      if id in commands {
        reply := ReplyStored(id, Handoff, NoArguments);
        return;
      }
      if recoveryHold {
        return Rejected(HeldByRecovery);
      }
      if !hasActiveAttempt {
        return Rejected(NoActiveAttempt);
      }
      if HandoffBegunNow() {
        return Rejected(HandoffOwnsModel);
      }
      var superseded := SupersedePlans(PLAN_KINDS);
      countdown := None;
      reply := Insert(id, Handoff, NoArguments, Accepted);
      intake, pending := Stopping, Some(id);
      handoff := Tracking(Some(id), false, Some(AcceptedPhase));
    }

    method SubmitNextIssue(id: RequestId, number: int) returns (reply: Reply)
      modifies this
      ensures Result(Contents(), reply) == ControlModel.SubmitNextIssue(old(Contents()), id, number)
    {
      if !WellFormedId(id) {
        return Rejected(BadRequestId);
      }
      if number <= 0 {
        return Rejected(BadIssue);
      }
      if id in commands {
        reply := ReplyStored(id, NextIssue, Issue(number));
        return;
      }
      if priority.Some? {
        commands := SettleOne(commands, priority.value.request, Superseded);
      }
      reply := Insert(id, NextIssue, Issue(number), Accepted);
      priority := Some(Priority(number, id));
    }

    /** Serves recovery retry, recovery release and the errors reset, which touch no other table. */
    method SubmitRow(id: RequestId, kind: Kind, payload: Payload, ack: Acknowledgement) returns (reply: Reply)
      modifies this
      ensures Result(Contents(), reply) == ControlModel.SubmitRow(old(Contents()), id, kind, payload, ack)
    {
      if !WellFormedId(id) {
        return Rejected(BadRequestId);
      }
      if id in commands {
        reply := ReplyStored(id, kind, payload);
        return;
      }
      reply := Insert(id, kind, payload, ack);
    }

    // ---- Lifecycle outcomes ------------------------------------------------

    method MarkHandoffDelivering(id: RequestId) returns (updated: bool)
      modifies this
      ensures updated == old(TracksAcceptedNow(id))
      ensures Contents() == MarkDelivering(old(Contents()), id)
    {
      if !TracksAcceptedNow(id) {
        return false;
      }
      handoff := handoff.(phase := Some(Delivering));
      return true;
    }

    method MarkHandoffBegun(id: RequestId) returns (updated: bool)
      modifies this
      ensures updated == old(TracksAcceptedNow(id))
      ensures Contents() == MarkBegun(old(Contents()), id)
    {
      if !TracksAcceptedNow(id) {
        return false;
      }
      handoff := handoff.(begun := true, phase := Some(ModelWork));
      return true;
    }

    /** Completes a handoff or marks it not fulfilled; both stop intake at the same boundary. */
    method EndHandoff(id: RequestId, ack: Acknowledgement) returns (record: Option<Command>)
      requires (ack == Completed || ack == NotFulfilled)
      modifies this
      ensures Contents() == ResolveHandoff(old(Contents()), id, ack)
      ensures record == if id in commands then Some(commands[id]) else None
    {
      if id !in commands {
        return None;
      }
      if commands[id].ack != Accepted {
        return Some(commands[id]);
      }
      var kind := commands[id].kind;
      commands := commands[id := commands[id].(ack := ack)];
      var waiting := pending;
      if waiting == Some(id) {
        intake, pending := Stopped, None;
      }
      if kind == Handoff {
        handoff := handoff.(phase := Some(if ack == Completed then CompletedPhase else NotFulfilledPhase));
      }
      if waiting == Some(id) {
        commands := Settle(commands, {Stop}, Completed);
      }
      return Some(commands[id]);
    }

    method CompleteNextIssue(number: int) returns (done: bool)
      modifies this
      ensures done == (old(priority).Some? && old(priority).value.number == number)
      ensures Contents() == ControlModel.CompleteNextIssue(old(Contents()), number)
    {
      if priority.None? || priority.value.number != number {
        return false;
      }
      commands := SettleOne(commands, priority.value.request, Completed);
      priority := None;
      return true;
    }

    method FailNextIssue() returns (done: bool)
      modifies this
      ensures done == old(priority).Some?
      ensures Contents() == ControlModel.FailNextIssue(old(Contents()))
    {
      if priority.None? {
        return false;
      }
      commands := SettleOne(commands, priority.value.request, NotFulfilled);
      priority := None;
      return true;
    }

    method EndRecoveryCommand(id: RequestId, ack: Acknowledgement) returns (record: Option<Command>)
      modifies this
      ensures Contents() == ResolveRecovery(old(Contents()), id, ack)
      ensures record == if id in commands then Some(commands[id]) else None
    {
      if id !in commands {
        return None;
      }
      if commands[id].ack != Accepted {
        return Some(commands[id]);
      }
      commands := commands[id := commands[id].(ack := ack)];
      return Some(commands[id]);
    }

    method CompletePendingStop() returns (completed: set<RequestId>)
      modifies this
      ensures completed == if PendingPlainStop(old(Contents())) then AcceptedOf(old(commands), {Stop}) else {}
      ensures Contents() == ControlModel.CompletePendingStop(old(Contents()))
    {
      if pending.None? {
        return {};
      }
      if pending.value !in commands || commands[pending.value].kind != Stop {
        return {};
      }
      completed := CompletePlainStops();
    }

    method CompletePlainStops() returns (completed: set<RequestId>)
      modifies this`commands, this`intake, this`pending
      ensures completed == AcceptedOf(old(commands), {Stop})
      ensures commands == Settle(old(commands), {Stop}, Completed) && intake == Stopped && pending == None
    {
      completed := AcceptedOf(commands, {Stop});
      commands := Settle(commands, {Stop}, Completed);
      intake, pending := Stopped, None;
    }

    /** Answers false for a missing attempt identity or outcome, which the source raises on. */
    method RecordAttemptFinalized(attempt: AttemptId, outcome: string) returns (ok: bool, completed: set<RequestId>)
      modifies this
      ensures ok == (NonBlank(attempt) && NonBlank(outcome))
      ensures Contents() == if ok then RecordFinalized(old(Contents()), attempt, outcome) else old(Contents())
      ensures completed == if ok then StopsEndedBy(old(Contents()), attempt) else {}
    {
      ok, completed := NonBlank(attempt) && NonBlank(outcome), {};
      if !ok || attempt in counted {
        return;
      }
      if countdown.Some? && pending.None? {
        return;
      }
      if countdown.Some? {
        var plan := pending.value;
        counted := counted[attempt := Counted(plan, outcome)];
        latest := Some(Progress(attempt, outcome));
        var left := countdown.value.remaining - 1;
        if left <= 0 {
          commands := SettleOne(commands, plan, Completed);
          intake, pending, countdown := Stopped, None, None;
          completed := if plan in commands then {plan} else {};
          return;
        }
        countdown := Some(countdown.value.(remaining := left));
        if intake != Stopped {
          intake := Running;
        }
        return;
      }
      completed := CompletePendingStop();
    }

    method EnterStoppingForFinalClaim() returns (entered: bool)
      modifies this`intake
      ensures entered == FinalClaim(old(Contents()))
      ensures Contents() == ControlModel.EnterStoppingForFinalClaim(old(Contents()))
    {
      if pending.Some? && countdown.Some? && countdown.value.remaining == 1 && intake == Running {
        intake := Stopping;
        return true;
      }
      return false;
    }
  }
}
