/**
 The operator-control record as a value, and what each transaction of the
 control store does to it. A transaction either commits its whole new state or
 leaves the state as it was, so each one is a function from state to state.
 */
module ControlModel {
  import opened Prelude

  type RequestId = string
  type AttemptId = string

  datatype Intake = Running | Stopping | Stopped

  datatype Acknowledgement = Accepted | Completed | Superseded | NotFulfilled

  datatype Kind =
    | Stop | StopAfter | Resume | NextIssue | Handoff
    | RecoveryRetry | RecoveryRelease | ErrorsReset

  /** The canonical arguments stored with a command. */
  datatype Payload =
    | NoArguments
    | After(count: int)
    | Issue(number: int)
    | Attempt(attemptId: AttemptId)
    | Secured(attempt: AttemptId, savedAt: string)

  datatype Command = Command(sequence: nat, kind: Kind, payload: Payload, ack: Acknowledgement)

  type Commands = map<RequestId, Command>

  datatype Countdown = Countdown(requested: int, remaining: int, activeAttempt: Option<AttemptId>)

  datatype Priority = Priority(number: int, request: RequestId)

  datatype Phase = AcceptedPhase | Delivering | ModelWork | CompletedPhase | NotFulfilledPhase

  /** The handoff tracking columns: the request, the skill-begun flag and the phase. */
  datatype Tracking = Tracking(request: Option<RequestId>, begun: bool, phase: Option<Phase>)

  datatype Counted = Counted(plan: RequestId, outcome: string)

  /** One row of counting progress: the latest counted attempt with its outcome. */
  datatype Progress = Progress(attempt: AttemptId, outcome: string)

  datatype State = State(
    commands: Commands,
    intake: Intake,
    pending: Option<RequestId>,
    countdown: Option<Countdown>,
    latest: Option<Progress>,
    priority: Option<Priority>,
    handoff: Tracking,
    counted: map<AttemptId, Counted>)

  datatype Rejection =
    | BadRequestId | PayloadMismatch | HeldByRecovery | BadCount | BadIssue
    | IntakeStopped | HandoffOwnsModel | NoActiveAttempt | NoAttemptIdentity

  datatype Reply = Stored(command: Command) | Rejected(why: Rejection)

  datatype Result = Result(next: State, reply: Reply)

  const PLAN_KINDS: set<Kind> := {Stop, StopAfter, Handoff}
  const RECOVERY_KINDS: set<Kind> := {RecoveryRetry, RecoveryRelease}
  const UNTRACKED: Tracking := Tracking(None, false, None)
  const MAX_REQUEST_ID := 128

  const INITIAL: State := State(map[], Running, None, None, None, None, UNTRACKED, map[])

  predicate WellFormedId(id: RequestId) {
    NonBlank(id) && |id| <= MAX_REQUEST_ID
  }

  // ---- Reading the command table ------------------------------------------

  predicate IsAccepted(m: Commands, id: RequestId) {
    id in m && m[id].ack == Accepted
  }

  predicate IsAcceptedOf(m: Commands, id: RequestId, kinds: set<Kind>) {
    IsAccepted(m, id) && m[id].kind in kinds
  }

  function AcceptedOf(m: Commands, kinds: set<Kind>): set<RequestId> {
    set id | id in m && IsAcceptedOf(m, id, kinds)
  }

  predicate AnyAccepted(m: Commands, kinds: set<Kind>) {
    exists id :: id in m && IsAcceptedOf(m, id, kinds)
  }

  /** The tracked request is still accepted and the model has begun its skill. */
  predicate HandoffBegun(s: State) {
    s.handoff.request.Some? && IsAccepted(s.commands, s.handoff.request.value) && s.handoff.begun
  }

  predicate TracksAccepted(s: State, id: RequestId) {
    s.handoff.request == Some(id) && IsAccepted(s.commands, id)
  }

  // ---- Sequence numbers -----------------------------------------------------

  /** The highest sequence number in use, zero for an empty table. */
  ghost predicate IsHighest(m: Commands, highest: nat) {
    && (forall id :: id in m ==> m[id].sequence <= highest)
    && (highest == 0 || exists id :: id in m && m[id].sequence == highest)
  }

  lemma {:induction false} HighestExists(m: Commands) returns (highest: nat)
    ensures IsHighest(m, highest)
    decreases |m|
  {
    if m == map[] {
      highest := 0;
    } else {
      var id :| id in m;
      var rest := m - {id};
      var below := HighestExists(rest);
      highest := if m[id].sequence > below then m[id].sequence else below;
      assert forall other :: other in m ==> other == id || (other in rest && rest[other] == m[other]);
      assert IsHighest(m, highest);
    }
  }

  lemma SomeHighest(m: Commands)
    ensures exists highest: nat :: IsHighest(m, highest)
  {
    var highest := HighestExists(m);
  }

  ghost function Highest(m: Commands): nat {
    SomeHighest(m);
    var highest: nat :| IsHighest(m, highest);
    highest
  }

  lemma OnlyHighest(m: Commands, highest: nat)
    requires IsHighest(m, highest)
    ensures Highest(m) == highest
  {
    SomeHighest(m);
  }

  // ---- Writing the command table ------------------------------------------

  function Settle(m: Commands, kinds: set<Kind>, ack: Acknowledgement): Commands {
    map id | id in m :: if IsAcceptedOf(m, id, kinds) then m[id].(ack := ack) else m[id]
  }

  /** Settles one command only; an absent or already settled one stays as it is. */
  function SettleOne(m: Commands, id: RequestId, ack: Acknowledgement): Commands {
    if IsAccepted(m, id) then m[id := m[id].(ack := ack)] else m
  }

  /** Commits a new row under the next sequence number and answers with it. */
  ghost function Record(s: State, id: RequestId, kind: Kind, payload: Payload, ack: Acknowledgement): Result {
    var row := Command(Highest(s.commands) + 1, kind, payload, ack);
    Result(s.(commands := s.commands[id := row]), Stored(row))
  }

  /** A request ID seen before never applies a command: it answers or mismatches. */
  function Retry(s: State, id: RequestId, kind: Kind, payload: Payload): Result
    requires id in s.commands
  {
    var row := s.commands[id];
    Result(s, if row.kind == kind && row.payload == payload then Stored(row) else Rejected(PayloadMismatch))
  }

  // ---- Operator commands --------------------------------------------------

  ghost function SubmitStop(s: State, id: RequestId, active: bool): Result {
    if !WellFormedId(id) then Result(s, Rejected(BadRequestId))
    else if id in s.commands then Retry(s, id, Stop, NoArguments)
    else match s.intake
      case Stopped => Record(s, id, Stop, NoArguments, Completed)
      case Stopping => Record(JoinStopping(s, id), id, Stop, NoArguments, Accepted)
      case Running =>
        var t := ReplacePlans(s);
        if active
        then Record(t.(intake := Stopping, pending := Some(id)), id, Stop, NoArguments, Accepted)
        else Record(t.(intake := Stopped, pending := None), id, Stop, NoArguments, Completed)
  }

  /** A plain stop while stopping takes the wait over from a countdown or an unbegun handoff. */
  ghost function JoinStopping(s: State, id: RequestId): State {
    var t := if !AnyAccepted(s.commands, {StopAfter}) then s
             else s.(commands := Settle(s.commands, {StopAfter}, Superseded), pending := Some(id), countdown := None);
    if t.pending.Some? && TracksAccepted(t, t.pending.value) && !HandoffBegun(t) && AnyAccepted(t.commands, {Handoff})
    then t.(commands := Settle(t.commands, {Handoff}, Superseded), pending := Some(id), handoff := UNTRACKED)
    else t
  }

  /** A plain stop while running replaces a countdown, and a handoff that has not begun. */
  ghost function ReplacePlans(s: State): State {
    var kinds := if HandoffBegun(s) then {StopAfter} else {StopAfter, Handoff};
    if !AnyAccepted(s.commands, kinds) then s
    else s.(commands := Settle(s.commands, kinds, Superseded), countdown := None, handoff := UNTRACKED)
  }

  ghost function SubmitResume(s: State, id: RequestId, held: bool): Result {
    if !WellFormedId(id) then Result(s, Rejected(BadRequestId))
    else if id in s.commands then Retry(s, id, Resume, NoArguments)
    else if held then Result(s, Rejected(HeldByRecovery))
    else if HandoffBegun(s) then Record(s, id, Resume, NoArguments, Completed)
    else
      var handoff := if !AnyAccepted(s.commands, {Handoff}) then s.handoff else UNTRACKED;
      Record(s.(commands := Settle(s.commands, PLAN_KINDS, Superseded), intake := Running, pending := None,
                countdown := None, handoff := handoff),
             id, Resume, NoArguments, Completed)
  }

  ghost function SubmitStopAfter(s: State, id: RequestId, count: int, active: bool, attempt: Option<AttemptId>): Result {
    if !WellFormedId(id) then Result(s, Rejected(BadRequestId))
    else if count <= 0 then Result(s, Rejected(BadCount))
    else if id in s.commands then Retry(s, id, StopAfter, After(count))
    else if active && (attempt.None? || !NonBlank(attempt.value)) then Result(s, Rejected(NoAttemptIdentity))
    else if s.intake == Stopped then Result(s, Rejected(IntakeStopped))
    else if HandoffBegun(s) then Result(s, Rejected(HandoffOwnsModel))
    else
      Record(s.(commands := Settle(s.commands, PLAN_KINDS, Superseded),
                intake := if active && count == 1 then Stopping else Running,
                pending := Some(id),
                countdown := Some(Countdown(count, count, if active then attempt else None)),
                latest := None,
                handoff := TrackingAfterCountdown(s)),
             id, StopAfter, After(count), Accepted)
  }

  function TrackingAfterCountdown(s: State): Tracking {
    if s.handoff.request.Some? && IsAcceptedOf(s.commands, s.handoff.request.value, PLAN_KINDS)
    then UNTRACKED else s.handoff
  }

  ghost function SubmitHandoff(s: State, id: RequestId, active: bool, held: bool): Result {
    if !WellFormedId(id) then Result(s, Rejected(BadRequestId))
    else if id in s.commands then Retry(s, id, Handoff, NoArguments)
    else if held then Result(s, Rejected(HeldByRecovery))
    else if !active then Result(s, Rejected(NoActiveAttempt))
    else if HandoffBegun(s) then Result(s, Rejected(HandoffOwnsModel))
    else
      Record(s.(commands := Settle(s.commands, PLAN_KINDS, Superseded), intake := Stopping, pending := Some(id),
                countdown := None, handoff := Tracking(Some(id), false, Some(AcceptedPhase))),
             id, Handoff, NoArguments, Accepted)
  }

  ghost function SubmitNextIssue(s: State, id: RequestId, number: int): Result {
    if !WellFormedId(id) then Result(s, Rejected(BadRequestId))
    else if number <= 0 then Result(s, Rejected(BadIssue))
    else if id in s.commands then Retry(s, id, NextIssue, Issue(number))
    else
      var commands := if s.priority.Some? then SettleOne(s.commands, s.priority.value.request, Superseded) else s.commands;
      Record(s.(commands := commands, priority := Some(Priority(number, id))), id, NextIssue, Issue(number), Accepted)
  }

  /** Recovery commands and the errors reset only add their own row. */
  ghost function SubmitRow(s: State, id: RequestId, kind: Kind, payload: Payload, ack: Acknowledgement): Result {
    if !WellFormedId(id) then Result(s, Rejected(BadRequestId))
    else if id in s.commands then Retry(s, id, kind, payload)
    else Record(s, id, kind, payload, ack)
  }

  // ---- Lifecycle outcomes -------------------------------------------------

  function MarkDelivering(s: State, id: RequestId): State {
    if TracksAccepted(s, id) then s.(handoff := s.handoff.(phase := Some(Delivering))) else s
  }

  function MarkBegun(s: State, id: RequestId): State {
    if TracksAccepted(s, id) then s.(handoff := s.handoff.(begun := true, phase := Some(ModelWork))) else s
  }

  /** Ends a handoff either way; at its own boundary intake stops and waiting plain stops complete. */
  function ResolveHandoff(s: State, id: RequestId, ack: Acknowledgement): State {
    if !IsAccepted(s.commands, id) then s
    else
      var commands := SettleOne(s.commands, id, ack);
      var phase := if ack == Completed then CompletedPhase else NotFulfilledPhase;
      var handoff := if s.commands[id].kind == Handoff then s.handoff.(phase := Some(phase)) else s.handoff;
      if s.pending == Some(id)
      then s.(commands := Settle(commands, {Stop}, Completed), intake := Stopped, pending := None, handoff := handoff)
      else s.(commands := commands, handoff := handoff)
  }

  function CompleteNextIssue(s: State, number: int): State {
    if s.priority.Some? && s.priority.value.number == number then ClearPriority(s, Completed) else s
  }

  function FailNextIssue(s: State): State {
    ClearPriority(s, NotFulfilled)
  }

  function ClearPriority(s: State, ack: Acknowledgement): State {
    if s.priority.None? then s
    else s.(commands := SettleOne(s.commands, s.priority.value.request, ack), priority := None)
  }

  function ResolveRecovery(s: State, id: RequestId, ack: Acknowledgement): State {
    s.(commands := SettleOne(s.commands, id, ack))
  }

  predicate PendingPlainStop(s: State) {
    s.pending.Some? && s.pending.value in s.commands && s.commands[s.pending.value].kind == Stop
  }

  function CompletePendingStop(s: State): State {
    if PendingPlainStop(s)
    then s.(commands := Settle(s.commands, {Stop}, Completed), intake := Stopped, pending := None)
    else s
  }

  /** Counts one finalized attempt against the pending countdown, or completes waiting plain stops. */
  function RecordFinalized(s: State, attempt: AttemptId, outcome: string): State {
    if attempt in s.counted then s
    else if s.countdown.None? then CompletePendingStop(s)
    else if s.pending.None? then s
    else
      var plan := s.pending.value;
      var left := s.countdown.value.remaining - 1;
      var t := s.(counted := s.counted[attempt := Counted(plan, outcome)], latest := Some(Progress(attempt, outcome)));
      if left <= 0
      then t.(commands := SettleOne(t.commands, plan, Completed), intake := Stopped, pending := None, countdown := None)
      else t.(countdown := Some(s.countdown.value.(remaining := left)),
              intake := if s.intake == Stopped then Stopped else Running)
  }

  /** The commands that counting this attempt reports as completed. */
  function StopsEndedBy(s: State, attempt: AttemptId): set<RequestId> {
    if attempt in s.counted then {}
    else if s.countdown.None? then if PendingPlainStop(s) then AcceptedOf(s.commands, {Stop}) else {}
    else if s.pending.Some? && s.countdown.value.remaining <= 1 && s.pending.value in s.commands then {s.pending.value}
    else {}
  }

  predicate FinalClaim(s: State) {
    s.pending.Some? && s.countdown.Some? && s.countdown.value.remaining == 1 && s.intake == Running
  }

  function EnterStoppingForFinalClaim(s: State): State {
    if FinalClaim(s) then s.(intake := Stopping) else s
  }
}
