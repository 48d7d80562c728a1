/**
 The command log over whole runs: sequence numbers are 1 to n in commit order,
 a row never changes but for one move of its acknowledgement to a final value, and a
 request ID that was seen before never applies a command.
 */
module ControlLog {
  import opened Prelude
  import opened ControlModel
  import opened ControlInvariant
  import opened ControlRuns

  ghost predicate SameRow(before: Command, after: Command) {
    && before.sequence == after.sequence && before.kind == after.kind && before.payload == after.payload
    && (before.ack == after.ack || before.ack == Accepted)
  }

  /** Rows keep their identity and a settled acknowledgement stays. */
  ghost predicate RowsKept(m: Commands, m': Commands) {
    forall id :: id in m ==> id in m' && SameRow(m[id], m'[id])
  }

  /** At most one row is new, and it takes the next sequence number. */
  ghost predicate Extends(m: Commands, m': Commands) {
    RowsKept(m, m') && (m'.Keys == m.Keys || OneMore(m, m'))
  }

  ghost predicate OneMore(m: Commands, m': Commands) {
    exists id :: id in m' && id !in m && m'.Keys == m.Keys + {id} && m'[id].sequence == Highest(m) + 1
  }

  ghost predicate Sequenced(m: Commands) {
    && (forall id :: id in m ==> 1 <= m[id].sequence <= |m|)
    && (forall a, b :: a in m && b in m && m[a].sequence == m[b].sequence ==> a == b)
  }

  // ---- One transaction -------------------------------------------------------

  lemma SettleExtends(m: Commands, kinds: set<Kind>, ack: Acknowledgement)
    ensures Settle(m, kinds, ack).Keys == m.Keys && RowsKept(m, Settle(m, kinds, ack))
  {
  }

  lemma SameSequencesSameHighest(m: Commands, m': Commands)
    requires m'.Keys == m.Keys && RowsKept(m, m')
    ensures Highest(m') == Highest(m)
  {
    var highest := HighestExists(m);
    OnlyHighest(m, highest);
    assert IsHighest(m', highest);
    OnlyHighest(m', highest);
  }

  /** A transaction that settles some rows and records one more extends the log. */
  lemma RecordExtends(m: Commands, t: State, id: RequestId, kind: Kind, payload: Payload, ack: Acknowledgement)
    requires t.commands.Keys == m.Keys && RowsKept(m, t.commands) && id !in m
    ensures Extends(m, Record(t, id, kind, payload, ack).next.commands)
  {
    SameSequencesSameHighest(m, t.commands);
    var m' := Record(t, id, kind, payload, ack).next.commands;
    assert id in m' && m'.Keys == m.Keys + {id} && m'[id].sequence == Highest(m) + 1;
    assert OneMore(m, m');
  }

  lemma StopExtends(s: State, id: RequestId, active: bool)
    ensures Extends(s.commands, SubmitStop(s, id, active).next.commands)
  {
    if WellFormedId(id) && id !in s.commands {
      var t := match s.intake case Stopped => s case Stopping => JoinStopping(s, id) case Running => ReplacePlans(s);
      assert t.commands.Keys == s.commands.Keys && RowsKept(s.commands, t.commands);
      match s.intake
      case Stopped => RecordExtends(s.commands, t, id, Stop, NoArguments, Completed);
      case Stopping => RecordExtends(s.commands, t, id, Stop, NoArguments, Accepted);
      case Running =>
        RecordExtends(s.commands, t.(intake := Stopping, pending := Some(id)), id, Stop, NoArguments, Accepted);
        RecordExtends(s.commands, t.(intake := Stopped, pending := None), id, Stop, NoArguments, Completed);
    }
  }

  lemma ResumeExtends(s: State, id: RequestId, held: bool)
    ensures Extends(s.commands, SubmitResume(s, id, held).next.commands)
  {
    if WellFormedId(id) && id !in s.commands && !held {
      if HandoffBegun(s) {
        RecordExtends(s.commands, s, id, Resume, NoArguments, Completed);
      } else {
        var handoff := if !AnyAccepted(s.commands, {Handoff}) then s.handoff else UNTRACKED;
        var t := s.(commands := Settle(s.commands, PLAN_KINDS, Superseded), intake := Running, pending := None,
                    countdown := None, handoff := handoff);
        SettleExtends(s.commands, PLAN_KINDS, Superseded);
        RecordExtends(s.commands, t, id, Resume, NoArguments, Completed);
      }
    }
  }

  lemma StopAfterExtends(s: State, id: RequestId, count: int, active: bool, attempt: Option<AttemptId>)
    ensures Extends(s.commands, SubmitStopAfter(s, id, count, active, attempt).next.commands)
  {
    if SubmitStopAfter(s, id, count, active, attempt).reply.Stored? && id !in s.commands {
      var t := SubmitStopAfter(s, id, count, active, attempt).next.(commands := Settle(s.commands, PLAN_KINDS, Superseded));
      SettleExtends(s.commands, PLAN_KINDS, Superseded);
      RecordExtends(s.commands, t, id, StopAfter, After(count), Accepted);
    }
  }

  lemma HandoffExtends(s: State, id: RequestId, active: bool, held: bool)
    ensures Extends(s.commands, SubmitHandoff(s, id, active, held).next.commands)
  {
    if SubmitHandoff(s, id, active, held).reply.Stored? && id !in s.commands {
      var t := SubmitHandoff(s, id, active, held).next.(commands := Settle(s.commands, PLAN_KINDS, Superseded));
      SettleExtends(s.commands, PLAN_KINDS, Superseded);
      RecordExtends(s.commands, t, id, Handoff, NoArguments, Accepted);
    }
  }

  lemma NextIssueExtends(s: State, id: RequestId, number: int)
    ensures Extends(s.commands, SubmitNextIssue(s, id, number).next.commands)
  {
    if SubmitNextIssue(s, id, number).reply.Stored? && id !in s.commands {
      var commands := if s.priority.Some? then SettleOne(s.commands, s.priority.value.request, Superseded) else s.commands;
      var t := s.(commands := commands, priority := Some(Priority(number, id)));
      RecordExtends(s.commands, t, id, NextIssue, Issue(number), Accepted);
    }
  }

  lemma RowExtends(s: State, id: RequestId, kind: Kind, payload: Payload, ack: Acknowledgement)
    ensures Extends(s.commands, SubmitRow(s, id, kind, payload, ack).next.commands)
  {
    if WellFormedId(id) && id !in s.commands {
      RecordExtends(s.commands, s, id, kind, payload, ack);
    }
  }

  lemma RecordFinalizedExtends(s: State, attempt: AttemptId, outcome: string)
    ensures RecordFinalized(s, attempt, outcome).commands.Keys == s.commands.Keys
    ensures RowsKept(s.commands, RecordFinalized(s, attempt, outcome).commands)
  {
  }

  lemma ResolveHandoffExtends(s: State, id: RequestId, ack: Acknowledgement)
    ensures ResolveHandoff(s, id, ack).commands.Keys == s.commands.Keys
    ensures RowsKept(s.commands, ResolveHandoff(s, id, ack).commands)
  {
  }

  lemma ResolveTrackedExtends(s: State, ack: Acknowledgement)
    ensures ResolveTracked(s, ack).commands.Keys == s.commands.Keys
    ensures RowsKept(s.commands, ResolveTracked(s, ack).commands)
  {
    if s.handoff.request.Some? {
      ResolveHandoffExtends(s, s.handoff.request.value, ack);
    }
  }

  lemma PolledExtends(s: State)
    ensures Polled(s).commands.Keys == s.commands.Keys
    ensures RowsKept(s.commands, Polled(s).commands)
  {
    ResolveTrackedExtends(s, NotFulfilled);
    SettleExtends(ResolveTracked(s, NotFulfilled).commands, {Stop}, Completed);
  }

  lemma CommandExtends(sys: System, op: Op)
    requires Submitted(op).Some?
    ensures Extends(sys.store.commands, Step(sys, op).store.commands)
  {
    var s := sys.store;
    match op
    case StopCommand(id) => StopExtends(s, id, Active(sys.mode).Some?);
    case ResumeCommand(id, held) => ResumeExtends(s, id, held);
    case StopAfterCommand(id, count) => StopAfterExtends(s, id, count, Active(sys.mode).Some?, Active(sys.mode));
    case HandoffCommand(id, held) => HandoffExtends(s, id, Active(sys.mode).Some?, held);
    case NextIssueCommand(id, number) => NextIssueExtends(s, id, number);
    case RetryCommand(id, attempt) => RowExtends(s, id, RecoveryRetry, Attempt(attempt), Accepted);
    case ReleaseCommand(id, attempt, at) => RowExtends(s, id, RecoveryRelease, Secured(attempt, at), Accepted);
    case ErrorsResetCommand(id) => RowExtends(s, id, ErrorsReset, NoArguments, Completed);
  }

  lemma CountExtends(sys: System, outcome: string)
    ensures Extends(sys.store.commands, Step(sys, Count(outcome)).store.commands)
    ensures Extends(sys.store.commands, Step(sys, Recount(outcome)).store.commands)
  {
    if Active(sys.mode).Some? {
      RecordFinalizedExtends(sys.store, sys.mode.attempt, outcome);
    }
  }

  lemma StepExtends(sys: System, op: Op)
    ensures Extends(sys.store.commands, Step(sys, op).store.commands)
  {
    var s := sys.store;
    if Submitted(op).Some? {
      CommandExtends(sys, op);
    } else {
      match op
      case EndHandoff(id, ack) => ResolveHandoffExtends(s, id, ack);
      case ReplayFinalized(attempt, outcome) => RecordFinalizedExtends(s, attempt, outcome);
      case Count(outcome) => CountExtends(sys, outcome);
      case Recount(outcome) => CountExtends(sys, outcome);
      case SettleHandoff(fulfilled) =>
        if fulfilled.Some? {
          ResolveTrackedExtends(s, Outcome(fulfilled.value));
        }
      case IdlePoll => PolledExtends(s);
      case _ =>
    }
  }

  // ---- Sequence numbers ------------------------------------------------------

  ghost function Sequences(m: Commands, ids: set<RequestId>): set<int>
    requires ids <= m.Keys
  {
    set id | id in ids :: m[id].sequence as int
  }

  lemma {:induction false} DistinctSequencesCount(m: Commands, ids: set<RequestId>)
    requires ids <= m.Keys && Sequenced(m)
    ensures |Sequences(m, ids)| == |ids|
    decreases |ids|
  {
    if ids != {} {
      var id :| id in ids;
      var rest := ids - {id};
      DistinctSequencesCount(m, rest);
      assert Sequences(m, ids) == Sequences(m, rest) + {m[id].sequence as int};
      assert m[id].sequence as int !in Sequences(m, rest);
    }
  }

  ghost function UpTo(n: nat): (r: set<int>)
    ensures forall x :: x in r <==> 1 <= x <= n
    ensures |r| == n
  {
    if n == 0 then {} else UpTo(n - 1) + {n}
  }

  lemma {:induction false} FullSubset(s: set<int>, n: nat)
    requires s <= UpTo(n) && |s| == n
    ensures s == UpTo(n)
  {
    if s != UpTo(n) {
      var missing :| missing in UpTo(n) && missing !in s;
      assert s <= UpTo(n) - {missing};
      SubsetSize(s, UpTo(n) - {missing});
    }
  }

  lemma {:induction false} SubsetSize<T>(a: set<T>, b: set<T>)
    requires a <= b
    ensures |a| <= |b|
    decreases |a|
  {
    if a != {} {
      var x :| x in a;
      SubsetSize(a - {x}, b - {x});
    }
  }

  /** The sequence numbers of n rows are exactly 1 to n, so the next one is n + 1. */
  lemma SequencesAreOneToN(m: Commands)
    requires Sequenced(m)
    ensures Sequences(m, m.Keys) == UpTo(|m|)
    ensures Highest(m) == |m|
  {
    DistinctSequencesCount(m, m.Keys);
    FullSubset(Sequences(m, m.Keys), |m|);
    if |m| > 0 {
      assert |m| as int in Sequences(m, m.Keys);
    }
    OnlyHighest(m, |m|);
  }

  lemma HighestIsCount(m: Commands)
    requires Sequenced(m)
    ensures Highest(m) == |m|
  {
    SequencesAreOneToN(m);
  }

  lemma ExtensionKeepsSequenced(m: Commands, m': Commands)
    requires Sequenced(m) && Extends(m, m')
    ensures Sequenced(m')
  {
    HighestIsCount(m);
    assert |m.Keys| == |m| && |m'.Keys| == |m'|;
    if m'.Keys != m.Keys {
      var id :| id in m' && id !in m && m'.Keys == m.Keys + {id} && m'[id].sequence == Highest(m) + 1;
    }
    forall a | a in m'
      ensures 1 <= m'[a].sequence <= |m'|
      ensures forall b :: b in m' && m'[a].sequence == m'[b].sequence ==> a == b
    {
      if a in m {
        assert SameRow(m[a], m'[a]);
      }
      forall b | b in m' && m'[a].sequence == m'[b].sequence
        ensures a == b
      {
        if b in m {
          assert SameRow(m[b], m'[b]);
        }
      }
    }
  }

  lemma RowsKeptTransitive(a: Commands, b: Commands, c: Commands)
    requires RowsKept(a, b) && RowsKept(b, c)
    ensures RowsKept(a, c)
  {
  }

  /** Log integrity on every run, from any point of it. */
  lemma {:induction false} LogIntegrity(sys: System, ops: seq<Op>)
    requires Sequenced(sys.store.commands)
    ensures Sequenced(Run(sys, ops).store.commands)
    ensures RowsKept(sys.store.commands, Run(sys, ops).store.commands)
  {
    if ops != [] {
      var prefix := ops[..|ops| - 1];
      LogIntegrity(sys, prefix);
      var before, after := Run(sys, prefix).store.commands, Run(sys, ops).store.commands;
      StepExtends(Run(sys, prefix), ops[|ops| - 1]);
      ExtensionKeepsSequenced(before, after);
      RowsKeptTransitive(sys.store.commands, before, after);
    }
  }

  /** From the empty log, n rows carry the sequence numbers 1 to n. */
  lemma RunSequences(ops: seq<Op>)
    ensures var m := Run(START, ops).store.commands; Sequences(m, m.Keys) == UpTo(|m|)
  {
    LogIntegrity(START, ops);
    SequencesAreOneToN(Run(START, ops).store.commands);
  }

  // ---- Retries ---------------------------------------------------------------

  datatype Submission = Submission(id: RequestId, kind: Kind, payload: Payload)

  /** The command an operator step submits. */
  function Submitted(op: Op): Option<Submission> {
    match op
    case StopCommand(id) => Some(Submission(id, Stop, NoArguments))
    case ResumeCommand(id, held) => Some(Submission(id, Resume, NoArguments))
    case StopAfterCommand(id, count) => Some(Submission(id, StopAfter, After(count)))
    case HandoffCommand(id, held) => Some(Submission(id, Handoff, NoArguments))
    case NextIssueCommand(id, number) => Some(Submission(id, NextIssue, Issue(number)))
    case RetryCommand(id, attempt) => Some(Submission(id, RecoveryRetry, Attempt(attempt)))
    case ReleaseCommand(id, attempt, at) => Some(Submission(id, RecoveryRelease, Secured(attempt, at)))
    case ErrorsResetCommand(id) => Some(Submission(id, ErrorsReset, NoArguments))
    case _ => None
  }

  ghost function Answer(sys: System, op: Op): Reply
    requires Submitted(op).Some?
  {
    var s := sys.store;
    match op
    case StopCommand(id) => SubmitStop(s, id, Active(sys.mode).Some?).reply
    case ResumeCommand(id, held) => SubmitResume(s, id, held).reply
    case StopAfterCommand(id, count) => SubmitStopAfter(s, id, count, Active(sys.mode).Some?, Active(sys.mode)).reply
    case HandoffCommand(id, held) => SubmitHandoff(s, id, Active(sys.mode).Some?, held).reply
    case NextIssueCommand(id, number) => SubmitNextIssue(s, id, number).reply
    case RetryCommand(id, attempt) => SubmitRow(s, id, RecoveryRetry, Attempt(attempt), Accepted).reply
    case ReleaseCommand(id, attempt, at) => SubmitRow(s, id, RecoveryRelease, Secured(attempt, at), Accepted).reply
    case ErrorsResetCommand(id) => SubmitRow(s, id, ErrorsReset, NoArguments, Completed).reply
  }

  /** A stored command passed the same checks of its identifier and count before it was stored. */
  predicate Checked(submission: Submission) {
    && WellFormedId(submission.id)
    && (submission.payload.After? ==> submission.payload.count > 0)
    && (submission.payload.Issue? ==> submission.payload.number > 0)
  }

  /**
   Once a submission was answered with its stored row, the same submission at any later
   point of any run changes nothing and is answered with the row as it then stands; any other
   submission under that request ID changes nothing and is refused.
   */
  lemma RetryChangesNothing(sys: System, first: Op, ops: seq<Op>, again: Op)
    requires Submitted(first).Some? && Submitted(again).Some?
    requires Submitted(first).value.id == Submitted(again).value.id
    requires Sequenced(sys.store.commands) && Answer(sys, first).Stored?
    ensures var later := Run(Step(sys, first), ops);
      && Step(later, again) == later
      && Submitted(again).value.id in later.store.commands
      && (Submitted(again) == Submitted(first) ==>
            Answer(later, again) == Stored(later.store.commands[Submitted(again).value.id]))
      && (Submitted(again) != Submitted(first) ==> Answer(later, again).Rejected?)
  {
    var submission := Submitted(first).value;
    FirstAnswer(sys, first);
    var then1 := Step(sys, first);
    StepExtends(sys, first);
    ExtensionKeepsSequenced(sys.store.commands, then1.store.commands);
    LogIntegrity(then1, ops);
    var later := Run(then1, ops);
    assert SameRow(then1.store.commands[submission.id], later.store.commands[submission.id]);
    SecondAnswer(later, again);
  }

  /** A submission answered with a row was checked, and that row is in the table. */
  lemma FirstAnswer(sys: System, op: Op)
    requires Submitted(op).Some? && Answer(sys, op).Stored?
    ensures var submission, m := Submitted(op).value, Step(sys, op).store.commands;
      && Checked(submission) && submission.id in m
      && m[submission.id].kind == submission.kind && m[submission.id].payload == submission.payload
  {
  }

  lemma SecondAnswer(sys: System, op: Op)
    requires Submitted(op).Some? && Submitted(op).value.id in sys.store.commands
    ensures Step(sys, op) == sys
    ensures var submission, row := Submitted(op).value, sys.store.commands[Submitted(op).value.id];
      Checked(submission) && row.kind == submission.kind && row.payload == submission.payload ==> Answer(sys, op) == Stored(row)
    ensures var submission, row := Submitted(op).value, sys.store.commands[Submitted(op).value.id];
      !(row.kind == submission.kind && row.payload == submission.payload) ==> Answer(sys, op).Rejected?
  {
  }
}
