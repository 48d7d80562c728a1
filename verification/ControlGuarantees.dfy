/**
 What an operator can rely on over whole runs: a begun handoff cannot be replaced, an
 undisturbed finalization ends every wait, and which states are reachable at all.
 */
module ControlGuarantees {
  import opened Prelude
  import opened ControlModel
  import opened ControlInvariant
  import opened ControlRuns
  import opened ControlLog
  import opened ControlCounts

  // ---- A begun handoff is irreplaceable ---------------------------------------

  /** The handoff owns the model: begun, still accepted, and intake waits for it. */
  ghost predicate Owns(s: State, h: RequestId) {
    && s.handoff.request == Some(h) && s.handoff.begun
    && IsAcceptedOf(s.commands, h, {Handoff})
    && s.pending == Some(h) && s.intake == Stopping
  }

  predicate Ends(op: Op, h: RequestId) {
    (op.EndHandoff? && op.id == h) || (op.SettleHandoff? && op.fulfilled.Some?) || op.IdlePoll?
  }

  ghost predicate StopsStayWaiting(s: State, t: State) {
    forall id :: id in s.commands && IsAcceptedOf(s.commands, id, {Stop}) ==> IsAcceptedOf(t.commands, id, {Stop})
  }

  lemma BeginningOwns(sys: System, h: RequestId)
    requires Inv(sys) && TracksAccepted(sys.store, h)
    ensures Owns(Step(sys, BeginHandoff(h)).store, h)
  {
    assert Waiting(sys.store, h);
  }

  predicate IsPlanOp(op: Op) {
    op.StopCommand? || op.ResumeCommand? || op.StopAfterCommand? || op.HandoffCommand?
  }

  predicate IsRowOp(op: Op) {
    op.NextIssueCommand? || op.RetryCommand? || op.ReleaseCommand? || op.ErrorsResetCommand?
  }

  /** A stop joins the wait of a begun handoff, a resume only adds its row, every other plan is refused. */
  lemma OwnedThroughPlans(sys: System, op: Op, h: RequestId)
    requires Inv(sys) && Owns(sys.store, h) && IsPlanOp(op)
    ensures Owns(Step(sys, op).store, h) && StopsStayWaiting(sys.store, Step(sys, op).store)
  {
    var s := sys.store;
    assert HandoffBegun(s);
    if op.StopCommand? && op.id !in s.commands {
      assert forall id :: id in s.commands && IsAcceptedOf(s.commands, id, {StopAfter}) ==> Waiting(s, id);
      assert !AnyAccepted(s.commands, {StopAfter});
      assert JoinStopping(s, op.id) == s;
    }
  }

  lemma OwnedThroughRows(sys: System, op: Op, h: RequestId)
    requires Inv(sys) && Owns(sys.store, h) && IsRowOp(op)
    ensures Owns(Step(sys, op).store, h) && StopsStayWaiting(sys.store, Step(sys, op).store)
  {
  }

  lemma OwnershipStep(sys: System, op: Op, h: RequestId)
    requires Inv(sys) && Enabled(sys, op) && Owns(sys.store, h) && !Ends(op, h)
    ensures Owns(Step(sys, op).store, h) && StopsStayWaiting(sys.store, Step(sys, op).store)
  {
    if IsPlanOp(op) {
      OwnedThroughPlans(sys, op, h);
    } else if IsRowOp(op) {
      OwnedThroughRows(sys, op, h);
    } else {
      assert HandoffBegun(sys.store);
    }
  }

  /** Nothing but its own end takes the wait away from a begun handoff, on any run. */
  lemma {:induction false} BegunHandoffHolds(sys: System, ops: seq<Op>, h: RequestId)
    requires Inv(sys) && Legal(sys, ops) && Owns(sys.store, h)
    requires forall i :: 0 <= i < |ops| ==> !Ends(ops[i], h)
    ensures Owns(Run(sys, ops).store, h) && StopsStayWaiting(sys.store, Run(sys, ops).store)
  {
    if ops != [] {
      var prefix := ops[..|ops| - 1];
      BegunHandoffHolds(sys, prefix, h);
      RunKeepsInv(sys, prefix);
      OwnershipStep(Run(sys, prefix), ops[|ops| - 1], h);
    }
  }

  /** The acknowledgement with which this step ends the handoff. */
  function EndingOf(op: Op, h: RequestId): Acknowledgement
    requires Ends(op, h)
  {
    if op.EndHandoff? then op.ack else if op.SettleHandoff? then Outcome(op.fulfilled.value) else NotFulfilled
  }

  /** At that end the handoff is settled, every plain stop completes and intake is stopped. */
  lemma BoundaryCompletes(sys: System, op: Op, h: RequestId)
    requires Inv(sys) && Enabled(sys, op) && Owns(sys.store, h) && Ends(op, h)
    ensures var t := Step(sys, op).store;
      && t.intake == Stopped && t.pending.None?
      && h in t.commands && t.commands[h].ack == EndingOf(op, h)
      && forall id :: id in sys.store.commands && IsAcceptedOf(sys.store.commands, id, {Stop}) ==>
           id in t.commands && t.commands[id].ack == Completed
  {
  }

  // ---- An undisturbed finalization ends the wait ---------------------------------

  /** How a waiting plan ends at the boundary of the attempt it waits for. */
  function Ending(kind: Kind, fulfilled: bool): Acknowledgement {
    if kind == Handoff && !fulfilled then NotFulfilled else Completed
  }

  ghost predicate WaitEnded(s: State, t: State, fulfilled: bool) {
    && t.intake == Stopped && t.pending.None? && t.countdown.None?
    && (forall id :: id in s.commands && Waiting(s, id) ==>
          id in t.commands && t.commands[id].ack == Ending(s.commands[id].kind, fulfilled))
  }

  /** Counted, dropped and its handoff resolved, with no other transaction in between. */
  function Finalized(s: State, attempt: AttemptId, outcome: string, fulfilled: bool): State {
    ResolveTracked(RecordFinalized(s, attempt, outcome), Outcome(fulfilled))
  }

  lemma CountdownIsLast(s: State, attempt: AttemptId, outcome: string, fulfilled: bool)
    requires Consistent(s, Working(attempt)) && attempt !in s.counted && s.intake == Stopping && s.countdown.Some?
    ensures WaitEnded(s, Finalized(s, attempt, outcome, fulfilled), fulfilled)
  {
    CountingKeeps(s, attempt, outcome, Working(attempt));
  }

  lemma StopsEnd(s: State, attempt: AttemptId, outcome: string, fulfilled: bool)
    requires Consistent(s, Working(attempt)) && attempt !in s.counted && PendingIs(s, Stop)
    ensures WaitEnded(s, Finalized(s, attempt, outcome, fulfilled), fulfilled)
  {
    CompletePendingStopKeeps(s, Working(attempt));
  }

  lemma HandoffEnds(s: State, attempt: AttemptId, outcome: string, fulfilled: bool)
    requires Consistent(s, Working(attempt)) && attempt !in s.counted && PendingIs(s, Handoff)
    ensures WaitEnded(s, Finalized(s, attempt, outcome, fulfilled), fulfilled)
  {
    assert Waiting(s, s.pending.value);
  }

  lemma FinalizedEnds(s: State, attempt: AttemptId, outcome: string, fulfilled: bool)
    requires Consistent(s, Working(attempt)) && attempt !in s.counted && s.intake == Stopping
    ensures WaitEnded(s, Finalized(s, attempt, outcome, fulfilled), fulfilled)
  {
    if s.countdown.Some? {
      CountdownIsLast(s, attempt, outcome, fulfilled);
    } else if PendingIs(s, Handoff) {
      HandoffEnds(s, attempt, outcome, fulfilled);
    } else {
      assert Waiting(s, s.pending.value);
      StopsEnd(s, attempt, outcome, fulfilled);
    }
  }

  lemma FinalizationIs(sys: System, outcome: string, fulfilled: bool)
    requires sys.mode.Working? && NonBlank(outcome)
    ensures var ops := [Count(outcome), Drop, SettleHandoff(Some(fulfilled))];
      Legal(sys, ops) && Run(sys, ops).store == Finalized(sys.store, sys.mode.attempt, outcome, fulfilled)
  {
    RunThree(sys, Count(outcome), Drop, SettleHandoff(Some(fulfilled)));
  }

  /**
   Finalizing the attempt a stop waits for, with no transaction in between, reaches stopped with
   every waiting plan settled. What transactions in between can do is settled in ControlGap.
   */
  lemma FinalizeEndsTheWait(sys: System, outcome: string, fulfilled: bool)
    requires Inv(sys) && Enabled(sys, Count(outcome)) && sys.store.intake == Stopping
    ensures var ops := [Count(outcome), Drop, SettleHandoff(Some(fulfilled))];
      && Legal(sys, ops)
      && WaitEnded(sys.store, Run(sys, ops).store, fulfilled)
  {
    FinalizationIs(sys, outcome, fulfilled);
    FinalizedEnds(sys.store, sys.mode.attempt, outcome, fulfilled);
  }

  lemma RunThree(sys: System, a: Op, b: Op, c: Op)
    ensures Run(sys, [a, b, c]) == Step(Step(Step(sys, a), b), c)
    ensures Legal(sys, [a, b, c]) <==> Enabled(sys, a) && Enabled(Step(sys, a), b) && Enabled(Step(Step(sys, a), b), c)
  {
    assert [] + [a] == [a] && [a] + [b] == [a, b] && [a, b] + [c] == [a, b, c];
    RunOneMore(sys, [], a);
    RunOneMore(sys, [a], b);
    RunOneMore(sys, [a, b], c);
  }

  // ---- Reachable states ------------------------------------------------------------

  /** The part of the relations that concerns the plans: what waits, and what intake and pending say of it. */
  ghost predicate PlansAgree(s: State) {
    && (s.pending.None? <==> forall id :: id in s.commands ==> !Waiting(s, id))
    && (s.pending.Some? ==> Waiting(s, s.pending.value))
    && (s.intake == Stopped ==> s.pending.None?)
    && (s.intake == Running ==> s.pending.None? || PendingIs(s, StopAfter))
    && (s.intake == Stopping ==> s.pending.Some?)
    && (forall id :: id in s.commands && Waiting(s, id) && s.commands[id].kind != Stop ==> s.pending == Some(id))
    && (forall id, h ::
          id in s.commands && IsAcceptedOf(s.commands, id, {Stop}) && h in s.commands && IsAcceptedOf(s.commands, h, {Handoff}) ==>
          Owns(s, h))
  }

  /** The countdown belongs to a pending stop-after and stops intake for its last attempt only. */
  ghost predicate CountdownAgrees(s: State, mode: Mode) {
    && (s.countdown.Some? <==> PendingIs(s, StopAfter))
    && (s.countdown.Some? ==>
          && 1 <= s.countdown.value.remaining <= s.countdown.value.requested
          && (mode.Working? ==> (s.intake == Stopping <==> s.countdown.value.remaining == 1))
          && (!mode.Working? && s.intake == Stopping ==> s.countdown.value.requested == 1))
  }

  /** The priority slot is the one accepted next-issue command. */
  ghost predicate SlotAgrees(s: State) {
    && (s.priority.Some? <==> exists id :: id in s.commands && IsAcceptedOf(s.commands, id, {NextIssue}))
    && (forall id :: id in s.commands && IsAcceptedOf(s.commands, id, {NextIssue}) ==>
          s.priority == Some(Priority(s.priority.value.number, id)) && s.commands[id].payload == Issue(s.priority.value.number))
  }

  lemma ConsistentAgrees(s: State, mode: Mode)
    requires Consistent(s, mode)
    ensures PlansAgree(s) && CountdownAgrees(s, mode) && SlotAgrees(s)
  {
    if s.priority.Some? {
      assert IsAcceptedOf(s.commands, s.priority.value.request, {NextIssue});
    }
    if s.pending.Some? {
      assert Waiting(s, s.pending.value);
    }
  }

  /** The relations between intake, pending, the plans, the countdown and the slot after every run. */
  lemma ReachableStates(ops: seq<Op>)
    requires Legal(START, ops)
    ensures var sys := Run(START, ops);
      PlansAgree(sys.store) && CountdownAgrees(sys.store, sys.mode) && SlotAgrees(sys.store)
  {
    StartInv();
    RunKeepsInv(START, ops);
    ConsistentAgrees(Run(START, ops).store, Run(START, ops).mode);
  }

  // ---- Repeated reports ----------------------------------------------------------

  /** A second report of one attempt is silent exactly when it was counted or nothing waits for it. */
  lemma ReplayIsSilentIff(s: State, attempt: AttemptId, outcome: string, mode: Mode)
    requires Consistent(s, mode)
    ensures RecordFinalized(s, attempt, outcome) == s
       <==> attempt in s.counted || (s.countdown.None? && !PendingIs(s, Stop))
  {
    if s.countdown.None? && PendingIs(s, Stop) {
      assert Waiting(s, s.pending.value);
    }
  }

  /**
   An attempt finalized while no countdown was pending leaves no counted row, so reporting it
   again after a later `stop --after N` uses up one of that plan's counts.
   */
  lemma UncountedReplayUsesACount(sys: System, id: RequestId, count: int, outcome: string)
    requires Inv(sys) && sys.mode.Working? && sys.store.pending.None? && sys.store.intake == Running && count > 1
    requires WellFormedId(id) && id !in sys.store.commands && NonBlank(outcome)
    ensures var attempt := sys.mode.attempt;
      var done := Run(sys, [Count(outcome), Drop, SettleHandoff(Some(false))]);
      var planned := Step(done, StopAfterCommand(id, count));
      var replayed := RecordFinalized(planned.store, attempt, outcome);
      && attempt !in done.store.counted && planned.store.pending == Some(id)
      && replayed.countdown.Some? && replayed.countdown.value.remaining == count - 1
  {
    var s := sys.store;
    RunThree(sys, Count(outcome), Drop, SettleHandoff(Some(false)));
    forall h | h in s.commands
      ensures !IsAcceptedOf(s.commands, h, {Handoff})
    {
      assert !Waiting(s, h);
    }
    if s.handoff.request.Some? {
      assert !IsAcceptedOf(s.commands, s.handoff.request.value, {Handoff});
    }
  }
}
