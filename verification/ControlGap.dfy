/**
 The gap in a finalization. The control store counts an attempt in one transaction and the
 checkpoint goes later, outside the control lock; the handoff is resolved later still. Operator
 commands accepted in between still see an active attempt that nothing will count again. Here is
 exactly when that leaves intake stopping, and when the active attempt is not count one.
 */
module ControlGap {
  import opened Prelude
  import opened ControlModel
  import opened ControlInvariant
  import opened ControlRuns
  import opened ControlLog
  import opened ControlCounts
  import opened ControlGuarantees

  // ---- When stopping outlives the attempt ------------------------------------------

  /** Intake stops for a countdown although no attempt is left for it to wait for. */
  predicate Stuck(sys: System) {
    sys.mode.Idle? && sys.store.intake == Stopping && sys.store.countdown.Some?
  }

  /** The plan pending is a `stop --after 1`. */
  predicate StopsAfterOne(s: State) {
    s.pending.Some? && s.countdown.Some? && s.countdown.value.requested == 1
  }

  lemma PollDecides(sys: System)
    requires Inv(sys) && sys.mode.Idle?
    ensures Polled(sys.store).intake == Stopping <==> Stuck(sys)
    ensures Stuck(sys) ==> Polled(sys.store) == sys.store && StopsAfterOne(sys.store)
  {
    var s := sys.store;
    if s.intake == Stopping {
      assert Waiting(s, s.pending.value);
    }
  }

  lemma SettlingKeepsCountdowns(s: State, ack: Acknowledgement, mode: Mode)
    requires Consistent(s, mode) && (ack == Completed || ack == NotFulfilled)
    ensures s.countdown.Some? ==> ResolveTracked(s, ack) == s
    ensures ResolveTracked(s, ack).countdown == s.countdown
  {
    if s.handoff.request.Some? && IsAccepted(s.commands, s.handoff.request.value) {
      assert Waiting(s, s.handoff.request.value);
    }
  }

  /** After the drop, the handoff's resolution and a poll, intake is stopping exactly for a `stop --after 1`. */
  lemma DropDecides(sys: System, fulfilled: Option<bool>)
    requires Inv(sys) && sys.mode.Closing?
    ensures var ops := [Drop, SettleHandoff(fulfilled), IdlePoll];
      && Legal(sys, ops)
      && (Run(sys, ops).store.intake == Stopping <==> StopsAfterOne(sys.store))
  {
    var s := sys.store;
    RunThree(sys, Drop, SettleHandoff(fulfilled), IdlePoll);
    var dropped := Step(sys, Drop);
    var settled := Step(dropped, SettleHandoff(fulfilled));
    StepKeepsInv(sys, Drop);
    StepKeepsInv(dropped, SettleHandoff(fulfilled));
    PollDecides(settled);
    SettlingKeepsCountdowns(s, Completed, sys.mode);
    SettlingKeepsCountdowns(s, NotFulfilled, sys.mode);
  }

  /** Anything the operator, the model or a recovery may commit while the finalization is in its gap. */
  predicate InGap(op: Op) {
    !(op.Claim? || op.Count? || op.Recount? || op.Drop? || op.SettleHandoff? || op.IdlePoll?)
  }

  lemma {:induction false} GapKeepsMode(sys: System, gap: seq<Op>)
    requires forall i :: 0 <= i < |gap| ==> InGap(gap[i])
    ensures Run(sys, gap).mode == sys.mode
  {
    if gap != [] {
      GapKeepsMode(sys, gap[..|gap| - 1]);
    }
  }

  /**
   Whatever is committed between counting an attempt and dropping its checkpoint, the instance
   is left stopping exactly when the plan pending at the drop is a `stop --after 1`.
   */
  lemma GapDecides(sys: System, outcome: string, gap: seq<Op>, fulfilled: Option<bool>)
    requires Inv(sys) && Enabled(sys, Count(outcome)) && Legal(Step(sys, Count(outcome)), gap)
    requires forall i :: 0 <= i < |gap| ==> InGap(gap[i])
    ensures var atDrop := Run(Step(sys, Count(outcome)), gap);
      var ops := [Drop, SettleHandoff(fulfilled), IdlePoll];
      && Legal(atDrop, ops)
      && (Run(atDrop, ops).store.intake == Stopping <==> StopsAfterOne(atDrop.store))
  {
    var counted := Step(sys, Count(outcome));
    StepKeepsInv(sys, Count(outcome));
    RunKeepsInv(counted, gap);
    GapKeepsMode(counted, gap);
    DropDecides(Run(counted, gap), fulfilled);
  }

  /** A `stop --after 1` accepted while the counted attempt's checkpoint still exists is such a plan. */
  lemma LateStopAfterIsStuck(sys: System, id: RequestId, fulfilled: Option<bool>)
    requires Inv(sys) && sys.mode.Closing? && Accepts(sys, id, 1)
    ensures var ops := [Drop, SettleHandoff(fulfilled), IdlePoll];
      var late := Step(sys, StopAfterCommand(id, 1));
      StopsAfterOne(late.store) && Stuck(Run(late, ops))
  {
    var late := Step(sys, StopAfterCommand(id, 1));
    StepKeepsInv(sys, StopAfterCommand(id, 1));
    DropDecides(late, fulfilled);
    RunThree(late, Drop, SettleHandoff(fulfilled), IdlePoll);
    SettlingKeepsCountdowns(late.store, Completed, late.mode);
    SettlingKeepsCountdowns(late.store, NotFulfilled, late.mode);
  }

  /** The one report that still ends it comes before the drop, and only for an attempt that counted nothing. */
  lemma RecountEndsItExactly(sys: System, outcome: string)
    requires Inv(sys) && sys.mode.Closing? && StopsAfterOne(sys.store)
    ensures RecordFinalized(sys.store, sys.mode.attempt, outcome).intake == Stopped
       <==> sys.mode.attempt !in sys.store.counted
  {
  }

  // ---- Only an operator command ends it ----------------------------------------------

  predicate ChangesPlans(op: Op) {
    op.StopCommand? || op.ResumeCommand? || op.StopAfterCommand?
  }

  lemma StuckStep(sys: System, op: Op)
    requires Inv(sys) && Enabled(sys, op) && Stuck(sys) && !ChangesPlans(op)
    ensures Stuck(Step(sys, op)) && Step(sys, op).store.pending == sys.store.pending
  {
    var s := sys.store;
    match op
    case EndHandoff(id, ack) =>
      if IsAccepted(s.commands, id) {
        assert Waiting(s, id);
      }
    case IdlePoll => PollDecides(sys);
    case _ =>
  }

  /** No report, poll or side command brings a stuck instance out of stopping. */
  lemma {:induction false} StuckUntilCommanded(sys: System, ops: seq<Op>)
    requires Inv(sys) && Stuck(sys) && Legal(sys, ops)
    requires forall i :: 0 <= i < |ops| ==> !ChangesPlans(ops[i])
    ensures Stuck(Run(sys, ops)) && Run(sys, ops).store.pending == sys.store.pending
  {
    if ops != [] {
      var prefix := ops[..|ops| - 1];
      StuckUntilCommanded(sys, prefix);
      RunKeepsInv(sys, prefix);
      StuckStep(Run(sys, prefix), ops[|ops| - 1]);
    }
  }

  /** Any new stop, resume without a hold, or stop-after does, at the latest with the next poll. */
  lemma CommandsFree(sys: System, op: Op)
    requires Inv(sys) && Stuck(sys) && ChangesPlans(op) && op.id !in sys.store.commands && WellFormedId(op.id)
    requires (op.ResumeCommand? ==> !op.held) && (op.StopAfterCommand? ==> op.count > 0)
    ensures Polled(Step(sys, op).store).intake != Stopping
  {
    var s := sys.store;
    assert Waiting(s, s.pending.value);
    StepKeepsInv(sys, op);
    PollDecides(Step(sys, op));
    if op.StopCommand? {
      assert IsAcceptedOf(s.commands, s.pending.value, {StopAfter});
      assert AnyAccepted(s.commands, {StopAfter});
    }
    if HandoffBegun(s) {
      assert Waiting(s, s.handoff.request.value);
    }
  }

  // ---- When the active attempt is count one --------------------------------------------

  lemma {:induction false} ClaimsFurther(ops: seq<Op>, more: seq<Op>)
    ensures Claims(ops + more) == Claims(ops) + Claims(more)
  {
    if more == [] {
      assert ops + more == ops;
    } else {
      var init := more[..|more| - 1];
      ClaimsFurther(ops, init);
      assert (ops + more)[..|ops + more| - 1] == ops + init;
    }
  }

  lemma {:induction false} LengthBound(used: set<AttemptId>) returns (n: nat)
    ensures forall a :: a in used ==> |a| <= n
    decreases |used|
  {
    if used == {} {
      n := 0;
    } else {
      var a :| a in used;
      n := LengthBound(used - {a});
      n := if |a| > n then |a| else n;
    }
  }

  lemma FreshAttempt(used: set<AttemptId>) returns (a: AttemptId)
    ensures a !in used && NonBlank(a)
  {
    var n := LengthBound(used);
    a := seq(n + 1, i => 'a');
    assert |a| == n + 1 && a[0] == 'a' && !IsSpace(a[0]);
  }

  lemma {:induction false} NoClaims(ops: seq<Op>)
    requires forall i :: 0 <= i < |ops| ==> !ops[i].Claim?
    ensures Claims(ops) == 0
  {
    if ops != [] {
      NoClaims(ops[..|ops| - 1]);
    }
  }

  /** A finalization that leaves the handoff alone only counts. */
  lemma QuietFinalization(sys: System, outcome: string)
    requires sys.mode.Working? && NonBlank(outcome)
    ensures var ops := [Count(outcome), Drop, SettleHandoff(None)];
      && Legal(sys, ops)
      && Run(sys, ops) == System(RecordFinalized(sys.store, sys.mode.attempt, outcome), Idle, sys.used)
  {
    RunThree(sys, Count(outcome), Drop, SettleHandoff(None));
  }

  /** A counted attempt that was not the plan's last leaves intake running and one count fewer. */
  lemma CountOne(sys: System, plan: RequestId)
    requires Inv(sys) && sys.mode.Working? && sys.store.intake == Running && Counting(sys, plan)
    ensures var ops := [Count("x"), Drop, SettleHandoff(None)];
      var t := Run(sys, ops);
      && Legal(sys, ops) && Claims(ops) == 0
      && t.mode.Idle? && t.store.intake == Running && Counting(t, plan)
      && t.store.countdown.value.remaining == sys.store.countdown.value.remaining - 1
  {
    assert "x"[0] == 'x' && !IsSpace("x"[0]);
    QuietFinalization(sys, "x");
    CountingKeeps(sys.store, sys.mode.attempt, "x", sys.mode);
    NoClaims([Count("x"), Drop, SettleHandoff(None)]);
  }

  lemma QuietDrop(sys: System)
    requires sys.mode.Closing?
    ensures var ops := [Drop, SettleHandoff(None)];
      Legal(sys, ops) && Run(sys, ops) == sys.(mode := Idle) && Claims(ops) == 0
  {
    assert [] + [Drop] == [Drop] && [Drop] + [SettleHandoff(None)] == [Drop, SettleHandoff(None)];
    RunOneMore(sys, [], Drop);
    RunOneMore(sys, [Drop], SettleHandoff(None));
    NoClaims([Drop, SettleHandoff(None)]);
  }

  lemma ClaimOne(sys: System, plan: RequestId, a: AttemptId)
    requires Inv(sys) && Enabled(sys, Claim(a)) && Counting(sys, plan)
    ensures var t := Run(sys, [Claim(a)]);
      && Legal(sys, [Claim(a)]) && Claims([Claim(a)]) == 1
      && Inv(t) && t.mode.Working? && Counting(t, plan) && t.store.countdown == sys.store.countdown
      && (sys.store.countdown.value.remaining > 1 ==> t.store.intake == Running)
  {
    assert [] + [Claim(a)] == [Claim(a)] && [Claim(a)][..0] == [];
    RunOneMore(sys, [], Claim(a));
    StepKeepsInv(sys, Claim(a));
  }

  /** One whole attempt under a countdown that is not its last. */
  lemma OneAttempt(sys: System, plan: RequestId) returns (ops: seq<Op>)
    requires Inv(sys) && sys.mode.Idle? && sys.store.intake == Running && Counting(sys, plan)
    requires sys.store.countdown.value.remaining > 1
    ensures Legal(sys, ops) && Claims(ops) == 1
    ensures var t := Run(sys, ops);
      && Inv(t) && t.mode.Idle? && t.store.intake == Running && Counting(t, plan)
      && t.store.countdown.value.remaining == sys.store.countdown.value.remaining - 1
  {
    var a := FreshAttempt(sys.used);
    var first, finish := [Claim(a)], [Count("x"), Drop, SettleHandoff(None)];
    ops := first + finish;
    ClaimOne(sys, plan, a);
    CountOne(Run(sys, first), plan);
    RunFurther(sys, first, finish);
    RunKeepsInv(sys, ops);
    ClaimsFurther(first, finish);
  }

  /** A running countdown with k counts left admits k claims. */
  lemma {:induction false} AdmitsRemaining(sys: System, plan: RequestId, k: nat) returns (ops: seq<Op>)
    requires Inv(sys) && sys.mode.Idle? && sys.store.intake == Running && Counting(sys, plan)
    requires sys.store.countdown.value.remaining == k
    ensures Legal(sys, ops) && Counting(Run(sys, ops), plan) && Claims(ops) == k
    decreases k
  {
    if k == 1 {
      var a := FreshAttempt(sys.used);
      ops := [Claim(a)];
      ClaimOne(sys, plan, a);
    } else {
      var first := OneAttempt(sys, plan);
      var rest := AdmitsRemaining(Run(sys, first), plan, k - 1);
      ops := first + rest;
      RunFurther(sys, first, rest);
      ClaimsFurther(first, rest);
    }
  }

  /** Every continuation admits at most N - 1 claims while the plan is pending. */
  ghost predicate ActiveIsCountOne(accepted: System, id: RequestId, count: int) {
    forall ops :: Legal(accepted, ops) && Counting(Run(accepted, ops), id) ==> Claims(ops) <= count - 1
  }

  lemma LateStep(sys: System, op: Op, plan: RequestId)
    requires Inv(sys) && Enabled(sys, op) && Counting(sys, plan) && Counting(Step(sys, op), plan)
    requires !sys.mode.Working? && sys.store.intake == Stopping
    ensures !Step(sys, op).mode.Working? && Step(sys, op).store.intake == Stopping
  {
    if CountsNow(sys, op) {
      CountingKeeps(sys.store, sys.mode.attempt, op.outcome, sys.mode);
    } else if op.IdlePoll? {
      PollDecides(sys);
    } else if op.SettleHandoff? && op.fulfilled.Some? {
      SettlingKeepsCountdowns(sys.store, Outcome(op.fulfilled.value), sys.mode);
    }
  }

  lemma {:induction false} LateStays(sys: System, ops: seq<Op>, plan: RequestId)
    requires Inv(sys) && Legal(sys, ops) && Counting(sys, plan) && Counting(Run(sys, ops), plan)
    requires !sys.mode.Working? && sys.store.intake == Stopping
    ensures !Run(sys, ops).mode.Working? && Run(sys, ops).store.intake == Stopping
  {
    if ops != [] {
      var prefix, last := ops[..|ops| - 1], ops[|ops| - 1];
      RunKeepsInv(sys, prefix);
      LogRowStays(sys, prefix, plan);
      CountdownWasPending(Run(sys, prefix), last, plan);
      LateStays(sys, prefix, plan);
      LateStep(Run(sys, prefix), last, plan);
    }
  }

  lemma AcceptedCounts(sys: System, id: RequestId, count: int)
    requires Inv(sys) && Accepts(sys, id, count)
    ensures var t := Step(sys, StopAfterCommand(id, count));
      && Inv(t) && t.mode == sys.mode && Counting(t, id) && t.store.countdown.value.remaining == count
      && t.store.intake == if Active(sys.mode).Some? && count == 1 then Stopping else Running
  {
    StepKeepsInv(sys, StopAfterCommand(id, count));
  }

  /** A plan of two or more accepted in the gap admits a claim for each of its counts. */
  lemma GapPlanAdmitsAll(sys: System, id: RequestId, count: int) returns (ops: seq<Op>)
    requires Inv(sys) && Accepts(sys, id, count) && sys.mode.Closing? && count > 1
    ensures var accepted := Step(sys, StopAfterCommand(id, count));
      Legal(accepted, ops) && Counting(Run(accepted, ops), id) && Claims(ops) == count
  {
    var accepted := Step(sys, StopAfterCommand(id, count));
    AcceptedCounts(sys, id, count);
    var quiet := [Drop, SettleHandoff(None)];
    QuietDrop(accepted);
    RunKeepsInv(accepted, quiet);
    var rest := AdmitsRemaining(Run(accepted, quiet), id, count);
    ops := quiet + rest;
    RunFurther(accepted, quiet, rest);
    ClaimsFurther(quiet, rest);
  }

  /**
   The active attempt is count one - at most N - 1 claims are admitted, whatever happens - exactly
   when the plan is accepted before that attempt is counted, or asks for one attempt only.
   */
  lemma ActiveIsCountOneExactly(sys: System, id: RequestId, count: int)
    requires Inv(sys) && Accepts(sys, id, count) && Active(sys.mode).Some?
    ensures ActiveIsCountOne(Step(sys, StopAfterCommand(id, count)), id, count) <==> sys.mode.Working? || count == 1
  {
    var accepted := Step(sys, StopAfterCommand(id, count));
    AcceptedCounts(sys, id, count);
    if sys.mode.Working? || count == 1 {
      forall ops | Legal(accepted, ops) && Counting(Run(accepted, ops), id)
        ensures Claims(ops) <= count - 1
      {
        ClaimsWhileCounting(accepted, ops, id);
        RunKeepsInv(accepted, ops);
        if sys.mode.Closing? {
          LateStays(accepted, ops, id);
        }
      }
    } else {
      var ops := GapPlanAdmitsAll(sys, id, count);
    }
  }
}
