/**
 The durable checkpoint of the active attempt: one pure transition per store operation, the store
 itself, and what any run of operations keeps - identity, phase order, and the claim-time lease.
 */
module AttemptState {
  import opened Prelude

  type Sha = string

  datatype Phase = Claimed | Setup | ModelRunning | Pushing | Publishing

  datatype Kind = Ordinary | Conflict

  /** What a claim fixes for the whole attempt. */
  datatype Identity = Identity(
    issue: int,
    branch: string,
    autoMerge: bool,
    source: string,
    title: Option<string>,
    continuation: Option<int>,
    kind: Kind)

  /** `lease` is None until a revision (or the branch's absence) has been recorded. */
  datatype Checkpoint = Checkpoint(
    identity: Identity,
    phase: Phase,
    startedAt: int,
    updatedAt: int,
    lease: Option<Option<Sha>>)

  datatype Op =
    | Start(identity: Identity)
    | Transition(phase: Phase)
    | RecordLease(revision: Option<Sha>)
    | AdvanceLease(revision: Option<Sha>)

  const SOURCES: set<string> := {"human", "automatic", "conflict"}

  function Order(p: Phase): nat {
    match p
    case Claimed => 0
    case Setup => 1
    case ModelRunning => 2
    case Pushing => 3
    case Publishing => 4
  }

  function NextPhase(p: Phase): (next: Option<Phase>)
    ensures next.Some? <==> p != Publishing
    ensures next.Some? ==> Order(next.value) == Order(p) + 1
  {
    match p
    case Claimed => Some(Setup)
    case Setup => Some(ModelRunning)
    case ModelRunning => Some(Pushing)
    case Pushing => Some(Publishing)
    case Publishing => None
  }

  predicate ValidIdentity(i: Identity) {
    && i.issue > 0
    && NonBlank(i.branch)
    && i.source in SOURCES
    && (i.continuation.Some? ==> i.continuation.value >= 0)
  }

  predicate ValidLease(revision: Option<Sha>) {
    revision.Some? ==> NonBlank(revision.value) && NoSpace(revision.value)
  }

  /** Whether the operation is accepted in this state. */
  predicate Accepts(op: Op, before: Option<Checkpoint>) {
    match op
    case Start(identity) => before.None? && ValidIdentity(identity)
    case Transition(phase) => before.Some? && NextPhase(before.value.phase) == Some(phase)
    case RecordLease(revision) => before.Some? && ValidLease(revision)
    case AdvanceLease(revision) => before.Some? && revision.Some? && ValidLease(revision)
  }

  /** The checkpoint after an accepted operation stamped `stamp`; a repeated recording keeps the first. */
  function Apply(op: Op, before: Option<Checkpoint>, stamp: int): (after: Checkpoint)
    requires Accepts(op, before)
  {
    match op
    case Start(identity) => Checkpoint(identity, Claimed, stamp, stamp, None)
    case Transition(phase) => before.value.(phase := phase, updatedAt := stamp)
    case RecordLease(revision) =>
      if before.value.lease.Some? then before.value else before.value.(lease := Some(revision), updatedAt := stamp)
    case AdvanceLease(revision) => before.value.(lease := Some(revision), updatedAt := stamp)
  }

  /** A refused operation changes nothing. */
  function Step(op: Op, before: Option<Checkpoint>, stamp: int): Option<Checkpoint> {
    if Accepts(op, before) then Some(Apply(op, before, stamp)) else before
  }

  /** The store: the checkpoint file, and the last timestamp this process handed out. */
  class AttemptStateStore {
    var checkpoint: Option<Checkpoint>
    var last: Option<int>

    /** How often the file could not be read, written or removed. */
    ghost var failures: nat

    constructor (checkpoint: Option<Checkpoint>)
      ensures this.checkpoint == checkpoint && last == None && failures == 0
    {
      this.checkpoint, last, failures := checkpoint, None, 0;
    }

    method Read() returns (ok: bool, found: Option<Checkpoint>)
      modifies this`failures
      ensures ok ==> found == checkpoint
      ensures failures == old(failures) + if ok then 0 else 1
    {
      ok := *;
      found := if ok then checkpoint else None;
      failures := failures + if ok then 0 else 1;
    }

    /** Timestamps of one process strictly increase, whatever the clock shows. */
    method NextTimestamp(now: int) returns (stamp: int)
      modifies this`last
      ensures stamp >= now && last == Some(stamp)
      ensures old(last).Some? ==> stamp > old(last).value
      ensures old(last).None? || now > old(last).value ==> stamp == now
    {
      stamp := now;
      if last.Some? && stamp <= last.value {
        stamp := last.value + 1;
      }
      last := Some(stamp);
    }

    /** The file is replaced whole or not at all. */
    method Write(next: Checkpoint) returns (ok: bool)
      modifies this`checkpoint, this`failures
      ensures checkpoint == if ok then Some(next) else old(checkpoint)
      ensures failures == old(failures) + if ok then 0 else 1
    {
      ok := *;
      failures := failures + if ok then 0 else 1;
      if ok {
        checkpoint := Some(next);
      }
    }

    method Start(identity: Identity, now: int) returns (ok: bool, stamp: int)
      modifies this
      ensures ok <==> Accepts(Op.Start(identity), old(checkpoint)) && failures == old(failures)
      ensures ok ==> old(checkpoint) == None && checkpoint == Some(Checkpoint(identity, Claimed, stamp, stamp, None))
      ensures ok ==> identity.issue > 0 && NonBlank(identity.branch) && identity.source in {"human", "automatic", "conflict"}
                     && (identity.continuation.Some? ==> identity.continuation.value >= 0)
      ensures failures >= old(failures) && stamp >= now
      ensures ok ==> checkpoint == Some(Apply(Op.Start(identity), old(checkpoint), stamp))
      ensures !ok ==> checkpoint == old(checkpoint)
      ensures ok && old(last).Some? ==> stamp > old(last).value
    {
      var readable, found := Read();
      stamp := now;
      if !readable || found.Some? || !ValidIdentity(identity) {
        return false, now;
      }
      stamp := NextTimestamp(now);
      ok := Write(Checkpoint(identity, Claimed, stamp, stamp, None));
    }

    method Transition(phase: Phase, now: int) returns (ok: bool, stamp: int)
      modifies this
      ensures ok <==> Accepts(Op.Transition(phase), old(checkpoint)) && failures == old(failures)
      ensures ok ==> old(checkpoint).Some? && checkpoint == Some(old(checkpoint).value.(phase := phase, updatedAt := stamp))
                     && (old(checkpoint).value.phase, phase)
                        in {(Claimed, Setup), (Setup, ModelRunning), (ModelRunning, Pushing), (Pushing, Publishing)}
      ensures failures >= old(failures)
      ensures ok ==> checkpoint == Some(Apply(Op.Transition(phase), old(checkpoint), stamp))
      ensures !ok ==> checkpoint == old(checkpoint)
      ensures ok && old(last).Some? ==> stamp > old(last).value
    {
      var readable, found := Read();
      if !readable || found.None? || NextPhase(found.value.phase) != Some(phase) {
        return false, now;
      }
      stamp := NextTimestamp(now);
      ok := Write(found.value.(phase := phase, updatedAt := stamp));
    }

    /** Only the first recording wins; a later one is accepted and changes nothing. */
    method RecordClaimLease(revision: Option<Sha>, now: int) returns (ok: bool, stamp: int)
      modifies this
      ensures ok <==> Accepts(RecordLease(revision), old(checkpoint)) && failures == old(failures)
      ensures ok && old(checkpoint).value.lease.None? ==>
                checkpoint == Some(old(checkpoint).value.(lease := Some(revision), updatedAt := stamp))
      ensures failures >= old(failures)
      ensures ok ==> checkpoint == Some(Apply(RecordLease(revision), old(checkpoint), stamp))
      ensures !ok ==> checkpoint == old(checkpoint)
      ensures old(checkpoint).Some? && old(checkpoint).value.lease.Some? ==> checkpoint == old(checkpoint)
    {
      var readable, found := Read();
      stamp := now;
      if !readable || found.None? || !ValidLease(revision) {
        return false, now;
      }
      if found.value.lease.Some? {
        return true, now;
      }
      stamp := NextTimestamp(now);
      ok := Write(found.value.(lease := Some(revision), updatedAt := stamp));
    }

    method AdvanceClaimLease(revision: Option<Sha>, now: int) returns (ok: bool, stamp: int)
      modifies this
      ensures ok <==> Accepts(AdvanceLease(revision), old(checkpoint)) && failures == old(failures)
      ensures ok ==> revision.Some? && checkpoint == Some(old(checkpoint).value.(lease := Some(revision), updatedAt := stamp))
      ensures failures >= old(failures)
      ensures ok ==> checkpoint == Some(Apply(AdvanceLease(revision), old(checkpoint), stamp))
      ensures !ok ==> checkpoint == old(checkpoint)
    {
      var readable, found := Read();
      if !readable || found.None? || revision.None? || !ValidLease(revision) {
        return false, now;
      }
      stamp := NextTimestamp(now);
      ok := Write(found.value.(lease := Some(revision), updatedAt := stamp));
    }

    /** Deleting an absent checkpoint succeeds. */
    method Delete() returns (ok: bool)
      modifies this`checkpoint, this`failures
      ensures checkpoint == if ok then None else old(checkpoint)
      ensures ok <==> failures == old(failures)
    {
      if checkpoint.None? {
        return true;
      }
      ok := *;
      failures := failures + if ok then 0 else 1;
      if ok {
        checkpoint := None;
      }
    }
  }

  // ---- Runs of one attempt ---------------------------------------------------------

  /** The operations of an attempt in order, each under its own timestamp. */
  datatype Stamped = Stamped(op: Op, stamp: int)

  function Run(c: Checkpoint, ops: seq<Stamped>): (r: Checkpoint)
  {
    if ops == [] then c
    else Step(ops[|ops| - 1].op, Some(Run(c, ops[..|ops| - 1])), ops[|ops| - 1].stamp).value
  }

  ghost predicate Increasing(after: int, ops: seq<Stamped>) {
    && (forall i :: 0 <= i < |ops| ==> ops[i].stamp > after)
    && (forall i, j :: 0 <= i < j < |ops| ==> ops[i].stamp < ops[j].stamp)
  }

  /** The phases asked for, keeping only the moves that were the next one at the time. */
  function Moves(c: Checkpoint, ops: seq<Stamped>): nat {
    if ops == [] then 0
    else
      var before := Moves(c, ops[..|ops| - 1]);
      var last := ops[|ops| - 1].op;
      if last.Transition? && Accepts(last, Some(Run(c, ops[..|ops| - 1]))) then before + 1 else before
  }

  predicate OwnPush(op: Op) {
    op.AdvanceLease? && op.revision.Some? && ValidLease(op.revision)
  }

  predicate Recording(op: Op) {
    op.RecordLease? && ValidLease(op.revision)
  }

  predicate LastPush(ops: seq<Stamped>, i: int) {
    0 <= i < |ops| && OwnPush(ops[i].op) && forall j :: i < j < |ops| ==> !OwnPush(ops[j].op)
  }

  predicate FirstRecording(ops: seq<Stamped>, i: int) {
    0 <= i < |ops| && Recording(ops[i].op) && forall j :: 0 <= j < i ==> !Recording(ops[j].op)
  }

  predicate NoPush(ops: seq<Stamped>) {
    forall i :: 0 <= i < |ops| ==> !OwnPush(ops[i].op)
  }

  predicate NoRecording(ops: seq<Stamped>) {
    forall i :: 0 <= i < |ops| ==> !Recording(ops[i].op)
  }

  /** The lease is the last own push's revision; without one the lease at the start, else the first recording's. */
  ghost predicate LeaseByPosition(c: Checkpoint, ops: seq<Stamped>, lease: Option<Option<Sha>>) {
    && (forall i :: LastPush(ops, i) ==> lease == Some(ops[i].op.revision))
    && (NoPush(ops) && c.lease.Some? ==> lease == c.lease)
    && (NoPush(ops) && c.lease.None? ==> forall i :: FirstRecording(ops, i) ==> lease == Some(ops[i].op.revision))
    && (NoPush(ops) && c.lease.None? && NoRecording(ops) ==> lease == None)
  }

  lemma {:induction false} SomeLastPush(ops: seq<Stamped>)
    requires !NoPush(ops)
    ensures exists i :: LastPush(ops, i)
  {
    var n := |ops| - 1;
    if OwnPush(ops[n].op) {
      assert LastPush(ops, n);
    } else {
      SomeLastPush(ops[..n]);
      var i :| LastPush(ops[..n], i);
      assert LastPush(ops, i);
    }
  }

  lemma {:induction false} SomeFirstRecording(ops: seq<Stamped>)
    requires !NoRecording(ops)
    ensures exists i :: FirstRecording(ops, i)
  {
    var n := |ops| - 1;
    if NoRecording(ops[..n]) {
      assert forall j :: 0 <= j < n ==> ops[..n][j] == ops[j];
      assert FirstRecording(ops, n);
    } else {
      SomeFirstRecording(ops[..n]);
      var i :| FirstRecording(ops[..n], i);
      assert FirstRecording(ops, i);
    }
  }

  lemma PushPositions(ops: seq<Stamped>, init: seq<Stamped>, last: Stamped)
    requires ops == init + [last]
    ensures NoPush(ops) <==> NoPush(init) && !OwnPush(last.op)
    ensures forall i :: LastPush(ops, i) <==> if OwnPush(last.op) then i == |init| else LastPush(init, i)
  {
    assert ops[|init|] == last && forall j :: 0 <= j < |init| ==> ops[j] == init[j];
  }

  lemma RecordingPositions(ops: seq<Stamped>, init: seq<Stamped>, last: Stamped)
    requires ops == init + [last]
    ensures NoRecording(ops) <==> NoRecording(init) && !Recording(last.op)
    ensures forall i :: FirstRecording(ops, i)
                   <==> FirstRecording(init, i) || (i == |init| && NoRecording(init) && Recording(last.op))
  {
    assert ops[|init|] == last && forall j :: 0 <= j < |init| ==> ops[j] == init[j];
  }

  /** One more operation moves the lease as its position says. */
  lemma LeaseOneMore(c: Checkpoint, ops: seq<Stamped>, init: seq<Stamped>, last: Stamped, before: Checkpoint, after: Checkpoint)
    requires ops == init + [last] && after == Step(last.op, Some(before), last.stamp).value
    requires LeaseByPosition(c, init, before.lease)
    ensures LeaseByPosition(c, ops, after.lease)
  {
    PushPositions(ops, init, last);
    RecordingPositions(ops, init, last);
    if !NoPush(init) {
      SomeLastPush(init);
    }
    if !NoRecording(init) {
      SomeFirstRecording(init);
    }
  }

  lemma {:induction false} LeaseOfRun(c: Checkpoint, ops: seq<Stamped>)
    ensures LeaseByPosition(c, ops, Run(c, ops).lease)
  {
    if ops != [] {
      var init, last := ops[..|ops| - 1], ops[|ops| - 1];
      LeaseOfRun(c, init);
      LeaseOneMore(c, ops, init, last, Run(c, init), Run(c, ops));
    }
  }

  /**
   Over any run of operations the identity and the start time never change, every phase between
   the first and the last was entered exactly once, and the lease is the last own push's revision,
   else the first one recorded.
   */
  lemma {:induction false} RunKeepsTheAttempt(c: Checkpoint, ops: seq<Stamped>)
    ensures var r := Run(c, ops);
      && r.identity == c.identity && r.startedAt == c.startedAt
      && Order(r.phase) == Order(c.phase) + Moves(c, ops)
      && LeaseByPosition(c, ops, r.lease)
      && (c.lease.Some? ==> r.lease.Some?)
  {
    LeaseOfRun(c, ops);
    if ops != [] {
      RunKeepsTheAttempt(c, ops[..|ops| - 1]);
    }
  }

  /** Without an own push the first recorded lease is the lease for good. */
  lemma {:induction false} FirstLeaseWins(c: Checkpoint, ops: seq<Stamped>)
    requires c.lease.Some? && forall i :: 0 <= i < |ops| ==> !ops[i].op.AdvanceLease?
    ensures Run(c, ops).lease == c.lease
  {
    if ops != [] {
      FirstLeaseWins(c, ops[..|ops| - 1]);
    }
  }

  /** Every change of the checkpoint is stamped later than all before it. */
  lemma {:induction false} ChangesAreStampedLater(c: Checkpoint, ops: seq<Stamped>, n: nat)
    requires Increasing(c.updatedAt, ops) && n <= |ops|
    ensures Run(c, ops) == Run(c, ops[..n]) || Run(c, ops).updatedAt > Run(c, ops[..n]).updatedAt
    ensures ops == [] || Run(c, ops).updatedAt <= ops[|ops| - 1].stamp
  {
    if ops != [] {
      var init := ops[..|ops| - 1];
      ChangesAreStampedLater(c, init, if n < |ops| then n else 0);
      if n < |ops| {
        assert init[..n] == ops[..n];
      } else {
        assert ops[..n] == ops;
      }
    }
  }
}
