/**
 The shared handoff record of an issue: the store of first-saved intents, the rule by which a shown
 record gives way to an intent, and what a publication may do to the comments of its issue.
 */
module SharedRecord {
  import opened Prelude
  import opened HandoffMarker
  import opened Thread

  // ---- First-saved intents -----------------------------------------------------------

  /** The stored entry under an attempt ID, read back as that attempt's record. */
  function Intent(records: map<string, Record>, attempt: string): Option<Record> {
    if attempt in records then Some(records[attempt].(attempt := attempt)) else None
  }

  /** The first valid record saved for an attempt stays; everything else is untouched. */
  function Saved(records: map<string, Record>, r: Record): map<string, Record> {
    if Valid(r) && r.attempt !in records then records[r.attempt := r] else records
  }

  class IntentStore {
    var records: map<string, Record>

    /** How often the file could not be read or written. */
    ghost var failures: nat

    constructor (records: map<string, Record>)
      ensures this.records == records && failures == 0
    {
      this.records, failures := records, 0;
    }

    /** Refuses an invalid record; the file may be unreadable or unwritable. */
    method SaveIfAbsent(r: Record) returns (intent: Option<Record>)
      modifies this
      ensures records in {old(records), Saved(old(records), r)}
      ensures intent.Some? ==> Valid(r) && records == Saved(old(records), r) && intent == Intent(records, r.attempt)
      ensures intent.Some? <==> Valid(r) && failures == old(failures)
    {
      var readable, writable := *, *;
      if !Valid(r) {
        return None;
      }
      if !readable {
        failures := failures + 1;
        return None;
      }
      if r.attempt in records {
        return Some(records[r.attempt].(attempt := r.attempt));
      }
      if !writable {
        failures := failures + 1;
        return None;
      }
      records := records[r.attempt := r];
      return Some(r);
    }
  }

  /** A run of saves never changes an intent once there is one. */
  lemma {:induction false} FirstIntentWins(records: map<string, Record>, saves: seq<Record>, attempt: string)
    requires attempt in records
    ensures attempt in SavedAll(records, saves)
    ensures Intent(SavedAll(records, saves), attempt) == Intent(records, attempt)
  {
    if saves != [] {
      FirstIntentWins(records, saves[..|saves| - 1], attempt);
    }
  }

  function SavedAll(records: map<string, Record>, saves: seq<Record>): map<string, Record> {
    if saves == [] then records else Saved(SavedAll(records, saves[..|saves| - 1]), saves[|saves| - 1])
  }

  // ---- Replacing the shared record -----------------------------------------------------

  /** The issue shows one shared comment, and it reads as exactly this record. */
  predicate Carries(bodies: seq<string>, intent: Record) {
    |bodies| == 1 && Parse(bodies[0]) == Some(intent)
  }

  /** The shown record may give way to the intent: same attempt, or not a newer one. */
  predicate GivesWay(rank: string -> real, body: string, intent: Record) {
    var shown := Parse(body);
    shown.Some? && (shown.value.attempt == intent.attempt || rank(shown.value.attempt) <= rank(intent.attempt))
  }

  /** Everything publishing one intent may do to the shared comments of its issue. */
  predicate MaySucceed(rank: string -> real, before: seq<string>, after: seq<string>, intent: Record) {
    || after == before
    || (Build(intent).Some? && after == [Build(intent).value]
        && (before == [] || (|before| == 1 && GivesWay(rank, before[0], intent))))
  }

  /** The shared comments moved, if at all, to the attempt's saved intent. */
  predicate SharedEffect(rank: string -> real, before: seq<string>, after: seq<string>, intent: Option<Record>) {
    after == before || (intent.Some? && MaySucceed(rank, before, after, intent.value))
  }

  /** There is no shared comment yet, or one that gives way to the intent. */
  predicate Yields(rank: string -> real, bodies: seq<string>, intent: Record) {
    bodies == [] || (|bodies| == 1 && GivesWay(rank, bodies[0], intent))
  }

  /** Some shared comment of the issue reads as exactly this record. */
  predicate Shows(t: Comments, intent: Record) {
    exists i :: 0 <= i < |t| && t[i].Shared? && Parse(t[i].body) == Some(intent)
  }

  // ---- What a publication does to the comments -------------------------------------------

  /**
   Comments are only added or rewritten in place, results only for this attempt, and neither results
   nor shared records come within a hundred comments of another.
   */
  ghost predicate Spread(before: Comments, after: Comments, attempt: string) {
    && Grown(before, after)
    && (forall i :: |before| <= i < |after| && after[i].ResultOf? ==> after[i].attempt == attempt)
    && (Spaced(before, OfResult(attempt)) ==> Spaced(after, OfResult(attempt)))
    && (Spaced(before, OfShared) ==> Spaced(after, OfShared))
  }

  /** While everything is in view, the shared comments move to the attempt's intent or stay. */
  ghost predicate Stepped(rank: string -> real, before: Comments, after: Comments, attempt: string, intent: Option<Record>) {
    Spread(before, after, attempt) && (InView(after) ==> SharedEffect(rank, Bodies(before), Bodies(after), intent))
  }

  lemma SteppedTwice(rank: string -> real, a: Comments, b: Comments, c: Comments, attempt: string,
                     earlier: Option<Record>, later: Option<Record>)
    requires Stepped(rank, a, b, attempt, earlier) && Stepped(rank, b, c, attempt, later)
    requires earlier.Some? ==> later == earlier
    ensures Stepped(rank, a, c, attempt, later)
  {
    if InView(c) {
      GrownInView(b, c);
    }
  }

  lemma ChatterSteps(rank: string -> real, t: Comments, more: Comments, attempt: string, intent: Option<Record>)
    requires Chatter(more)
    ensures Stepped(rank, t, t + more, attempt, intent) && Bodies(t + more) == Bodies(t)
  {
    if Spaced(t, OfResult(attempt)) {
      OthersKeepApart(t, more, OfResult(attempt));
    }
    if Spaced(t, OfShared) {
      OthersKeepApart(t, more, OfShared);
    }
    BodiesAppended(t, more, Other);
  }

  lemma ResultSpreads(t: Comments, more: Comments, attempt: string)
    requires Chatter(more) && !Visible(t, OfResult(attempt))
    ensures Spread(t, t + more + [ResultOf(attempt)], attempt)
  {
    var added := more + [ResultOf(attempt)];
    assert t + more + [ResultOf(attempt)] == t + added;
    if Spaced(t, OfResult(attempt)) {
      PostedApart(t, more, ResultOf(attempt), OfResult(attempt));
    }
    if Spaced(t, OfShared) {
      OthersKeepApart(t, added, OfShared);
    }
  }

  lemma ResultSteps(rank: string -> real, t: Comments, more: Comments, attempt: string, intent: Option<Record>)
    requires Chatter(more) && !Visible(t, OfResult(attempt))
    ensures var u := t + more + [ResultOf(attempt)]; Stepped(rank, t, u, attempt, intent) && Bodies(u) == Bodies(t)
  {
    BodiesAppended(t, more, ResultOf(attempt));
    ResultSpreads(t, more, attempt);
  }

  lemma CreateSpreads(t: Comments, more: Comments, attempt: string, body: string)
    requires Chatter(more) && !Visible(t, OfShared)
    ensures Spread(t, t + more + [Shared(body)], attempt)
  {
    var added := more + [Shared(body)];
    assert t + more + [Shared(body)] == t + added;
    if Spaced(t, OfShared) {
      PostedApart(t, more, Shared(body), OfShared);
    }
    if Spaced(t, OfResult(attempt)) {
      OthersKeepApart(t, added, OfResult(attempt));
    }
  }

  /** Creating the shared comment where none was visible. */
  lemma CreateSteps(rank: string -> real, t: Comments, more: Comments, attempt: string, intent: Record)
    requires Chatter(more) && Build(intent).Some? && Bodies(Window(t)) == [] && !Visible(t, OfShared)
    ensures var u := t + more + [Shared(Build(intent).value)];
      Stepped(rank, t, u, attempt, Some(intent)) && Bodies(u) == Bodies(t) + [Build(intent).value]
  {
    var c := Shared(Build(intent).value);
    var u := t + more + [c];
    BodiesAppended(t, more, c);
    CreateSpreads(t, more, attempt, c.body);
    if InView(u) {
      GrownInView(t, u);
      BodiesInView(t);
    }
  }

  /** Rewriting the one visible shared comment, which gives way. */
  lemma UpdateSteps(rank: string -> real, t: Comments, at: nat, more: Comments, attempt: string, intent: Record)
    requires Chatter(more) && Build(intent).Some? && at < |t| && t[at].Shared?
    requires Bodies(Window(t)) == [t[at].body] && GivesWay(rank, t[at].body, intent)
    ensures var u := (t + more)[at := Shared(Build(intent).value)];
      Stepped(rank, t, u, attempt, Some(intent)) && (InView(u) ==> Bodies(u) == [Build(intent).value])
  {
    var v, u := t + more, (t + more)[at := Shared(Build(intent).value)];
    ChatterSteps(rank, t, more, attempt, Some(intent));
    RewrittenStaysApart(v, at, Build(intent).value, OfResult(attempt));
    RewrittenStaysApart(v, at, Build(intent).value, OfShared);
    if InView(u) {
      GrownInView(t, u);
      BodiesInView(t);
      BodiesRewritten(v, at, Build(intent).value);
    }
  }

  /** A history of one issue's shared comments, each step made by publishing some intent. */
  ghost predicate History(rank: string -> real, states: seq<seq<string>>, intents: seq<Record>) {
    && |states| == |intents| + 1
    && forall i :: 0 <= i < |intents| ==> MaySucceed(rank, states[i], states[i + 1], intents[i])
  }

  /** The attempt the comments name: None while there is no shared comment, or none that reads. */
  function Named(bodies: seq<string>): Option<string> {
    if |bodies| == 1 && Parse(bodies[0]).Some? then Some(Parse(bodies[0]).value.attempt) else None
  }

  /** Once written, the record may give way exactly when it can be read, and then to a record of its attempt or no older one. */
  lemma GivesWayExactly(rank: string -> real, written: Record, intent: Record)
    requires Valid(written) && NoSpace(written.repository)
    ensures GivesWay(rank, Build(written).value, intent)
       <==> Readable(written) && (written.attempt == intent.attempt || rank(written.attempt) <= rank(intent.attempt))
    ensures Carries([Build(written).value], written) <==> Clean(written)
  {
    ReadsBackExactly(written);
    RoundTripExactly(written);
  }

  /** Nothing an issue shows, and so nothing that is ever confirmed, is unclean. */
  lemma ShownIsClean(t: Comments, intent: Record)
    requires Shows(t, intent)
    ensures Valid(intent) && Clean(intent)
  {
    var i :| 0 <= i < |t| && t[i].Shared? && Parse(t[i].body) == Some(intent);
    ParsedIsValidAndClean(t[i].body);
  }

  /** The later comment, if it reads, is not of an older attempt, and one that does not read has not moved. */
  predicate NotOlder(rank: string -> real, before: seq<string>, after: seq<string>) {
    && |after| == 1
    && (Named(before).None? ==> after == before)
    && (Named(before).Some? && Named(after).Some? ==> rank(Named(before).value) <= rank(Named(after).value))
  }

  lemma StepNeverGoesBack(rank: string -> real, before: seq<string>, after: seq<string>, intent: Record)
    requires MaySucceed(rank, before, after, intent)
    ensures |before| <= 1 ==> |after| <= 1
    ensures |before| == 1 && Named(before).None? ==> after == before
    ensures NoSpace(intent.repository) && |before| == 1 ==> NotOlder(rank, before, after)
  {
    if Valid(intent) && NoSpace(intent.repository) {
      ReadsBackExactly(intent);
    }
  }

  /** A comment that does not read stands for good. */
  lemma {:induction false} UnreadableForGood(rank: string -> real, states: seq<seq<string>>, intents: seq<Record>, i: nat, j: nat)
    requires History(rank, states, intents) && i <= j < |states|
    requires |states[i]| == 1 && Named(states[i]).None?
    ensures states[j] == states[i]
    decreases j
  {
    if i < j {
      UnreadableForGood(rank, states, intents, i, j - 1);
      StepNeverGoesBack(rank, states[j - 1], states[j], intents[j - 1]);
    }
  }

  /** Whatever attempts publish, in whatever order and however often, an issue never gets a second shared comment. */
  lemma {:induction false} NeverASecond(rank: string -> real, states: seq<seq<string>>, intents: seq<Record>, j: nat)
    requires History(rank, states, intents) && |states[0]| <= 1 && j < |states|
    ensures |states[j]| <= 1
    decreases j
  {
    if j > 0 {
      NeverASecond(rank, states, intents, j - 1);
      StepNeverGoesBack(rank, states[j - 1], states[j], intents[j - 1]);
    }
  }

  /**
   And from any moment to any later one the record that reads is not of an older attempt - for every
   repository without white space, whatever stands in the texts.
   */
  lemma {:induction false} SharedRecordNeverGoesBack(rank: string -> real, states: seq<seq<string>>, intents: seq<Record>, i: nat, j: nat)
    requires History(rank, states, intents) && i <= j < |states|
    requires forall k :: i <= k < j ==> NoSpace(intents[k].repository)
    requires |states[i]| == 1
    ensures NotOlder(rank, states[i], states[j])
    decreases j
  {
    if i < j {
      SharedRecordNeverGoesBack(rank, states, intents, i, j - 1);
      StepNeverGoesBack(rank, states[j - 1], states[j], intents[j - 1]);
    }
  }

  /**
   The comment stands as it was written, whatever is published after it, exactly when a terminator
   stands in one of its texts but the last, or opens the last.
   */
  lemma BlockedExactly(rank: string -> real, written: Record)
    requires Valid(written) && NoSpace(written.repository)
    ensures (forall intent, after :: MaySucceed(rank, [Build(written).value], after, intent) ==> after == [Build(written).value])
       <==> !Readable(written)
  {
    var shown := [Build(written).value];
    if Readable(written) {
      var other := written.(count := written.count + 1);
      GivesWayExactly(rank, written, other);
      assert MaySucceed(rank, shown, [Build(other).value], other);
      if Build(other).value == Build(written).value {
        ReadsBackExactly(written);
        ReadsBackExactly(other);
      }
    } else {
      ReadsBackExactly(written);
    }
  }
}
