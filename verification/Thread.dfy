/**
 The comments of one issue, oldest first, as far as publication looks at them. Lookups read the last
 hundred only, and anybody may add comments that are neither a result nor the shared record.
 */
module Thread {
  datatype Comment = ResultOf(attempt: string) | Shared(body: string) | Other

  type Comments = seq<Comment>

  datatype Kind = OfResult(attempt: string) | OfShared

  const WINDOW := 100

  predicate Is(c: Comment, kind: Kind) {
    match kind
    case OfResult(attempt) => c == ResultOf(attempt)
    case OfShared => c.Shared?
  }

  function Window(t: Comments): Comments {
    if |t| <= WINDOW then t else t[|t| - WINDOW..]
  }

  /** A lookup finds a comment of this kind. */
  predicate Visible(t: Comments, kind: Kind) {
    exists i :: 0 <= i < |Window(t)| && Is(Window(t)[i], kind)
  }

  predicate Chatter(t: Comments) {
    forall i :: 0 <= i < |t| ==> t[i].Other?
  }

  /** No result and no shared record has scrolled out of the last hundred. */
  predicate InView(t: Comments) {
    forall i :: 0 <= i < |t| - WINDOW ==> t[i].Other?
  }

  /** Any two comments of this kind have a hundred others between them. */
  predicate Spaced(t: Comments, kind: Kind) {
    forall i, j :: 0 <= i < j < |t| && Is(t[i], kind) && Is(t[j], kind) ==> j - i > WINDOW
  }

  /** Comments are only added; a shared record may be rewritten in its place. */
  predicate Grown(before: Comments, after: Comments) {
    && |before| <= |after|
    && forall i :: 0 <= i < |before| ==> after[i] == before[i] || (before[i].Shared? && after[i].Shared?)
  }

  lemma GrownInView(before: Comments, after: Comments)
    requires Grown(before, after) && InView(after)
    ensures InView(before)
  {
    forall i | 0 <= i < |before| - WINDOW
      ensures before[i].Other?
    {
      assert after[i].Other?;
    }
  }

  /** While everything is in view there is at most one. */
  lemma OneWhileInView(t: Comments, kind: Kind, i: nat, j: nat)
    requires Spaced(t, kind) && InView(t) && i < |t| && j < |t| && Is(t[i], kind) && Is(t[j], kind)
    ensures i == j
  {
  }

  lemma VisibleIsThere(t: Comments, kind: Kind)
    requires Visible(t, kind)
    ensures exists i :: 0 <= i < |t| && Is(t[i], kind)
  {
    var i :| 0 <= i < |Window(t)| && Is(Window(t)[i], kind);
    assert Is(t[|t| - |Window(t)| + i], kind);
  }

  lemma UnseenIsOld(t: Comments, kind: Kind)
    requires !Visible(t, kind)
    ensures forall i :: 0 <= i < |t| && Is(t[i], kind) ==> i < |t| - WINDOW
  {
    forall i | 0 <= i < |t| && |t| - WINDOW <= i
      ensures !Is(t[i], kind)
    {
      var k := if |t| <= WINDOW then i else i - (|t| - WINDOW);
      assert Window(t)[k] == t[i];
    }
  }

  /** A comment posted because none of its kind was visible keeps them a hundred apart. */
  lemma PostedApart(t: Comments, more: Comments, c: Comment, kind: Kind)
    requires Spaced(t, kind) && Chatter(more) && !Visible(t, kind)
    ensures Spaced(t + more + [c], kind)
  {
    UnseenIsOld(t, kind);
  }

  lemma OthersKeepApart(t: Comments, more: Comments, kind: Kind)
    requires Spaced(t, kind) && forall i :: 0 <= i < |more| ==> !Is(more[i], kind)
    ensures Spaced(t + more, kind)
  {
  }

  /** Rewriting a shared comment moves nothing. */
  lemma RewrittenStaysApart(t: Comments, at: nat, body: string, kind: Kind)
    requires at < |t| && t[at].Shared?
    ensures Spaced(t, kind) ==> Spaced(t[at := Shared(body)], kind)
    ensures Grown(t, t[at := Shared(body)])
  {
    var u := t[at := Shared(body)];
    assert forall i :: 0 <= i < |t| ==> Is(u[i], kind) == Is(t[i], kind);
  }

  /** In any thread a comment of this kind is found exactly when fewer than a hundred others follow one. */
  lemma ScrolledOut(t: Comments, kind: Kind)
    ensures Visible(t, kind) <==> exists i :: 0 <= i < |t| && Is(t[i], kind) && |t| - 1 - i < 100
  {
    if Visible(t, kind) {
      var i :| 0 <= i < |Window(t)| && Is(Window(t)[i], kind);
      assert Is(t[|t| - |Window(t)| + i], kind);
    } else {
      UnseenIsOld(t, kind);
    }
  }

  // ---- The bodies of the shared comments -------------------------------------------------

  function Bodies(t: Comments): seq<string> {
    if t == [] then []
    else Bodies(t[..|t| - 1]) + if t[|t| - 1].Shared? then [t[|t| - 1].body] else []
  }

  /** The place of the first shared comment, or the length when there is none. */
  function FirstShared(t: Comments): (i: nat)
    ensures i <= |t| && (i < |t| ==> t[i].Shared?) && forall j :: 0 <= j < i ==> !t[j].Shared?
  {
    if t == [] || t[0].Shared? then 0 else 1 + FirstShared(t[1..])
  }

  lemma {:induction false} BodiesTogether(a: Comments, b: Comments)
    ensures Bodies(a + b) == Bodies(a) + Bodies(b)
  {
    if b == [] {
      assert a + b == a;
    } else {
      BodiesTogether(a, b[..|b| - 1]);
      assert (a + b)[..|a + b| - 1] == a + b[..|b| - 1];
    }
  }

  lemma {:induction false} NoBodies(t: Comments)
    requires forall i :: 0 <= i < |t| ==> !t[i].Shared?
    ensures Bodies(t) == []
  {
    if t != [] {
      NoBodies(t[..|t| - 1]);
    }
  }

  lemma {:induction false} SomeBody(t: Comments, i: nat)
    requires i < |t| && t[i].Shared?
    ensures Bodies(t) != [] && (Bodies(t) == [t[i].body] || |Bodies(t)| > 1)
  {
    assert t == t[..i] + [t[i]] + t[i + 1..];
    BodiesAround(t[..i], t[i], t[i + 1..]);
  }

  /** Appending one comment to the thread and its chatter. */
  lemma BodiesAppended(t: Comments, more: Comments, c: Comment)
    requires Chatter(more)
    ensures Bodies(t + more) == Bodies(t)
    ensures Bodies(t + more + [c]) == if c.Shared? then Bodies(t) + [c.body] else Bodies(t)
  {
    BodiesTogether(t, more);
    NoBodies(more);
    assert (t + more + [c])[..|t + more|] == t + more;
  }

  lemma BodiesAround(front: Comments, c: Comment, back: Comments)
    ensures Bodies(front + [c] + back) == Bodies(front) + (if c.Shared? then [c.body] else []) + Bodies(back)
  {
    BodiesTogether(front + [c], back);
    assert (front + [c])[..|front|] == front;
  }

  /** Rewriting the only shared comment. */
  lemma BodiesRewritten(t: Comments, at: nat, body: string)
    requires at < |t| && t[at].Shared? && |Bodies(t)| == 1
    ensures Bodies(t[at := Shared(body)]) == [body]
  {
    var front, back := t[..at], t[at + 1..];
    assert t == front + [t[at]] + back && t[at := Shared(body)] == front + [Shared(body)] + back;
    BodiesAround(front, t[at], back);
    BodiesAround(front, Shared(body), back);
  }

  lemma BodiesInView(t: Comments)
    requires InView(t)
    ensures Bodies(Window(t)) == Bodies(t)
  {
    if |t| > WINDOW {
      var front := t[..|t| - WINDOW];
      assert t == front + Window(t);
      BodiesTogether(front, Window(t));
      NoBodies(front);
    }
  }
}
