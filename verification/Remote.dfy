/**
 GitHub as the publisher of one issue meets it: the pull requests of its attempt branch and its
 comments. Any call may fail, a write may land while its reply is lost, pull requests are merged or
 closed and comments added by others between any two calls.
 */
module Remote {
  import opened Prelude
  import opened PullRequests
  import opened Thread

  class GitHub {
    var pulls: Pulls
    var thread: Comments

    /** How many of the calls that publication relies on reported failure, landed or not. */
    ghost var failures: nat

    /** How many result comments were added. */
    ghost var results: nat

    /** How many merges were asked for. */
    ghost var merges: nat

    constructor ()
      ensures pulls == Pulls(0, 0) && thread == [] && failures == 0 && results == 0 && merges == 0
    {
      pulls, thread, failures, results, merges := Pulls(0, 0), [], 0, 0, 0;
    }

    /** Others merge or close pull requests. */
    method OthersClose() returns (ghost closes: nat)
      modifies this`pulls
      ensures pulls == Close(old(pulls), closes)
    {
      var some: int := *;
      var n := if some > 0 then some else 0;
      closes := n;
      pulls := Close(pulls, n);
    }

    /** Others comment. */
    method OthersComment() returns (ghost more: Comments)
      modifies this`thread
      ensures Chatter(more) && thread == old(thread) + more
    {
      var some: int := *;
      var added := seq(if some > 0 then some else 0, _ => Other);
      more := added;
      thread := thread + added;
    }

    /** The open pull request, if any; a merged or closed one reads as absent. */
    method FindPullRequest() returns (ok: bool, found: bool, ghost look: Look)
      modifies this`pulls, this`failures
      ensures ok == look.readable && pulls == Close(old(pulls), look.closes) && found == (ok && pulls.open > 0)
      ensures failures == old(failures) + if ok then 0 else 1
    {
      ghost var closes := OthersClose();
      ok := *;
      found := ok && pulls.open > 0;
      look := Look(closes, ok);
      failures := failures + if ok then 0 else 1;
    }

    method CreatePullRequest() returns (ok: bool, ghost closes: nat, ghost landed: bool, ghost replied: bool)
      modifies this`pulls, this`failures
      ensures ok == (landed && replied)
      ensures pulls == var q := Close(old(pulls), closes); if landed then q.(open := q.open + 1) else q
      ensures failures == old(failures) + if ok then 0 else 1
    {
      closes := OthersClose();
      var lands, answers := *, *;
      landed, replied := lands, answers;
      if lands {
        pulls := pulls.(open := pulls.open + 1);
      }
      ok := lands && answers;
      failures := failures + if ok then 0 else 1;
    }

    /** Merging, or having it merged later: a follow-up on which nothing else depends. */
    method MergePullRequest() returns (ghost closes: nat)
      modifies this`pulls, this`merges
      ensures pulls == Close(old(pulls), closes) && merges == old(merges) + 1
    {
      closes := OthersClose();
      merges := merges + 1;
    }

    method FindAttemptComment(attempt: string) returns (ok: bool, found: bool, ghost more: Comments)
      modifies this`thread, this`failures
      ensures Chatter(more) && thread == old(thread) + more
      ensures found == (ok && Visible(thread, OfResult(attempt)))
      ensures failures == old(failures) + if ok then 0 else 1
    {
      more := OthersComment();
      ok := *;
      found := ok && Visible(thread, OfResult(attempt));
      failures := failures + if ok then 0 else 1;
    }

    method AddResultComment(attempt: string) returns (ok: bool, ghost more: Comments, ghost landed: bool)
      modifies this`thread, this`failures, this`results
      ensures Chatter(more) && thread == if landed then old(thread) + more + [ResultOf(attempt)] else old(thread) + more
      ensures ok ==> landed
      ensures failures == old(failures) + if ok then 0 else 1
      ensures results == old(results) + if landed then 1 else 0
    {
      more := OthersComment();
      var lands, answers := *, *;
      landed := lands;
      if lands {
        thread, results := thread + [ResultOf(attempt)], results + 1;
      }
      ok := lands && answers;
      failures := failures + if ok then 0 else 1;
    }

    /** Adds a comment that is not a result. */
    method AddComment(c: Comment) returns (ok: bool, ghost more: Comments, ghost landed: bool)
      requires !c.ResultOf?
      modifies this`thread, this`failures
      ensures Chatter(more) && thread == if landed then old(thread) + more + [c] else old(thread) + more
      ensures ok ==> landed
      ensures failures == old(failures) + if ok then 0 else 1
    {
      more := OthersComment();
      var lands, answers := *, *;
      landed := lands;
      if lands {
        thread := thread + [c];
      }
      ok := lands && answers;
      failures := failures + if ok then 0 else 1;
    }

    /** The one visible shared comment and its place; more than one reads as an error. */
    method FindHandoffRecord() returns (ok: bool, found: Option<nat>, ghost more: Comments)
      modifies this`thread, this`failures
      ensures Chatter(more) && thread == old(thread) + more
      ensures ok && found.Some? ==> found.value < |thread| && thread[found.value].Shared?
                                    && Bodies(Window(thread)) == [thread[found.value].body]
      ensures ok && found.None? ==> Bodies(Window(thread)) == [] && !Visible(thread, OfShared)
      ensures ok <==> |Bodies(Window(thread))| <= 1 && failures == old(failures)
      ensures failures >= old(failures)
    {
      more := OthersComment();
      ok := *;
      failures := failures + if ok then 0 else 1;
      var window := Window(thread);
      if |Bodies(window)| > 1 {
        return false, None, more;
      }
      var i := FirstShared(window);
      if i == |window| {
        NoBodies(window);
        return ok, None, more;
      }
      SomeBody(window, i);
      assert thread[i + (|thread| - |window|)] == window[i];
      return ok, Some(i + (|thread| - |window|)), more;
    }

    /** Rewrites the comment found at this place. */
    method UpdateHandoffRecord(at: nat, body: string) returns (ok: bool, ghost more: Comments, ghost landed: bool)
      requires at < |thread| && thread[at].Shared?
      modifies this`thread, this`failures
      ensures Chatter(more) && thread == if landed then (old(thread) + more)[at := Shared(body)] else old(thread) + more
      ensures ok ==> landed
      ensures failures == old(failures) + if ok then 0 else 1
    {
      more := OthersComment();
      var lands, answers := *, *;
      landed := lands;
      if lands {
        thread := thread[at := Shared(body)];
      }
      ok := lands && answers;
      failures := failures + if ok then 0 else 1;
    }
  }
}
