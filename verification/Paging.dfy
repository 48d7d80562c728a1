/**
 Paging through the attempt archive, newest first: every page resumes strictly below the sort key
 of the ID its cursor names. `key` stands for the parsed timestamp of an ID, which is the oldest
 instant for every ID that does not parse.
 */
module Paging {
  import opened Prelude
  import opened Cursor

  const DEFAULT_LIMIT := 20
  const MAX_LIMIT := 100

  datatype Page = Page(ids: seq<string>, next: Option<string>)

  /** Newest first; equal keys may stand in any order. */
  ghost predicate Sorted(ids: seq<string>, key: string -> int) {
    forall i, j :: 0 <= i < j < |ids| ==> key(ids[i]) >= key(ids[j])
  }

  function Older(ids: seq<string>, key: string -> int, bound: int): (r: seq<string>)
    ensures |r| <= |ids|
  {
    if ids == [] then []
    else if key(ids[0]) < bound then [ids[0]] + Older(ids[1..], key, bound)
    else Older(ids[1..], key, bound)
  }

  /** The first `limit` entries, and a cursor for the last of them when more remain. */
  function Cut(entries: seq<string>, limit: int): (page: Page)
    requires limit >= 1
    ensures page.ids <= entries && |page.ids| <= limit
    ensures page.next.None? <==> page.ids == entries
  {
    if |entries| <= limit then Page(entries, None)
    else Page(entries[..limit], Some(EncodeCursor(entries[limit - 1])))
  }

  /** The entries a request pages through; None when its cursor is refused. */
  function Entries(all: seq<string>, key: string -> int, before: Option<string>): Option<seq<string>> {
    if before.None? then Some(all)
    else
      var id := DecodeCursor(before.value);
      if id.None? then None else Some(Older(all, key, key(id.value)))
  }

  /** One listing request; None is the `invalid_argument` refusal. */
  function ListAttempts(all: seq<string>, key: string -> int, limit: Option<int>, before: Option<string>): Option<Page> {
    var size := if limit.None? then DEFAULT_LIMIT else limit.value;
    if !(1 <= size <= MAX_LIMIT) then None
    else
      var entries := Entries(all, key, before);
      if entries.None? then None else Some(Cut(entries.value, size))
  }

  function Remaining(all: seq<string>, key: string -> int, before: Option<string>): nat {
    var entries := Entries(all, key, before);
    if entries.None? then 0 else |entries.value|
  }

  /** All pages of a client that follows every cursor: their IDs in order, and whether none was refused. */
  datatype Listing = Listing(ids: seq<string>, whole: bool)

  function Follow(all: seq<string>, key: string -> int, limit: int, before: Option<string>): Listing
    requires 1 <= limit <= MAX_LIMIT
    decreases Remaining(all, key, before)
  {
    var page := ListAttempts(all, key, Some(limit), before);
    if page.None? then Listing([], false)
    else if page.value.next.None? then Listing(page.value.ids, true)
    else
      PagesShrink(all, key, limit, before);
      var tail := Follow(all, key, limit, page.value.next);
      Listing(page.value.ids + tail.ids, tail.whole)
  }

  lemma {:induction false} OlderElement(ids: seq<string>, key: string -> int, bound: int, i: nat)
    requires i < |Older(ids, key, bound)|
    ensures Older(ids, key, bound)[i] in ids && key(Older(ids, key, bound)[i]) < bound
  {
    if key(ids[0]) >= bound {
      OlderElement(ids[1..], key, bound, i);
    } else if i > 0 {
      OlderElement(ids[1..], key, bound, i - 1);
    }
  }

  lemma {:induction false} OlderKeepsBelow(ids: seq<string>, key: string -> int, bound: int, lower: int)
    requires lower <= bound
    ensures |Older(ids, key, lower)| <= |Older(ids, key, bound)| <= |ids|
  {
    if ids != [] {
      OlderKeepsBelow(ids[1..], key, bound, lower);
    }
  }

  lemma {:induction false} OlderDropsOne(ids: seq<string>, key: string -> int, bound: int, id: string)
    requires id in ids && key(id) < bound
    ensures |Older(ids, key, key(id))| < |Older(ids, key, bound)|
  {
    if ids[0] == id {
      OlderKeepsBelow(ids[1..], key, bound, key(id));
    } else {
      OlderDropsOne(ids[1..], key, bound, id);
    }
  }

  lemma {:induction false} OlderDropsItself(ids: seq<string>, key: string -> int, id: string)
    requires id in ids
    ensures |Older(ids, key, key(id))| < |ids|
  {
    if ids[0] == id {
      OlderKeepsBelow(ids[1..], key, key(id), key(id));
    } else {
      OlderDropsItself(ids[1..], key, id);
    }
  }

  /** Each cursor leaves strictly fewer entries, so following them ends whatever the keys are. */
  lemma PagesShrink(all: seq<string>, key: string -> int, limit: int, before: Option<string>)
    requires 1 <= limit <= MAX_LIMIT
    requires Entries(all, key, before).Some? && Cut(Entries(all, key, before).value, limit).next.Some?
    ensures Remaining(all, key, Cut(Entries(all, key, before).value, limit).next) < Remaining(all, key, before)
  {
    var entries := Entries(all, key, before).value;
    var id := entries[limit - 1];
    CursorRoundTrip(id);
    assert id in entries;
    if before.None? {
      OlderDropsItself(all, key, id);
    } else {
      OlderElement(all, key, key(DecodeCursor(before.value).value), limit - 1);
      OlderDropsOne(all, key, key(DecodeCursor(before.value).value), id);
    }
  }

  // ---- When the pages add up to the listing ------------------------------------------

  /** A page may end right before position `k`: the next key is strictly older and the cursor decodes. */
  predicate Breaks(all: seq<string>, key: string -> int, k: int)
    requires 0 < k < |all|
  {
    key(all[k]) < key(all[k - 1]) && 1 <= |all[k - 1]| <= LONGEST
  }

  /** Every page boundary after position `k` is one. */
  predicate BreaksFrom(all: seq<string>, key: string -> int, limit: int, k: nat)
    requires limit >= 1
    decreases |all| - k
  {
    k + limit < |all| ==> Breaks(all, key, k + limit) && BreaksFrom(all, key, limit, k + limit)
  }

  lemma {:induction false} AllOlder(ids: seq<string>, key: string -> int, bound: int)
    requires forall i :: 0 <= i < |ids| ==> key(ids[i]) < bound
    ensures Older(ids, key, bound) == ids
  {
    if ids != [] {
      AllOlder(ids[1..], key, bound);
    }
  }

  /** Where the entries older than the one before `at` begin. */
  function Behind(all: seq<string>, key: string -> int, at: nat): nat
    requires 0 < at <= |all|
  {
    |all| - |Older(all, key, key(all[at - 1]))|
  }

  /** In a sorted listing the older entries are a suffix. */
  lemma {:induction false} OlderIsSuffix(ids: seq<string>, key: string -> int, bound: int)
    requires Sorted(ids, key)
    ensures var k := |ids| - |Older(ids, key, bound)|;
      && Older(ids, key, bound) == ids[k..]
      && (k < |ids| ==> key(ids[k]) < bound) && (k > 0 ==> key(ids[k - 1]) >= bound)
  {
    if ids == [] {
    } else if key(ids[0]) < bound {
      AllOlder(ids, key, bound);
    } else {
      OlderIsSuffix(ids[1..], key, bound);
      var k := |ids[1..]| - |Older(ids[1..], key, bound)|;
      assert ids[1..][k..] == ids[k + 1..];
    }
  }

  lemma SuffixStart(all: seq<string>, key: string -> int, at: nat, k: nat)
    requires Sorted(all, key) && 0 < at < |all| && k <= |all|
    requires (k < |all| ==> key(all[k]) < key(all[at - 1])) && (k > 0 ==> key(all[k - 1]) >= key(all[at - 1]))
    ensures at <= k && (k == at <==> key(all[at]) < key(all[at - 1]))
  {
  }

  /** The next page starts at `at` or, past equal keys, behind it. */
  lemma NextPage(all: seq<string>, key: string -> int, at: nat)
    requires Sorted(all, key) && 0 < at < |all|
    ensures at <= Behind(all, key, at) <= |all|
    ensures Behind(all, key, at) == at <==> key(all[at]) < key(all[at - 1])
    ensures Older(all, key, key(all[at - 1])) == all[Behind(all, key, at)..]
  {
    var bound, k := key(all[at - 1]), Behind(all, key, at);
    OlderIsSuffix(all, key, bound);
    assert k == |all| - |Older(all, key, bound)|;
    assert (k < |all| ==> key(all[k]) < bound) && (k > 0 ==> key(all[k - 1]) >= bound);
    SuffixStart(all, key, at, k);
  }

  /** What a request starts from: the whole listing, or the suffix behind the cursor. */
  lemma EntriesFrom(all: seq<string>, key: string -> int, before: Option<string>) returns (k: nat)
    requires Sorted(all, key)
    ensures k <= |all|
    ensures Entries(all, key, before).None? <==> before.Some? && DecodeCursor(before.value).None?
    ensures Entries(all, key, before).Some? ==> Entries(all, key, before) == Some(all[k..])
    ensures before.None? ==> k == 0
    ensures before.Some? && DecodeCursor(before.value).Some? ==> var bound := key(DecodeCursor(before.value).value);
      (k < |all| ==> key(all[k]) < bound) && (k > 0 ==> key(all[k - 1]) >= bound)
  {
    k := 0;
    if before.None? {
      assert all[0..] == all;
    } else if DecodeCursor(before.value).Some? {
      var bound := key(DecodeCursor(before.value).value);
      OlderIsSuffix(all, key, bound);
      k := |all| - |Older(all, key, bound)|;
    }
  }

  lemma CutAt(all: seq<string>, size: int, k: nat)
    requires 1 <= size && k <= |all|
    ensures Cut(all[k..], size)
      == if k + size < |all| then Page(all[k..k + size], Some(EncodeCursor(all[k + size - 1]))) else Page(all[k..], None)
  {
    if k + size < |all| {
      CutOff(all, size, k);
    }
  }

  lemma CutOff(all: seq<string>, limit: nat, k: nat)
    requires 1 <= limit && k + limit < |all|
    ensures Cut(all[k..], limit) == Page(all[k..k + limit], Some(EncodeCursor(all[k + limit - 1])))
  {
    assert all[k..][..limit] == all[k..k + limit];
  }

  /**
   One request over a sorted listing: refused for a limit outside 1 to 100 or a cursor that does not
   decode, and else the first entries behind every one that is not strictly older than the cursor's,
   with a cursor for the last of them exactly when more remain. The limit is 20 unless given.
   */
  lemma PageIsNext(all: seq<string>, key: string -> int, limit: Option<int>, before: Option<string>) returns (k: nat)
    requires Sorted(all, key)
    ensures var size := if limit.Some? then limit.value else 20;
      var page := ListAttempts(all, key, limit, before);
      && k <= |all|
      && (page.None? <==> size < 1 || size > 100 || (before.Some? && DecodeCursor(before.value).None?))
      && (page.Some? ==>
            && (before.None? ==> k == 0)
            && (before.Some? ==> var bound := key(DecodeCursor(before.value).value);
                  (k < |all| ==> key(all[k]) < bound) && (k > 0 ==> key(all[k - 1]) >= bound))
            && page.value.ids == (if k + size < |all| then all[k..k + size] else all[k..])
            && page.value.next == (if k + size < |all| then Some(EncodeCursor(all[k + size - 1])) else None))
  {
    k := EntriesFrom(all, key, before);
    var size := if limit.Some? then limit.value else 20;
    if 1 <= size && Entries(all, key, before).Some? {
      CutAt(all, size, k);
    }
  }

  /** The same pages by position, without cursors. */
  function Pages(all: seq<string>, key: string -> int, limit: int, k: nat): Listing
    requires Sorted(all, key) && limit >= 1 && k <= |all|
    decreases |all| - k
  {
    var at := k + limit;
    if at >= |all| then Listing(all[k..], true)
    else if !(1 <= |all[at - 1]| <= LONGEST) then Listing(all[k..at], false)
    else
      NextPage(all, key, at);
      var tail := Pages(all, key, limit, Behind(all, key, at));
      Listing(all[k..at] + tail.ids, tail.whole)
  }

  /** A page that is not the last, and what follows it. */
  lemma FollowOn(all: seq<string>, key: string -> int, limit: int, before: Option<string>, k: nat)
    requires 1 <= limit <= MAX_LIMIT && k + limit < |all| && Entries(all, key, before) == Some(all[k..])
    ensures var tail := Follow(all, key, limit, Some(EncodeCursor(all[k + limit - 1])));
      Follow(all, key, limit, before) == Listing(all[k..k + limit] + tail.ids, tail.whole)
  {
    CutOff(all, limit, k);
    assert ListAttempts(all, key, Some(limit), before) == Some(Page(all[k..k + limit], Some(EncodeCursor(all[k + limit - 1]))));
  }

  lemma FollowLast(all: seq<string>, key: string -> int, limit: int, before: Option<string>, k: nat)
    requires 1 <= limit <= MAX_LIMIT && k <= |all| <= k + limit && Entries(all, key, before) == Some(all[k..])
    ensures Follow(all, key, limit, before) == Listing(all[k..], true)
  {
    assert ListAttempts(all, key, Some(limit), before) == Some(Cut(all[k..], limit));
  }

  lemma Refused(all: seq<string>, key: string -> int, limit: int, id: string)
    requires 1 <= limit <= MAX_LIMIT && !(1 <= |id| <= LONGEST)
    ensures Follow(all, key, limit, Some(EncodeCursor(id))) == Listing([], false)
  {
    CursorRoundTrip(id);
  }

  lemma CursorLeadsOn(all: seq<string>, key: string -> int, at: nat)
    requires Sorted(all, key) && 0 < at < |all| && 1 <= |all[at - 1]| <= LONGEST
    ensures Behind(all, key, at) <= |all|
    ensures Entries(all, key, Some(EncodeCursor(all[at - 1]))) == Some(all[Behind(all, key, at)..])
  {
    CursorRoundTrip(all[at - 1]);
    NextPage(all, key, at);
  }

  /** The cursor of the page that ends before `at` leads on, or is refused. */
  lemma FollowOnward(all: seq<string>, key: string -> int, limit: int, before: Option<string>, k: nat, at: nat)
    returns (next: Option<string>, tail: Listing)
    requires Sorted(all, key) && 1 <= limit <= MAX_LIMIT && at == k + limit < |all|
    requires Entries(all, key, before) == Some(all[k..])
    ensures tail == Follow(all, key, limit, next)
    ensures Follow(all, key, limit, before) == Listing(all[k..at] + tail.ids, tail.whole)
    ensures at <= Behind(all, key, at) <= |all|
    ensures if 1 <= |all[at - 1]| <= LONGEST then Entries(all, key, next) == Some(all[Behind(all, key, at)..])
            else tail == Listing([], false)
  {
    FollowOn(all, key, limit, before, k);
    NextPage(all, key, at);
    next := Some(EncodeCursor(all[at - 1]));
    tail := Follow(all, key, limit, next);
    if 1 <= |all[at - 1]| <= LONGEST {
      CursorLeadsOn(all, key, at);
    } else {
      Refused(all, key, limit, all[at - 1]);
    }
  }

  /** One page more: the listing breaks off, or goes on where the next page starts. */
  lemma PagesOneMore(all: seq<string>, key: string -> int, limit: int, k: nat, at: nat, j: nat)
    requires Sorted(all, key) && limit >= 1 && at == k + limit < |all| && 1 <= |all[at - 1]| <= LONGEST
    requires j == Behind(all, key, at) && at <= j <= |all|
    ensures var tail := Pages(all, key, limit, j);
      Pages(all, key, limit, k) == Listing(all[k..at] + tail.ids, tail.whole)
  {
  }

  /** The pages end here: with the rest of the listing, or with an ID that fits no cursor. */
  lemma PagesEnd(all: seq<string>, key: string -> int, limit: int, k: nat)
    requires Sorted(all, key) && limit >= 1 && k <= |all|
    requires k + limit < |all| ==> !(1 <= |all[k + limit - 1]| <= LONGEST)
    ensures Pages(all, key, limit, k)
         == if k + limit < |all| then Listing(all[k..k + limit] + [], false) else Listing(all[k..], true)
  {
    if k + limit < |all| {
      assert all[k..k + limit] + [] == all[k..k + limit];
    }
  }

  /** Following cursors visits the pages by position. */
  lemma {:induction false} FollowIsPages(all: seq<string>, key: string -> int, limit: int, before: Option<string>, k: nat)
    returns (f: Listing)
    requires Sorted(all, key) && 1 <= limit <= MAX_LIMIT && k <= |all|
    requires Entries(all, key, before) == Some(all[k..])
    ensures f == Follow(all, key, limit, before) && f == Pages(all, key, limit, k)
    decreases |all| - k
  {
    var at := k + limit;
    if at >= |all| {
      FollowLast(all, key, limit, before, k);
      PagesEnd(all, key, limit, k);
      f := Listing(all[k..], true);
      return;
    }
    var next, tail := FollowOnward(all, key, limit, before, k, at);
    f := Listing(all[k..at] + tail.ids, tail.whole);
    if 1 <= |all[at - 1]| <= LONGEST {
      var j := Behind(all, key, at);
      var again := FollowIsPages(all, key, limit, next, j);
      PagesOneMore(all, key, limit, k, at, j);
    } else {
      PagesEnd(all, key, limit, k);
    }
  }

  /** A page and the listing behind it, when the next page starts at `j`. */
  lemma Joined(all: seq<string>, k: nat, at: nat, j: nat, tail: Listing)
    requires k < at <= j <= |all| && |tail.ids| <= |all| - j
    ensures |all[k..at] + tail.ids| <= |all| - k
    ensures Listing(all[k..at] + tail.ids, tail.whole) == Listing(all[k..], true) <==> j == at && tail == Listing(all[at..], true)
  {
    assert all[k..] == all[k..at] + all[at..];
    assert (all[k..at] + tail.ids)[at - k..] == tail.ids;
  }

  /** From position `k` the pages are the rest of the listing exactly when every later boundary breaks. */
  lemma {:induction false} PagesAreTheRest(all: seq<string>, key: string -> int, limit: int, k: nat)
    requires Sorted(all, key) && limit >= 1 && k <= |all|
    ensures |Pages(all, key, limit, k).ids| <= |all| - k
    ensures Pages(all, key, limit, k) == Listing(all[k..], true) <==> BreaksFrom(all, key, limit, k)
    decreases |all| - k
  {
    var at := k + limit;
    if at < |all| && 1 <= |all[at - 1]| <= LONGEST {
      NextPage(all, key, at);
      var j := Behind(all, key, at);
      PagesAreTheRest(all, key, limit, j);
      PagesOneMore(all, key, limit, k, at, j);
      Joined(all, k, at, j, Pages(all, key, limit, j));
      assert BreaksFrom(all, key, limit, k) <==> j == at && BreaksFrom(all, key, limit, at);
    } else if at < |all| {
      assert Pages(all, key, limit, k) == Listing(all[k..at], false);
    } else {
      assert Pages(all, key, limit, k) == Listing(all[k..], true);
    }
  }

  /** With this page size the pages add up to the whole listing exactly when every page boundary breaks cleanly. */
  lemma PagesAddUpExactly(all: seq<string>, key: string -> int, limit: int)
    requires Sorted(all, key) && 1 <= limit <= MAX_LIMIT
    ensures Follow(all, key, limit, None) == Listing(all, true) <==> BreaksFrom(all, key, limit, 0)
  {
    assert all[0..] == all;
    var f := FollowIsPages(all, key, limit, None, 0);
    PagesAreTheRest(all, key, limit, 0);
  }

  /** Sort keys are pairwise distinct, and every ID but the oldest fits a cursor. */
  ghost predicate Pageable(all: seq<string>, key: string -> int) {
    && (forall i, j :: 0 <= i < j < |all| ==> key(all[i]) != key(all[j]))
    && (forall i :: 0 <= i < |all| - 1 ==> 1 <= |all[i]| <= LONGEST)
  }

  lemma {:induction false} PageableBreaks(all: seq<string>, key: string -> int, limit: int, k: nat)
    requires Sorted(all, key) && Pageable(all, key) && limit >= 1
    ensures BreaksFrom(all, key, limit, k)
    decreases |all| - k
  {
    if k + limit < |all| {
      var at := k + limit;
      assert key(all[at - 1]) != key(all[at]);
      PageableBreaks(all, key, limit, at);
    }
  }

  lemma {:induction false} BreaksEverywhere(all: seq<string>, key: string -> int, k: nat, i: nat)
    requires BreaksFrom(all, key, 1, k) && k < i < |all|
    ensures Breaks(all, key, i)
    decreases i - k
  {
    if i > k + 1 {
      BreaksEverywhere(all, key, k + 1, i);
    }
  }

  /** Following the cursors yields the whole listing, whatever page size is asked for. */
  ghost predicate CompleteForEveryLimit(all: seq<string>, key: string -> int) {
    forall limit :: 1 <= limit <= MAX_LIMIT ==> Follow(all, key, limit, None) == Listing(all, true)
  }

  lemma PageableIsComplete(all: seq<string>, key: string -> int)
    requires Sorted(all, key) && Pageable(all, key)
    ensures CompleteForEveryLimit(all, key)
  {
    forall limit | 1 <= limit <= MAX_LIMIT
      ensures Follow(all, key, limit, None) == Listing(all, true)
    {
      PageableBreaks(all, key, limit, 0);
      PagesAddUpExactly(all, key, limit);
    }
  }

  lemma CompleteIsPageable(all: seq<string>, key: string -> int)
    requires Sorted(all, key) && CompleteForEveryLimit(all, key)
    ensures Pageable(all, key)
  {
    assert Follow(all, key, 1, None) == Listing(all, true);
    PagesAddUpExactly(all, key, 1);
    forall i | 0 < i < |all|
      ensures Breaks(all, key, i)
    {
      BreaksEverywhere(all, key, 0, i);
    }
    forall i, j | 0 <= i < j < |all|
      ensures key(all[i]) != key(all[j])
    {
      assert Breaks(all, key, i + 1) && key(all[i + 1]) >= key(all[j]);
    }
    forall i | 0 <= i < |all| - 1
      ensures 1 <= |all[i]| <= LONGEST
    {
      assert Breaks(all, key, i + 1);
    }
  }

  /**
   Over a fixed archive, following the cursors yields the full newest-first listing for every
   page size if and only if the sort keys are distinct and every ID but the oldest has 1 to 256
   characters.
   */
  lemma PagingIsCompleteExactly(all: seq<string>, key: string -> int)
    requires Sorted(all, key)
    ensures CompleteForEveryLimit(all, key) <==> Pageable(all, key)
  {
    if Pageable(all, key) {
      PageableIsComplete(all, key);
    } else if CompleteForEveryLimit(all, key) {
      CompleteIsPageable(all, key);
    }
  }
}
