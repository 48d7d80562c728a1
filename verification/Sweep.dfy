/**
 The cleanup sweep: after switching back to the base branch, files the attempt branch ignored read
 as untracked and are removed - all of them or none. Paths are the texts git prints, relative to
 the clone, with '/' between segments.
 */
module Sweep {
  import opened Prelude

  type Path = string

  // ---- Paths ------------------------------------------------------------------------

  function StripLeft(s: string): string {
    if s != "" && IsSpace(s[0]) then StripLeft(s[1..]) else s
  }

  function StripRight(s: string): string {
    if s != "" && IsSpace(s[|s| - 1]) then StripRight(s[..|s| - 1]) else s
  }

  function StripSlashes(s: string): string {
    if s != "" && s[|s| - 1] == '/' then StripSlashes(s[..|s| - 1]) else s
  }

  function Normal(path: string): string {
    StripSlashes(StripRight(StripLeft(path)))
  }

  /** The segments between slashes. */
  function Segments(path: string): (segments: seq<string>)
    ensures segments != []
  {
    if path == "" then [""]
    else
      var rest := Segments(path[1..]);
      if path[0] == '/' then [""] + rest else [[path[0]] + rest[0]] + rest[1..]
  }

  predicate StartsWith(s: string, prefix: string) {
    |prefix| <= |s| && s[..|prefix|] == prefix
  }

  predicate Under(path: Path, dir: Path) {
    StartsWith(path, dir + "/")
  }

  /** The comparison of the sweep: equal, or one below the other. */
  predicate Matches(normalized: Path, candidate: Path) {
    normalized == candidate || Under(normalized, candidate) || Under(candidate, normalized)
  }

  predicate IsPrefix(a: seq<string>, b: seq<string>) {
    |a| <= |b| && b[..|a|] == a
  }

  predicate AtOrUnder(path: Path, dir: Path) {
    path == dir || Under(path, dir)
  }

  lemma SameHead(path: Path, dir: Path)
    requires path != "" && dir != ""
    ensures AtOrUnder(path, dir) <==> path[0] == dir[0] && AtOrUnder(path[1..], dir[1..])
  {
    assert path == [path[0]] + path[1..] && dir == [dir[0]] + dir[1..];
    var below := dir + "/";
    assert below[1..] == dir[1..] + "/";
    if |below| <= |path| {
      assert path[..|below|] == [path[0]] + path[1..][..|below| - 1];
      assert below == [dir[0]] + below[1..];
      assert path[..|below|] == below <==> path[0] == dir[0] && path[1..][..|below| - 1] == below[1..] by {
        assert path[..|below|][1..] == path[1..][..|below| - 1];
      }
    }
  }

  lemma SegmentsHead(path: Path)
    requires path != ""
    ensures Segments(path)[0] == "" <==> path[0] == '/'
  {
  }

  lemma PrefixAfterSlash(a: seq<string>, b: seq<string>)
    ensures IsPrefix([""] + a, [""] + b) <==> IsPrefix(a, b)
  {
    if |a| <= |b| {
      assert ([""] + b)[..|a| + 1] == [""] + b[..|a|];
      assert ([""] + a)[1..] == a && ([""] + b[..|a|])[1..] == b[..|a|];
    }
  }

  lemma PrefixAfterChar(c: char, d: char, a: seq<string>, b: seq<string>)
    requires a != [] && b != []
    ensures IsPrefix([[c] + a[0]] + a[1..], [[d] + b[0]] + b[1..]) <==> c == d && IsPrefix(a, b)
  {
    var x, y := [[c] + a[0]] + a[1..], [[d] + b[0]] + b[1..];
    if |a| <= |b| {
      assert y[..|a|] == [y[0]] + b[1..|a|];
      assert b[..|a|] == [b[0]] + b[1..|a|] && a == [a[0]] + a[1..];
      assert x[0] == y[0] <==> c == d && a[0] == b[0] by {
        assert x[0][1..] == a[0] && y[0][1..] == b[0];
      }
      assert x[1..] == a[1..] && y[..|a|][1..] == b[1..|a|];
      assert b[..|a|][1..] == b[1..|a|];
    }
  }

  lemma PrefixHead(a: seq<string>, b: seq<string>)
    requires a != [] && b != []
    ensures IsPrefix(a, b) ==> a[0] == b[0]
  {
  }

  /** A path is a directory or below it exactly when the directory's segments begin the path's. */
  lemma {:induction false} UnderIsSegmentwise(path: Path, dir: Path)
    ensures AtOrUnder(path, dir) <==> IsPrefix(Segments(dir), Segments(path))
    decreases |dir|
  {
    if dir == "" {
      assert path != "" ==> (Under(path, "") <==> path[0] == '/');
      if path != "" {
        SegmentsHead(path);
      }
    } else if path == "" {
      PrefixHead(Segments(dir), [""]);
      SegmentsHead(dir);
    } else {
      SameHead(path, dir);
      UnderIsSegmentwise(path[1..], dir[1..]);
      var a, b := Segments(dir[1..]), Segments(path[1..]);
      if dir[0] == '/' && path[0] == '/' {
        PrefixAfterSlash(a, b);
      } else if dir[0] != '/' && path[0] != '/' {
        PrefixAfterChar(dir[0], path[0], a, b);
      } else {
        SegmentsHead(dir);
        SegmentsHead(path);
        PrefixHead(Segments(dir), Segments(path));
      }
    }
  }

  /** Coverage compares whole segments: one path's segments begin the other's. */
  lemma MatchesIsSegmentwise(a: Path, b: Path)
    ensures Matches(a, b) <==> IsPrefix(Segments(a), Segments(b)) || IsPrefix(Segments(b), Segments(a))
  {
    UnderIsSegmentwise(a, b);
    UnderIsSegmentwise(b, a);
  }

  // ---- The sweep ----------------------------------------------------------------------

  /** Every dirty path matches one that was ignored before the checkout. */
  predicate CoveredByIgnored(dirty: seq<Path>, ignored: seq<Path>) {
    forall d :: d in dirty ==> Normal(d) != "" && exists i :: i in ignored && Normal(i) != "" && Matches(Normal(d), Normal(i))
  }

  predicate Escapes(path: Path) {
    StartsWith(path, "/") || ".." in Segments(path)
  }

  /** A sweep removes everything it was told of, or nothing. */
  predicate Chosen(dirty: seq<Path>, ignored: seq<Path>) {
    && ignored != [] && dirty != []
    && CoveredByIgnored(dirty, ignored)
    && forall d :: d in dirty ==> !Escapes(d)
  }

  /** An absolute path, or one with a parent segment. */
  predicate ImpliesEscape(path: Path) {
    (path != "" && path[0] == '/') || exists i :: 0 <= i < |Segments(path)| && Segments(path)[i] == ".."
  }

  /** The path's segments begin those of a snapshot entry, or the other way round. */
  predicate CoveredBySegments(d: Path, ignored: seq<Path>) {
    exists i :: i in ignored && (IsPrefix(Segments(Normal(d)), Segments(Normal(i))) || IsPrefix(Segments(Normal(i)), Segments(Normal(d))))
  }

  /** One path that escapes, or that no snapshot entry explains, keeps the sweep from everything. */
  lemma UnexplainedStays(dirty: seq<Path>, ignored: seq<Path>)
    ensures Chosen(dirty, ignored) ==> forall d :: d in dirty ==> !ImpliesEscape(d) && CoveredBySegments(d, ignored)
  {
    if Chosen(dirty, ignored) {
      forall d | d in dirty
        ensures !ImpliesEscape(d) && CoveredBySegments(d, ignored)
      {
        var i :| i in ignored && Normal(i) != "" && Matches(Normal(d), Normal(i));
        MatchesIsSegmentwise(Normal(d), Normal(i));
        assert d != "" ==> (d[0] == '/' <==> d[..1] == "/");
      }
    }
  }

  /** What removing the target of a dirty path takes: that file, or everything in that directory. */
  predicate Taken(file: Path, dirty: Path) {
    AtOrUnder(file, StripSlashes(dirty))
  }

  predicate TakenByAny(file: Path, dirty: seq<Path>) {
    exists d :: d in dirty && Taken(file, d)
  }

  function Swept(files: set<Path>, dirty: seq<Path>): set<Path> {
    set f | f in files && TakenByAny(f, dirty)
  }

  // ---- What git prints ------------------------------------------------------------------

  /** A name git prints as it is, and whose surroundings the sweep does not strip. */
  predicate PlainPath(path: Path) {
    path != "" && !IsSpace(path[0]) && !IsSpace(path[|path| - 1]) && path[|path| - 1] != '/' && !Escapes(path)
  }

  /** Files and their directories have plain names, and no file stands where another needs a directory. */
  ghost predicate WorkTree(files: set<Path>) {
    && (forall f :: f in files ==> PlainPath(f))
    && (forall f, dir :: f in files && Under(f, dir) ==> PlainPath(dir))
    && forall f, g :: f in files && g in files ==> !Under(f, g)
  }

  /** A directory without tracked files in it. */
  predicate Bare(dir: Path, tracked: set<Path>) {
    forall f :: f in tracked ==> !Under(f, dir)
  }

  /** The topmost directory above this file without tracked files in it. */
  ghost predicate Topmost(dir: Path, file: Path, tracked: set<Path>) {
    Under(file, dir) && Bare(dir, tracked) && forall above :: Under(dir, above) ==> !Bare(above, tracked)
  }

  /** How git prints an untracked file: by its topmost directory without tracked files, else by its name. */
  ghost predicate Prints(d: Path, file: Path, tracked: set<Path>) {
    || (d == file && forall dir :: Under(file, dir) ==> !Bare(dir, tracked))
    || exists dir :: d == dir + "/" && Topmost(dir, file, tracked)
  }

  ghost predicate Entry(d: Path, tracked: set<Path>, untracked: set<Path>, ignores: Path -> bool) {
    exists u :: u in untracked && !ignores(u) && Prints(d, u, tracked)
  }

  /** A status read of a tree without changes to tracked files: the untracked files that are not ignored. */
  ghost predicate Reports(dirty: seq<Path>, tracked: set<Path>, untracked: set<Path>, ignores: Path -> bool) {
    forall d :: d in dirty <==> Entry(d, tracked, untracked, ignores)
  }

  /** A status read that may show changes to tracked files as well. */
  ghost predicate Shows(dirty: seq<Path>, tracked: set<Path>, untracked: set<Path>, ignores: Path -> bool) {
    forall d :: Entry(d, tracked, untracked, ignores) ==> d in dirty
  }

  /** A file that goes: not ignored, or under a directory without tracked files that holds one not ignored. */
  ghost predicate Doomed(f: Path, tracked: set<Path>, untracked: set<Path>, ignores: Path -> bool) {
    !ignores(f) || exists dir, u :: Bare(dir, tracked) && Under(f, dir) && u in untracked && !ignores(u) && Under(u, dir)
  }

  lemma UnderTwice(a: Path, b: Path, c: Path)
    requires Under(a, b) && Under(b, c)
    ensures Under(a, c)
  {
    assert a[..|b|] == b;
    assert b[..|c| + 1] == c + "/";
    assert a[..|c| + 1] == b[..|c| + 1];
  }

  /** Directories above one file lie above one another. */
  lemma Nested(f: Path, a: Path, b: Path)
    requires Under(f, a) && Under(f, b)
    ensures a == b || Under(a, b) || Under(b, a)
  {
    assert f[..|a|] == a && f[..|b|] == b;
    if |b| < |a| {
      assert a[..|b| + 1] == f[..|b| + 1];
    } else if |a| < |b| {
      assert b[..|a| + 1] == f[..|a| + 1];
    }
  }

  /** Above a directory without tracked files, or there, is the topmost. */
  lemma {:induction false} TopmostAbove(file: Path, dir: Path, tracked: set<Path>) returns (top: Path)
    requires Under(file, dir) && Bare(dir, tracked)
    ensures Topmost(top, file, tracked) && (top == dir || Under(dir, top))
    decreases |dir|
  {
    if above :| Under(dir, above) && Bare(above, tracked) {
      UnderTwice(file, dir, above);
      top := TopmostAbove(file, above, tracked);
      if top != above {
        UnderTwice(dir, above, top);
      }
    } else {
      top := dir;
    }
  }

  /** Git prints every file once. */
  lemma PrintsOnce(file: Path, tracked: set<Path>) returns (d: Path)
    ensures Prints(d, file, tracked) && forall e :: Prints(e, file, tracked) ==> e == d
  {
    if dir :| Under(file, dir) && Bare(dir, tracked) {
      var top := TopmostAbove(file, dir, tracked);
      d := top + "/";
      forall e | Prints(e, file, tracked)
        ensures e == d
      {
        var other :| e == other + "/" && Topmost(other, file, tracked);
        Nested(file, top, other);
      }
    } else {
      d := file;
    }
  }

  lemma NormalOfPlain(path: Path)
    requires PlainPath(path)
    ensures Normal(path) == path && Normal(path + "/") == path && StripSlashes(path) == path && StripSlashes(path + "/") == path
  {
    var slashed := path + "/";
    assert slashed[..|slashed| - 1] == path;
    assert !IsSpace('/');
  }

  lemma {:induction false} SegmentsOfDirectory(path: Path)
    ensures Segments(path + "/") == Segments(path) + [""]
  {
    if path == "" {
      assert "" + "/" == "/" && "/"[1..] == "";
    } else {
      SegmentsOfDirectory(path[1..]);
      assert (path + "/")[1..] == path[1..] + "/";
    }
  }

  lemma DirectoryDoesNotEscape(dir: Path)
    requires PlainPath(dir)
    ensures !Escapes(dir + "/")
  {
    SegmentsOfDirectory(dir);
    assert (dir + "/")[..1] == dir[..1];
  }

  /** No entry escapes, and each is covered once every untracked file is in the snapshot. */
  lemma EntryIsCovered(d: Path, tracked: set<Path>, untracked: set<Path>, ignores: Path -> bool, ignored: seq<Path>)
    requires WorkTree(tracked + untracked) && Entry(d, tracked, untracked, ignores)
    requires forall u :: u in untracked ==> u in ignored
    ensures !Escapes(d) && Normal(d) != ""
    ensures exists i :: i in ignored && Normal(i) != "" && Matches(Normal(d), Normal(i))
  {
    var u :| u in untracked && !ignores(u) && Prints(d, u, tracked);
    NormalOfPlain(u);
    if d != u {
      var dir :| d == dir + "/" && Topmost(dir, u, tracked);
      NormalOfPlain(dir);
      DirectoryDoesNotEscape(dir);
    }
    assert Matches(Normal(d), Normal(u));
  }

  /** What an entry takes is untracked and goes by the rule. */
  lemma EntryTakes(d: Path, tracked: set<Path>, untracked: set<Path>, ignores: Path -> bool, f: Path)
    requires WorkTree(tracked + untracked) && tracked !! untracked && Entry(d, tracked, untracked, ignores)
    requires f in tracked + untracked && Taken(f, d)
    ensures f !in tracked && Doomed(f, tracked, untracked, ignores)
  {
    var u :| u in untracked && !ignores(u) && Prints(d, u, tracked);
    NormalOfPlain(u);
    if d != u {
      var dir :| d == dir + "/" && Topmost(dir, u, tracked);
      NormalOfPlain(dir);
    }
  }

  /** What goes by the rule is taken by an entry. */
  lemma DoomedIsTaken(dirty: seq<Path>, tracked: set<Path>, untracked: set<Path>, ignores: Path -> bool, f: Path)
    requires WorkTree(tracked + untracked) && Reports(dirty, tracked, untracked, ignores)
    requires f in untracked && Doomed(f, tracked, untracked, ignores)
    ensures TakenByAny(f, dirty)
  {
    if !ignores(f) {
      var d := PrintsOnce(f, tracked);
      if d != f {
        var dir :| d == dir + "/" && Topmost(dir, f, tracked);
        NormalOfPlain(dir);
      } else {
        NormalOfPlain(f);
      }
      assert d in dirty && Taken(f, d);
    } else {
      var dir, u :| Bare(dir, tracked) && Under(f, dir) && u in untracked && !ignores(u) && Under(u, dir);
      var top := TopmostAbove(u, dir, tracked);
      if top != dir {
        UnderTwice(f, dir, top);
      }
      NormalOfPlain(top);
      assert Prints(top + "/", u, tracked);
      assert top + "/" in dirty && Taken(f, top + "/");
    }
  }

  lemma TrackedStay(dirty: seq<Path>, tracked: set<Path>, untracked: set<Path>, ignores: Path -> bool)
    requires WorkTree(tracked + untracked) && tracked !! untracked && Reports(dirty, tracked, untracked, ignores)
    ensures Swept(tracked, dirty) == {}
  {
    forall f | f in tracked
      ensures !TakenByAny(f, dirty)
    {
      forall d | d in dirty
        ensures !Taken(f, d)
      {
        if Taken(f, d) {
          EntryTakes(d, tracked, untracked, ignores, f);
        }
      }
    }
  }

  /**
   From a clean start the sweep always goes ahead, takes no tracked file, and leaves only files
   the base branch ignores.
   */
  lemma SweepIsExplained(dirty: seq<Path>, tracked: set<Path>, untracked: set<Path>, ignores: Path -> bool, ignored: seq<Path>)
    requires WorkTree(tracked + untracked) && tracked !! untracked && Reports(dirty, tracked, untracked, ignores)
    requires dirty != [] && forall u :: u in untracked ==> u in ignored
    ensures Chosen(dirty, ignored)
    ensures Swept(tracked, dirty) == {}
    ensures forall f :: f in untracked - Swept(untracked, dirty) ==> ignores(f)
  {
    forall d | d in dirty
      ensures !Escapes(d) && Normal(d) != ""
      ensures exists i :: i in ignored && Normal(i) != "" && Matches(Normal(d), Normal(i))
    {
      EntryIsCovered(d, tracked, untracked, ignores, ignored);
    }
    TrackedStay(dirty, tracked, untracked, ignores);
    forall f | f in untracked - Swept(untracked, dirty)
      ensures ignores(f)
    {
      IgnoredOnBaseIsSweptExactly(dirty, tracked, untracked, ignores, f);
    }
    assert dirty[0] in dirty;
    EntryIsCovered(dirty[0], tracked, untracked, ignores, ignored);
  }

  /** Exactly the files that go by the rule are swept, and the rule is read off the tree before the sweep. */
  lemma IgnoredOnBaseIsSweptExactly(dirty: seq<Path>, tracked: set<Path>, untracked: set<Path>, ignores: Path -> bool, f: Path)
    requires WorkTree(tracked + untracked) && tracked !! untracked && Reports(dirty, tracked, untracked, ignores)
    requires f in untracked
    ensures f in Swept(untracked, dirty) <==> Doomed(f, tracked, untracked, ignores)
  {
    if f in Swept(untracked, dirty) {
      var d :| d in dirty && Taken(f, d);
      EntryTakes(d, tracked, untracked, ignores, f);
    }
    if Doomed(f, tracked, untracked, ignores) {
      DoomedIsTaken(dirty, tracked, untracked, ignores, f);
    }
  }

  lemma {:induction false} NoDots(path: Path)
    requires '.' !in path
    ensures forall s :: s in Segments(path) ==> '.' !in s
  {
    if path != "" {
      NoDots(path[1..]);
    }
  }

  lemma PlainName(path: Path)
    requires path != "" && !IsSpace(path[0]) && !IsSpace(path[|path| - 1]) && path[|path| - 1] != '/'
    requires path[0] != '/' && '.' !in path
    ensures PlainPath(path)
  {
    NoDots(path);
    assert ".."[0] == '.';
  }

  lemma UnderHasSlash(path: Path, dir: Path)
    requires Under(path, dir)
    ensures '/' in path
  {
    assert path[|dir|] == (dir + "/")[|dir|];
  }

  /** A file in a top directory of untracked files prints as that directory. */
  lemma TopDirectoryPrints(dir: Path, file: Path, d: Path)
    requires Under(file, dir) && '/' !in dir
    ensures Prints(d, file, {}) <==> d == dir + "/"
  {
    forall above
      ensures !Under(dir, above)
    {
      if Under(dir, above) {
        UnderHasSlash(dir, above);
      }
    }
    var printed := PrintsOnce(file, {});
    assert Topmost(dir, file, {}) && Prints(dir + "/", file, {});
  }

  /** Two untracked files share a top directory, and the base branch ignores only the second: both are swept. */
  lemma NeighbourIsSwept(dir: Path, a: Path, b: Path, ignores: Path -> bool)
    requires WorkTree({} + {a, b}) && Under(a, dir) && Under(b, dir) && '/' !in dir
    requires !ignores(a) && ignores(b)
    ensures Reports([dir + "/"], {}, {a, b}, ignores)
    ensures b in Swept({a, b}, [dir + "/"])
  {
    forall d
      ensures d in [dir + "/"] <==> Entry(d, {}, {a, b}, ignores)
    {
      TopDirectoryPrints(dir, a, d);
    }
    assert Bare(dir, {}) && Doomed(b, {}, {a, b}, ignores);
    IgnoredOnBaseIsSweptExactly([dir + "/"], {}, {a, b}, ignores, b);
  }

  lemma OnlyUnder(f: Path, name: char)
    requires |f| == 3 && f[0] == name && f[1] == '/' && f[2] != '/' && name != '/'
    ensures Under(f, [name]) && forall dir :: Under(f, dir) ==> dir == [name]
  {
    forall dir | Under(f, dir)
      ensures dir == [name]
    {
      assert f[|dir|] == (dir + "/")[|dir|];
      assert dir == f[..|dir|];
    }
    assert f[..2] == [name] + "/";
  }

  /** A file that the base branch ignores is lost with its directory: being ignored there does not keep it. */
  lemma IgnoredOnBaseCanBeSwept() returns (ignores: Path -> bool)
    ensures ignores("d/b") && "d/b" in Swept({"d/a", "d/b"}, ["d/"])
    ensures WorkTree({} + {"d/a", "d/b"}) && Reports(["d/"], {}, {"d/a", "d/b"}, ignores)
  {
    ignores := (p: Path) => p == "d/b";
    assert "d/a"[1] == '/' && "d/b"[1] == '/' && "d/a"[2] == 'a' && "d/b"[2] == 'b';
    PlainName("d/a");
    PlainName("d/b");
    PlainName("d");
    OnlyUnder("d/a", 'd');
    OnlyUnder("d/b", 'd');
    assert "d" + "/" == "d/" && ['d'] == "d";
    NeighbourIsSwept("d", "d/a", "d/b", ignores);
  }

  class Clone {
    var tracked: set<Path>
    var untracked: set<Path>

    /** How many removals failed. */
    ghost var errors: nat

    constructor (tracked: set<Path>, untracked: set<Path>)
      ensures this.tracked == tracked && this.untracked == untracked && errors == 0
    {
      this.tracked, this.untracked, errors := tracked, untracked, 0;
    }

    /** Removing one target may fail, and then perhaps took only a part. */
    method Remove(target: Path)
      modifies this
      ensures tracked <= old(tracked) && untracked <= old(untracked)
      ensures forall f :: f in old(tracked) && f !in tracked ==> Taken(f, target)
      ensures forall f :: f in old(untracked) && f !in untracked ==> Taken(f, target)
      ensures errors >= old(errors)
      ensures errors == old(errors) ==>
                (forall f :: f in tracked ==> !Taken(f, target)) && forall f :: f in untracked ==> !Taken(f, target)
    {
      var failed: bool := *;
      errors := errors + if failed then 1 else 0;
      if !failed {
        tracked := set f | f in tracked && !Taken(f, target);
        untracked := set f | f in untracked && !Taken(f, target);
      }
    }

    /** `dirty` is what the status read printed, None when it failed. */
    method RemoveBranchIgnoredLeftovers(ignored: seq<Path>, dirty: Option<seq<Path>>)
      modifies this
      ensures errors >= old(errors)
      ensures tracked <= old(tracked) && untracked <= old(untracked)
      ensures dirty.None? || !Chosen(dirty.value, ignored) ==> tracked == old(tracked) && untracked == old(untracked)
      ensures dirty.Some? && (exists d :: d in dirty.value && (ImpliesEscape(d) || !CoveredBySegments(d, ignored))) ==>
                tracked == old(tracked) && untracked == old(untracked)
      ensures dirty.Some? ==> old(tracked) - Swept(old(tracked), dirty.value) <= tracked
      ensures dirty.Some? ==> old(untracked) - Swept(old(untracked), dirty.value) <= untracked
      ensures dirty.Some? && Chosen(dirty.value, ignored) && errors == old(errors) ==>
                && tracked == old(tracked) - Swept(old(tracked), dirty.value)
                && untracked == old(untracked) - Swept(old(untracked), dirty.value)
    {
      if dirty.Some? {
        UnexplainedStays(dirty.value, ignored);
      }
      if ignored == [] || dirty.None? || dirty.value == [] || !CoveredByIgnored(dirty.value, ignored) {
        return;
      }
      var paths := dirty.value;
      for i := 0 to |paths|
        invariant forall j :: 0 <= j < i ==> !Escapes(paths[j])
      {
        if Escapes(paths[i]) {
          return;
        }
      }
      RemoveAll(paths);
    }

    /** Removes one target after the other. */
    method RemoveAll(paths: seq<Path>)
      modifies this
      ensures errors >= old(errors) && tracked <= old(tracked) && untracked <= old(untracked)
      ensures old(tracked) - Swept(old(tracked), paths) <= tracked && old(untracked) - Swept(old(untracked), paths) <= untracked
      ensures errors == old(errors) ==>
                && tracked == old(tracked) - Swept(old(tracked), paths)
                && untracked == old(untracked) - Swept(old(untracked), paths)
    {
      for i := 0 to |paths|
        invariant tracked <= old(tracked) && untracked <= old(untracked) && errors >= old(errors)
        invariant forall f :: f in old(tracked) && f !in tracked ==> TakenByAny(f, paths)
        invariant forall f :: f in old(untracked) && f !in untracked ==> TakenByAny(f, paths)
        invariant errors == old(errors) ==> forall f, j :: f in tracked && 0 <= j < i ==> !Taken(f, paths[j])
        invariant errors == old(errors) ==> forall f, j :: f in untracked && 0 <= j < i ==> !Taken(f, paths[j])
      {
        assert paths[i] in paths;
        Remove(paths[i]);
      }
    }

    /**
     Cleanup after its `rebase --abort`: `first` and `second` are what the status reads before and
     after the checkout printed, None when they failed; `snapshot` lists the ignored files, none when
     that failed; `base` is what the base branch tracks, None when the checkout failed.
     */
    method Cleanup(first: Option<seq<Path>>, snapshot: seq<Path>, base: Option<set<Path>>, second: Option<seq<Path>>,
                   ghost attemptIgnores: Path -> bool, ghost baseIgnores: Path -> bool)
      returns (refused: bool)
      modifies this
      ensures refused <==> first != Some([])
      ensures refused ==> tracked == old(tracked) && untracked == old(untracked)
      ensures !refused && Truthful(old(tracked), old(untracked), [], snapshot, base, second, attemptIgnores, baseIgnores) ==>
                && tracked == Checked(old(tracked), base)
                && (forall f :: f in old(untracked) - untracked ==> f in tracked || (f in snapshot && attemptIgnores(f)))
                && (base.None? ==> untracked == old(untracked))
                && (snapshot == [] || second.None? ==> untracked == Left(old(untracked), base))
                && (snapshot != [] && second.Some? && errors == old(errors) ==>
                      forall f :: f in Left(old(untracked), base) ==>
                        (f in untracked <==> !Doomed(f, tracked, Left(old(untracked), base), Rules(base, attemptIgnores, baseIgnores))))
    {
      if first != Some([]) {
        return true;
      }
      refused := false;
      if base.Some? {
        tracked, untracked := base.value, untracked - base.value;
      }
      RemoveBranchIgnoredLeftovers(snapshot, second);
      if second.Some? && Truthful(old(tracked), old(untracked), [], snapshot, base, second, attemptIgnores, baseIgnores) {
        CleanupIsExplained(old(tracked), old(untracked), snapshot, base, second.value, attemptIgnores, baseIgnores);
      }
    }
  }

  function Checked(tracked: set<Path>, base: Option<set<Path>>): set<Path> {
    if base.Some? then base.value else tracked
  }

  function Left(untracked: set<Path>, base: Option<set<Path>>): set<Path> {
    if base.Some? then untracked - base.value else untracked
  }

  function Rules(base: Option<set<Path>>, attemptIgnores: Path -> bool, baseIgnores: Path -> bool): Path -> bool {
    if base.Some? then baseIgnores else attemptIgnores
  }

  /**
   The environment: the status reads show what git prints under the branch then checked out, and the
   snapshot lists the ignored files or failed. The checkout overwrites ignored files the base tracks
   and creates no untracked file.
   */
  ghost predicate Truthful(tracked: set<Path>, untracked: set<Path>, first: seq<Path>, snapshot: seq<Path>,
                           base: Option<set<Path>>, second: Option<seq<Path>>,
                           attemptIgnores: Path -> bool, baseIgnores: Path -> bool)
  {
    && Shows(first, tracked, untracked, attemptIgnores)
    && (snapshot == [] || forall u :: u in snapshot <==> u in untracked && attemptIgnores(u))
    && WorkTree(Checked(tracked, base) + Left(untracked, base)) && Checked(tracked, base) !! Left(untracked, base)
    && (second.Some? ==>
          Reports(second.value, Checked(tracked, base), Left(untracked, base), Rules(base, attemptIgnores, baseIgnores)))
  }

  /** A status read without entries: every untracked file is ignored. */
  lemma CleanMeansIgnored(tracked: set<Path>, untracked: set<Path>, ignores: Path -> bool)
    requires Shows([], tracked, untracked, ignores)
    ensures forall u :: u in untracked ==> ignores(u)
  {
    forall u | u in untracked
      ensures ignores(u)
    {
      var d := PrintsOnce(u, tracked);
      assert !ignores(u) ==> Entry(d, tracked, untracked, ignores);
    }
  }

  lemma CleanupIsExplained(tracked: set<Path>, untracked: set<Path>, snapshot: seq<Path>, base: Option<set<Path>>,
                           dirty: seq<Path>, attemptIgnores: Path -> bool, baseIgnores: Path -> bool)
    requires Truthful(tracked, untracked, [], snapshot, base, Some(dirty), attemptIgnores, baseIgnores)
    ensures forall u :: u in untracked ==> attemptIgnores(u)
    ensures snapshot != [] && dirty != [] ==> Chosen(dirty, snapshot)
    ensures Swept(Checked(tracked, base), dirty) == {} && (base.None? ==> dirty == [])
    ensures forall f :: f in Left(untracked, base) ==>
              (f in Swept(Left(untracked, base), dirty) <==>
               Doomed(f, Checked(tracked, base), Left(untracked, base), Rules(base, attemptIgnores, baseIgnores)))
  {
    var was, left, ignores := Checked(tracked, base), Left(untracked, base), Rules(base, attemptIgnores, baseIgnores);
    CleanMeansIgnored(tracked, untracked, attemptIgnores);
    forall f | f in left
      ensures f in Swept(left, dirty) <==> Doomed(f, was, left, ignores)
    {
      IgnoredOnBaseIsSweptExactly(dirty, was, left, ignores, f);
    }
    TrackedStay(dirty, was, left, ignores);
    if dirty != [] {
      assert dirty[0] in dirty;
      if snapshot != [] {
        SweepIsExplained(dirty, was, left, ignores, snapshot);
      }
    }
  }
}
