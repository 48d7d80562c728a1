/**
 The hidden versioned marker of the shared handoff comment: printing it into a comment
 body, parsing it back, and exactly which records survive the round trip.
 */
module HandoffMarker {
  import opened Prelude
  import opened Text

  datatype Record = Record(
    version: int,
    repository: string,
    issue: int,
    attempt: string,
    source: string,
    count: int,
    branch: string,
    branchSha: string,
    noteSha: string)

  const VERSION := 1
  const PREFIX := "<!-- handoff-record:"
  const TERMINATOR := "-->"
  const SOURCES: set<string> := {"human", "automatic", "conflict"}

  predicate IsToken(s: string) {
    NonBlank(s) && NoSpace(s)
  }

  /** What the printer, the parser and the stores check of a record. */
  predicate Valid(r: Record) {
    && r.version == VERSION && NonBlank(r.repository) && r.issue > 0
    && IsToken(r.attempt) && IsToken(r.branch) && IsToken(r.branchSha) && IsToken(r.noteSha)
    && r.source in SOURCES && r.count >= 0
  }

  // ---- Printing ---------------------------------------------------------------------

  function Tokens(r: Record): seq<string>
    requires Valid(r)
  {
    [ "v" + "=" + ToDecimal(r.version),
      "repo" + "=" + r.repository,
      "issue" + "=" + ToDecimal(r.issue),
      "attempt" + "=" + r.attempt,
      "source" + "=" + r.source,
      "count" + "=" + ToDecimal(r.count),
      "branch" + "=" + r.branch,
      "branch_sha" + "=" + r.branchSha,
      "note_sha" + "=" + r.noteSha ]
  }

  function Marker(r: Record): string
    requires Valid(r)
  {
    PREFIX + Spaced(Tokens(r)) + " " + TERMINATOR
  }

  const TITLE := "## Handoff note\n\n"
  const SENTENCE := "The current Handoff note for this issue"
  const PRESERVED := " is preserved on `"

  /** The visible text up to the first branch name. */
  function Opening(): string {
    TITLE + SENTENCE + PRESERVED
  }

  /** From the first branch name to the repository inside the link. */
  function Naming(r: Record): string
    requires Valid(r)
  {
    ": [`.agent/handoff/" + ToDecimal(r.issue) + ".md`](https://github.com/"
  }

  function Closing(r: Record): string
    requires Valid(r)
  {
    ".agent/handoff/" + ToDecimal(r.issue) + ".md).\n\n"
  }

  function VisibleText(r: Record): string
    requires Valid(r)
  {
    Opening() + (r.branch + "`") + Naming(r) + (r.repository + "/") + "blob/" + (r.branch + "/") + Closing(r)
  }

  /** The whole comment body; an invalid record is refused. */
  function Build(r: Record): Option<string> {
    if Valid(r) then Some(VisibleText(r) + Marker(r)) else None
  }

  // ---- Parsing ----------------------------------------------------------------------

  /** The position of the first '=', or the length when there is none. */
  function Equals(token: string): (n: nat)
    ensures n <= |token| && (n < |token| ==> token[n] == '=') && forall i :: 0 <= i < n ==> token[i] != '='
  {
    if token == "" || token[0] == '=' then 0 else 1 + Equals(token[1..])
  }

  type Fields = map<string, string>

  /** A token adds a field when it has a non-empty key and a non-empty value. */
  function AddField(fields: Fields, token: string): Fields {
    var n := Equals(token);
    if 0 < n < |token| - 1 then fields[token[..n] := token[n + 1..]] else fields
  }

  function Collect(tokens: seq<string>): Fields {
    if tokens == [] then map[] else AddField(Collect(tokens[..|tokens| - 1]), tokens[|tokens| - 1])
  }

  const KEYS := ["v", "repo", "issue", "attempt", "source", "count", "branch", "branch_sha", "note_sha"]

  /** The record the fields spell, if all are present, the numbers parse and the whole is valid. */
  function Decode(f: Fields): Option<Record> {
    if exists i :: 0 <= i < |KEYS| && KEYS[i] !in f then None
    else
      assert KEYS[0] in f && KEYS[1] in f && KEYS[2] in f && KEYS[3] in f && KEYS[4] in f;
      assert KEYS[5] in f && KEYS[6] in f && KEYS[7] in f && KEYS[8] in f;
      var version, issue, count := ParseInt(f["v"]), ParseInt(f["issue"]), ParseInt(f["count"]);
      if version.None? || issue.None? || count.None? then None
      else
        var r := Record(version.value, f["repo"], issue.value, f["attempt"], f["source"], count.value,
                        f["branch"], f["branch_sha"], f["note_sha"]);
        if Valid(r) then Some(r) else None
  }

  /** The text between the first prefix and the first terminator after it. */
  function Payload(body: string): Option<string> {
    var start := Find(body, PREFIX, 0);
    if start.None? then None
    else
      var end := Find(body, TERMINATOR, start.value);
      if end.None? then None
      else if end.value < start.value + |PREFIX| then Some("")
      else Some(body[start.value + |PREFIX|..end.value])
  }

  function Parse(body: string): Option<Record> {
    var payload := Payload(body);
    if payload.None? then None else Decode(Collect(Split(payload.value)))
  }

  /** Parsing as the source does it, filling the fields token by token. */
  method ParseHandoffRecord(body: string) returns (record: Option<Record>)
    ensures record == Parse(body)
  {
    var start := Find(body, PREFIX, 0);
    if start.None? {
      return None;
    }
    var end := Find(body, TERMINATOR, start.value);
    if end.None? {
      return None;
    }
    var payload := "";
    if end.value >= start.value + |PREFIX| {
      payload := body[start.value + |PREFIX|..end.value];
    }
    var tokens := Split(payload);
    var fields: Fields := map[];
    for i := 0 to |tokens|
      invariant fields == Collect(tokens[..i])
    {
      var n := Equals(tokens[i]);
      if 0 < n && n < |tokens[i]| - 1 {
        fields := fields[tokens[i][..n] := tokens[i][n + 1..]];
      }
      assert tokens[..i + 1][..i] == tokens[..i];
    }
    assert tokens[..|tokens|] == tokens;
    record := Decode(fields);
  }

  // ---- Which records survive --------------------------------------------------------

  /** Nothing in the text ends the marker or splits its fields. */
  ghost predicate Plain(s: string) {
    NoSpace(s) && Absent(s, TERMINATOR)
  }

  ghost predicate Clean(r: Record) {
    Plain(r.repository) && Plain(r.attempt) && Plain(r.branch) && Plain(r.branchSha) && Plain(r.noteSha)
  }

  lemma {:induction false} CollectedArePlain(payload: string, tokens: seq<string>, key: string)
    requires Absent(payload, TERMINATOR)
    requires forall t :: t in tokens ==> t in Split(payload)
    requires key in Collect(tokens)
    ensures Plain(Collect(tokens)[key])
    decreases |tokens|
  {
    var token := tokens[|tokens| - 1];
    var n := Equals(token);
    if 0 < n < |token| - 1 && token[..n] == key {
      assert token in tokens;
      SplitParts(payload, token);
      PartIsAbsent(token, payload, TERMINATOR);
      assert token[n + 1..] == token[n + 1..|token|];
      PartIsAbsent(token[n + 1..], token, TERMINATOR);
    } else {
      CollectedArePlain(payload, tokens[..|tokens| - 1], key);
    }
  }

  lemma PayloadHasNoTerminator(body: string)
    requires Payload(body).Some?
    ensures Absent(Payload(body).value, TERMINATOR)
  {
    var start := Find(body, PREFIX, 0).value;
    var end := Find(body, TERMINATOR, start).value;
    if end >= start + |PREFIX| {
      var from := start + |PREFIX|;
      var payload := body[from..end];
      forall i: nat
        ensures !OccursAt(payload, TERMINATOR, i)
      {
        if OccursAt(payload, TERMINATOR, i) {
          OccursInPart(body, from, end, TERMINATOR, i);
        }
      }
    }
  }

  /** Whatever a body parses to is valid, and none of its texts splits or ends a marker. */
  lemma ParsedIsValidAndClean(body: string)
    requires Parse(body).Some?
    ensures Valid(Parse(body).value) && Clean(Parse(body).value)
    ensures var r := Parse(body).value;
      r.version == 1 && r.issue > 0 && r.count >= 0 && r.source in {"human", "automatic", "conflict"}
  {
    PayloadHasNoTerminator(body);
    var payload := Payload(body).value;
    var tokens := Split(payload);
    var fields := Collect(tokens);
    assert forall i :: 0 <= i < |KEYS| ==> KEYS[i] in fields;
    assert KEYS[1] in fields && KEYS[3] in fields && KEYS[6] in fields && KEYS[7] in fields && KEYS[8] in fields;
    CollectedArePlain(payload, tokens, "repo");
    CollectedArePlain(payload, tokens, "attempt");
    CollectedArePlain(payload, tokens, "branch");
    CollectedArePlain(payload, tokens, "branch_sha");
    CollectedArePlain(payload, tokens, "note_sha");
  }

  /** The printer refuses a record for each of these reasons and no other. */
  lemma RefusedExactly(r: Record)
    ensures Build(r).None?
       <==> || r.version != 1 || r.issue < 1 || r.count < 0 || r.source !in {"human", "automatic", "conflict"}
            || IsBlank(r.repository)
            || exists s :: s in [r.attempt, r.branch, r.branchSha, r.noteSha] && (s == "" || exists c :: c in s && IsSpace(c))
  {
    var texts := [r.attempt, r.branch, r.branchSha, r.noteSha];
    forall s | s in texts
      ensures IsToken(s) <==> !(s == "" || exists c :: c in s && IsSpace(c))
    {
      TokenExactly(s);
    }
    assert texts[0] in texts && texts[1] in texts && texts[2] in texts && texts[3] in texts;
  }

  predicate IsBlank(s: string) {
    forall i :: 0 <= i < |s| ==> IsSpace(s[i])
  }

  lemma TokenExactly(s: string)
    ensures IsToken(s) <==> s != "" && !exists c :: c in s && IsSpace(c)
  {
    assert NoSpace(s) <==> !exists c :: c in s && IsSpace(c);
    assert s != "" && NoSpace(s) ==> !IsSpace(s[0]);
  }

  // ---- Nothing before the marker looks like one --------------------------------------

  predicate Stops(c: char) {
    c == '`' || c == '/'
  }

  /** Every '<' runs into a back quote or a slash before any white space. */
  ghost predicate Shielded(s: string) {
    forall i :: 0 <= i < |s| && s[i] == '<' ==> exists j :: Shields(s, i, j)
  }

  ghost predicate Shields(s: string, i: int, j: int) {
    0 <= i < j < |s| && Stops(s[j]) && forall k :: i <= k < j ==> !IsSpace(s[k])
  }

  lemma ShieldedTogether(a: string, b: string)
    requires Shielded(a) && Shielded(b)
    ensures Shielded(a + b)
  {
    var s := a + b;
    forall i | 0 <= i < |s| && s[i] == '<'
      ensures exists j :: Shields(s, i, j)
    {
      if i < |a| {
        var j :| Shields(a, i, j);
        assert Shields(s, i, j);
      } else {
        var j :| Shields(b, i - |a|, j);
        assert forall k :: i <= k < |a| + j ==> s[k] == b[k - |a|];
        assert Shields(s, i, |a| + j);
      }
    }
  }

  lemma FieldIsShielded(field: string, stop: char)
    requires NoSpace(field) && Stops(stop)
    ensures Shielded(field + [stop])
  {
    var s := field + [stop];
    forall i | 0 <= i < |s| && s[i] == '<'
      ensures exists j :: Shields(s, i, j)
    {
      assert Shields(s, i, |field|);
    }
  }

  lemma ShieldedHidesPrefix(s: string, rest: string, i: nat)
    requires Shielded(s) && i < |s|
    ensures !OccursAt(s + rest, PREFIX, i)
  {
    var whole := s + rest;
    if OccursAt(whole, PREFIX, i) {
      OccursChar(whole, PREFIX, i, 0);
      OccursChar(whole, PREFIX, i, 1);
      OccursChar(whole, PREFIX, i, 2);
      OccursChar(whole, PREFIX, i, 3);
      OccursChar(whole, PREFIX, i, 4);
    }
  }

  lemma DecimalIsPlain(n: nat)
    ensures Plain(ToDecimal(n)) && '<' !in ToDecimal(n)
  {
    DecimalDigits(n);
    AbsentWithoutChar(ToDecimal(n), TERMINATOR, '>');
  }

  lemma NothingToShield(s: string)
    requires '<' !in s
    ensures Shielded(s)
  {
  }

  lemma OpeningIsShielded()
    ensures Shielded(Opening())
  {
    NothingToShield(TITLE);
    NothingToShield(SENTENCE);
    NothingToShield(PRESERVED);
    ShieldedTogether(TITLE, SENTENCE);
    ShieldedTogether(TITLE + SENTENCE, PRESERVED);
  }

  lemma NamingIsShielded(r: Record)
    requires Valid(r)
    ensures Shielded(Naming(r))
  {
    DecimalIsPlain(r.issue);
    NothingToShield(Naming(r));
  }

  lemma ClosingIsShielded(r: Record)
    requires Valid(r)
    ensures Shielded(Closing(r))
  {
    DecimalIsPlain(r.issue);
    NothingToShield(Closing(r));
  }

  lemma VisibleIsShielded(r: Record)
    requires Valid(r) && NoSpace(r.repository)
    ensures Shielded(VisibleText(r))
  {
    OpeningIsShielded();
    NamingIsShielded(r);
    NothingToShield("blob/");
    ClosingIsShielded(r);
    FieldIsShielded(r.branch, '`');
    FieldIsShielded(r.repository, '/');
    FieldIsShielded(r.branch, '/');
    var s1 := Opening() + (r.branch + "`");
    var s2 := s1 + Naming(r);
    var s3 := s2 + (r.repository + "/");
    var s4 := s3 + "blob/";
    var s5 := s4 + (r.branch + "/");
    ShieldedTogether(Opening(), r.branch + "`");
    ShieldedTogether(s1, Naming(r));
    ShieldedTogether(s2, r.repository + "/");
    ShieldedTogether(s3, "blob/");
    ShieldedTogether(s4, r.branch + "/");
    ShieldedTogether(s5, Closing(r));
  }

  // ---- Where a terminator cuts the marker ----------------------------------------------

  /** The text up to its first terminator. */
  function Cut(s: string): string {
    Until(s, TERMINATOR)
  }

  lemma CutIsStart(s: string)
    ensures Cut(s) <= s && (Cut(s) == s <==> |Cut(s)| == |s|)
  {
    UntilIsStart(s, TERMINATOR);
  }

  lemma CutIsWhole(s: string)
    ensures Cut(s) == s <==> Absent(s, TERMINATOR)
  {
    UntilIsWhole(s, TERMINATOR);
  }

  /** Behind a text, a continuation that no terminator can run into. */
  lemma CutAcross(a: string, b: string)
    requires b != "" && b[0] in {' ', '='}
    ensures Cut(a + b) == if Cut(a) == a then a + Cut(b) else Cut(a)
  {
    UntilAcross(a, b, TERMINATOR);
  }

  lemma CutCons(c: char, s: string)
    requires c in {' ', '='}
    ensures Cut([c] + s) == [c] + Cut(s)
  {
    UntilOfCons(c, s, TERMINATOR);
    assert TERMINATOR[0] == '-';
  }

  /** The payload of the first marker is its text up to the first terminator, whatever follows. */
  lemma PayloadIsCut(front: string, text: string, rest: string)
    requires Shielded(front) && text != "" && text[0] == ' '
    ensures Payload(front + (PREFIX + (text + (" " + TERMINATOR + rest)))) == Some(Cut(text + " "))
  {
    assert " " + TERMINATOR + rest == " " + (TERMINATOR + rest);
    CutAtClosing(text, TERMINATOR + rest);
    PayloadOf(front, text + (" " + (TERMINATOR + rest)));
  }

  lemma PayloadOf(front: string, inner: string)
    requires Shielded(front) && inner != "" && inner[0] == ' ' && Cut(inner) != inner
    ensures Payload(front + (PREFIX + inner)) == Some(Cut(inner))
  {
    PrefixThere(front, inner);
    PrefixIsWhole();
    var body, end := CutBetween(front, PREFIX, inner);
    PayloadAt(body, |front|, end);
  }

  lemma CutBetween(front: string, prefix: string, inner: string) returns (body: string, end: nat)
    requires Cut(prefix) == prefix && inner != "" && inner[0] == ' ' && Cut(inner) != inner
    ensures body == front + (prefix + inner) && Find(body, TERMINATOR, |front|) == Some(end)
    ensures |front| + |prefix| <= end <= |body| && body[|front| + |prefix|..end] == Cut(inner)
  {
    body, end := front + (prefix + inner), |front| + (|prefix| + |Cut(inner)|);
    CutLength(prefix, inner);
    FindInRest(body, |front|, prefix + inner);
    SliceBehind(front, prefix, inner, |Cut(inner)|);
    CutIsStart(inner);
  }

  lemma CutLength(prefix: string, inner: string)
    requires Cut(prefix) == prefix && inner != "" && inner[0] == ' ' && Cut(inner) != inner
    ensures |Cut(prefix + inner)| == |prefix| + |Cut(inner)| < |prefix + inner|
  {
    CutAcross(prefix, inner);
    CutIsStart(inner);
  }

  lemma FindInRest(s: string, start: nat, rest: string)
    requires start <= |s| && s[start..] == rest && |Cut(rest)| < |rest|
    ensures Find(s, TERMINATOR, start) == Some(start + |Cut(rest)|)
  {
    UntilIsStart(rest, TERMINATOR);
    FindIsUntil(s, TERMINATOR, start);
  }

  lemma PayloadAt(body: string, start: nat, end: nat)
    requires Find(body, PREFIX, 0) == Some(start) && Find(body, TERMINATOR, start) == Some(end) && start + |PREFIX| <= end
    ensures end <= |body| && Payload(body) == Some(body[start + |PREFIX|..end])
  {
  }

  lemma PrefixThere(front: string, inner: string)
    requires Shielded(front)
    ensures Find(front + (PREFIX + inner), PREFIX, 0) == Some(|front|)
  {
    OpensWith(PREFIX, inner);
    PrefixBehind(front, PREFIX + inner);
  }

  lemma PrefixIsWhole()
    ensures Cut(PREFIX) == PREFIX
  {
    AbsentWithoutChar(PREFIX, TERMINATOR, '>');
    CutIsWhole(PREFIX);
  }

  lemma CutAtClosing(text: string, closing: string)
    requires text != "" && TERMINATOR <= closing
    ensures var inner := text + (" " + closing); Cut(inner) == Cut(text + " ") && Cut(inner) != inner
  {
    CutAcross(text, " " + closing);
    CutAcross(text, " ");
    CutCons(' ', closing);
    CutCons(' ', "");
    CutIsStart(text);
  }

  lemma SliceBehind(front: string, prefix: string, inner: string, n: nat)
    requires n <= |inner|
    ensures (front + (prefix + inner))[|front| + |prefix|..|front| + (|prefix| + n)] == inner[..n]
  {
  }

  /** Behind text in which nothing looks like a marker, the first prefix is the one that follows. */
  lemma PrefixBehind(front: string, tail: string)
    requires Shielded(front) && OccursAt(tail, PREFIX, 0)
    ensures Find(front + tail, PREFIX, 0) == Some(|front|)
  {
    var body := front + tail;
    forall i: nat | i < |front|
      ensures !OccursAt(body, PREFIX, i)
    {
      ShieldedHidesPrefix(front, tail, i);
    }
    OccursBehind(front, tail, PREFIX, 0);
    FindFirst(body, PREFIX, 0, |front|);
  }

  lemma OccursBehind(front: string, tail: string, needle: string, i: nat)
    requires OccursAt(tail, needle, i)
    ensures OccursAt(front + tail, needle, |front| + i)
  {
    assert (front + tail)[|front| + i..|front| + i + |needle|] == tail[i..i + |needle|];
  }

  lemma OpensWith(a: string, b: string)
    ensures OccursAt(a + b, a, 0)
  {
    assert (a + b)[..|a|] == a;
  }

  // ---- Which tokens are left -------------------------------------------------------------

  predicate Whole(tokens: seq<string>) {
    forall t :: t in tokens ==> Cut(t) == t
  }

  /** The tokens before the first that is cut, and what is left of that one. */
  function Kept(tokens: seq<string>): seq<string> {
    if tokens == [] then []
    else if Cut(tokens[0]) == tokens[0] then [tokens[0]] + Kept(tokens[1..])
    else if Cut(tokens[0]) == "" then []
    else [Cut(tokens[0])]
  }

  lemma CutSpaced(t: string, rest: string)
    requires rest != "" && rest[0] == ' '
    ensures Cut(" " + (t + rest)) == " " + if Cut(t) == t then t + Cut(rest) else Cut(t)
  {
    CutCons(' ', t + rest);
    CutAcross(t, rest);
  }

  lemma CutOfSpace(s: string)
    requires s != "" && s[0] == ' '
    ensures Cut(s) != "" && Cut(s)[0] == ' '
  {
  }

  lemma SplitSpace(t: string)
    ensures Split(" " + t) == Split(t)
  {
    assert (" " + t)[1..] == t;
  }

  lemma SplitFirst(t: string, rest: string)
    requires t != "" && NoSpace(t) && rest != "" && rest[0] == ' '
    ensures Split(t + rest) == [t] + Split(rest)
  {
    TokenThenSpace(t, rest);
    assert (t + rest)[..|t|] == t && (t + rest)[|t|..] == rest;
  }

  lemma SplitToken(t: string)
    requires NoSpace(t)
    ensures Split(t) == if t == "" then [] else [t]
  {
    if t != "" {
      var n := TokenLength(t);
      assert n == |t|;
      assert t[..n] == t && t[n..] == "";
    }
  }

  lemma {:induction false} KeptSplit(tokens: seq<string>)
    requires forall t :: t in tokens ==> t != "" && NoSpace(t)
    ensures Split(Cut(Spaced(tokens) + " ")) == Kept(tokens)
  {
    if tokens == [] {
      assert Spaced(tokens) + " " == " " + "";
      assert Cut(" ") == " " + Cut(" "[1..]);
      SplitSpace("");
    } else {
      var t, rest := tokens[0], Spaced(tokens[1..]) + " ";
      assert Spaced(tokens) + " " == " " + (t + rest);
      CutSpaced(t, rest);
      if Cut(t) == t {
        assert forall x :: x in tokens[1..] ==> x in tokens;
        KeptSplit(tokens[1..]);
        CutOfSpace(rest);
        SplitSpace(t + Cut(rest));
        assert t in tokens;
        SplitFirst(t, Cut(rest));
      } else {
        SplitSpace(Cut(t));
        CutIsStart(t);
        SplitToken(Cut(t));
      }
    }
  }

  lemma {:induction false} KeptOneMore(init: seq<string>, last: string)
    ensures Kept(init + [last])
         == if !Whole(init) then Kept(init) else if Cut(last) == "" != last then init else init + [Cut(last)]
  {
    if init == [] {
      assert init + [last] == [last];
      assert [last][1..] == [];
    } else {
      assert (init + [last])[1..] == init[1..] + [last];
      assert Whole(init) <==> Cut(init[0]) == init[0] && Whole(init[1..]) by {
        assert init == [init[0]] + init[1..];
      }
      KeptOneMore(init[1..], last);
      assert init == [init[0]] + init[1..];
    }
  }

  lemma {:induction false} WholeIsKept(tokens: seq<string>)
    requires Whole(tokens)
    ensures Kept(tokens) == tokens
  {
    if tokens != [] {
      assert tokens[0] in tokens && forall t :: t in tokens[1..] ==> t in tokens;
      WholeIsKept(tokens[1..]);
    }
  }

  // ---- Which fields are left -------------------------------------------------------------

  /** The keys and values of the printed tokens, in order. */
  function Values(r: Record): seq<string>
    requires Valid(r)
  {
    [ToDecimal(r.version), r.repository, ToDecimal(r.issue), r.attempt, r.source, ToDecimal(r.count),
     r.branch, r.branchSha, r.noteSha]
  }

  predicate IsKey(key: string) {
    key != "" && NoSpace(key) && '=' !in key && '>' !in key
  }

  /** A token is cut inside its value. */
  lemma CutField(key: string, value: string)
    requires IsKey(key)
    ensures var token := key + "=" + value; Cut(token) == key + "=" + Cut(value) && (Cut(token) == token <==> Cut(value) == value)
  {
    AbsentWithoutChar(key, TERMINATOR, '>');
    CutIsWhole(key);
    var tail := "=" + value;
    assert key + "=" + value == key + tail && tail[1..] == value;
    CutAcross(key, tail);
    assert !(TERMINATOR <= tail);
    assert Cut(tail) == "=" + Cut(value);
    assert (key + "=" + Cut(value))[|key| + 1..] == Cut(value) && (key + "=" + value)[|key| + 1..] == value;
  }

  lemma FieldToken(key: string, value: string)
    requires IsKey(key)
    ensures var token := key + "=" + value;
      Equals(token) == |key| && token[..|key|] == key && token[|key| + 1..] == value
  {
    var token := key + "=" + value;
    assert token == key + ['='] + value;
    assert forall i :: 0 <= i < |token| ==>
        token[i] == if i < |key| then key[i] else if i == |key| then '=' else value[i - |key| - 1];
    assert forall i :: 0 <= i < |key| ==> token[i] != '=';
    assert token[|key|] == '=';
  }

  lemma FieldAdds(fields: Fields, key: string, value: string)
    requires IsKey(key)
    ensures AddField(fields, key + "=" + value) == if value == "" then fields else fields[key := value]
  {
    FieldToken(key, value);
  }

  /** The tokens are fields of different keys, with values. */
  ghost predicate Fielded(tokens: seq<string>, keys: seq<string>, values: seq<string>) {
    && |tokens| == |keys| == |values|
    && (forall i :: 0 <= i < |keys| ==> IsKey(keys[i]) && values[i] != "" && tokens[i] == keys[i] + "=" + values[i])
    && (forall i, j :: 0 <= i < j < |keys| ==> keys[i] != keys[j])
  }

  lemma FieldOneMore(init: seq<string>, key: string, value: string)
    requires IsKey(key) && value != ""
    ensures var before := Collect(Kept(init));
      Collect(Kept(init + [key + "=" + value])) == if Whole(init) && Cut(value) != "" then before[key := Cut(value)] else before
  {
    KeptOneMore(init, key + "=" + value);
    CutField(key, value);
    if Whole(init) {
      WholeIsKept(init);
      FieldAdds(Collect(init), key, Cut(value));
      var cut := Cut(key + "=" + value);
      assert (init + [cut])[..|init|] == init && (init + [cut])[|init|] == cut;
    }
  }

  lemma {:induction false} OnlyKeys(tokens: seq<string>, keys: seq<string>, values: seq<string>)
    requires Fielded(tokens, keys, values)
    ensures forall k :: k in Collect(Kept(tokens)) ==> k in keys
  {
    if tokens != [] {
      var n := |tokens| - 1;
      assert tokens == tokens[..n] + [keys[n] + "=" + values[n]];
      OnlyKeys(tokens[..n], keys[..n], values[..n]);
      FieldOneMore(tokens[..n], keys[n], values[n]);
    }
  }

  /** A field is left exactly when nothing before it is cut and something of its value remains. */
  lemma {:induction false} FieldLeft(tokens: seq<string>, keys: seq<string>, values: seq<string>, i: nat)
    requires Fielded(tokens, keys, values) && i < |keys|
    ensures var fields := Collect(Kept(tokens));
      && (keys[i] in fields <==> Whole(tokens[..i]) && Cut(values[i]) != "")
      && (keys[i] in fields ==> fields[keys[i]] == Cut(values[i]))
    decreases |tokens|
  {
    var n := |tokens| - 1;
    assert tokens == tokens[..n] + [keys[n] + "=" + values[n]];
    FieldOneMore(tokens[..n], keys[n], values[n]);
    if i < n {
      FieldLeft(tokens[..n], keys[..n], values[..n], i);
      assert tokens[..n][..i] == tokens[..i];
    } else {
      OnlyKeys(tokens[..n], keys[..n], values[..n]);
    }
  }

  lemma KeysAreKeys(i: nat)
    requires i < |KEYS|
    ensures IsKey(KEYS[i])
  {
  }

  lemma KeysDiffer(i: nat, j: nat)
    requires i < |KEYS| && j < |KEYS| && i != j
    ensures KEYS[i] != KEYS[j]
  {
    assert |KEYS[0]| == 1 && |KEYS[1]| == 4 && |KEYS[7]| == 10 && |KEYS[8]| == 8;
    assert KEYS[2][0] == 'i' && KEYS[3][0] == 'a' && KEYS[4][0] == 's' && KEYS[5][0] == 'c' && KEYS[6][0] == 'b';
  }

  lemma TokensAreFields(r: Record)
    requires Valid(r)
    ensures Fielded(Tokens(r), KEYS, Values(r))
  {
    DecimalDigits(r.version);
    DecimalDigits(r.issue);
    DecimalDigits(r.count);
    forall i: nat | i < |KEYS|
      ensures IsKey(KEYS[i])
    {
      KeysAreKeys(i);
    }
    forall i: nat, j: nat | i < j < |KEYS|
      ensures KEYS[i] != KEYS[j]
    {
      KeysDiffer(i, j);
    }
  }

  // ---- What a printed record reads as ----------------------------------------------------

  /** A terminator stands in no text but perhaps the last, and not at its very start. */
  ghost predicate Readable(r: Record) {
    && Absent(r.repository, TERMINATOR) && Absent(r.attempt, TERMINATOR) && Absent(r.branch, TERMINATOR)
    && Absent(r.branchSha, TERMINATOR) && !(TERMINATOR <= r.noteSha)
  }

  /** What the body of a record reads as: the record with its last text cut, or nothing. */
  ghost function ReadBack(r: Record): (read: Option<Record>)
    ensures read.Some? ==> read.value.attempt == r.attempt
  {
    if Readable(r) then Some(r.(noteSha := Cut(r.noteSha))) else None
  }

  lemma SourceIsPlain(source: string)
    requires source in SOURCES
    ensures source != "" && Plain(source)
  {
    AbsentWithoutChar(source, TERMINATOR, '>');
  }

  lemma ValuesAreWhole(r: Record)
    requires Valid(r)
    ensures (forall i :: 0 <= i < 8 ==> Absent(Values(r)[i], TERMINATOR))
       <==> Absent(r.repository, TERMINATOR) && Absent(r.attempt, TERMINATOR) && Absent(r.branch, TERMINATOR)
            && Absent(r.branchSha, TERMINATOR)
  {
    DecimalIsPlain(r.version);
    DecimalIsPlain(r.issue);
    DecimalIsPlain(r.count);
    SourceIsPlain(r.source);
    var v := Values(r);
    assert v[1] == r.repository && v[3] == r.attempt && v[6] == r.branch && v[7] == r.branchSha;
  }

  lemma WholeByValue(tokens: seq<string>, keys: seq<string>, values: seq<string>, n: nat)
    requires Fielded(tokens, keys, values) && n <= |tokens|
    ensures Whole(tokens[..n]) <==> forall i :: 0 <= i < n ==> Absent(values[i], TERMINATOR)
  {
    forall i | 0 <= i < n
      ensures Cut(tokens[i]) == tokens[i] <==> Absent(values[i], TERMINATOR)
    {
      CutField(keys[i], values[i]);
      CutIsWhole(values[i]);
    }
    assert forall i :: 0 <= i < n ==> tokens[..n][i] == tokens[i];
  }

  /** All nine fields are left exactly when nothing is cut before the last, and some of that remains. */
  lemma AllLeft(tokens: seq<string>, keys: seq<string>, values: seq<string>)
    requires Fielded(tokens, keys, values) && keys != []
    ensures var n, fields := |keys| - 1, Collect(Kept(tokens));
      && (keys[n] in fields <==> (forall i :: 0 <= i < n ==> Absent(values[i], TERMINATOR)) && Cut(values[n]) != "")
      && (keys[n] in fields ==>
            && (forall i :: 0 <= i < n ==> keys[i] in fields && fields[keys[i]] == values[i])
            && fields[keys[n]] == Cut(values[n]))
  {
    var n := |keys| - 1;
    WholeByValue(tokens, keys, values, n);
    FieldLeft(tokens, keys, values, n);
    if keys[n] in Collect(Kept(tokens)) {
      forall i | 0 <= i < n
        ensures keys[i] in Collect(Kept(tokens)) && Collect(Kept(tokens))[keys[i]] == values[i]
      {
        WholeByValue(tokens, keys, values, i);
        FieldLeft(tokens, keys, values, i);
        CutIsWhole(values[i]);
      }
    }
  }

  lemma CutIsToken(s: string)
    requires NoSpace(s) && Cut(s) != ""
    ensures IsToken(Cut(s))
  {
    CutIsStart(s);
    assert !IsSpace(Cut(s)[0]);
  }

  /** What the fields that are left spell. */
  lemma DecodeLeft(r: Record)
    requires Valid(r)
    ensures Decode(Collect(Kept(Tokens(r)))) == ReadBack(r)
  {
    var f := Collect(Kept(Tokens(r)));
    TokensAreFields(r);
    AllLeft(Tokens(r), KEYS, Values(r));
    ValuesAreWhole(r);
    assert KEYS[8] in f <==> Readable(r);
    if Readable(r) {
      CutIsToken(r.noteSha);
      DecodeFields(r.(noteSha := Cut(r.noteSha)), f);
    }
  }

  lemma DecodeFields(r: Record, f: Fields)
    requires Valid(r)
    requires forall i :: 0 <= i < |KEYS| ==> KEYS[i] in f && f[KEYS[i]] == Values(r)[i]
    ensures Decode(f) == Some(r)
  {
    assert f[KEYS[0]] == ToDecimal(r.version) && f[KEYS[1]] == r.repository && f[KEYS[2]] == ToDecimal(r.issue);
    assert f[KEYS[3]] == r.attempt && f[KEYS[4]] == r.source && f[KEYS[5]] == ToDecimal(r.count);
    assert f[KEYS[6]] == r.branch && f[KEYS[7]] == r.branchSha && f[KEYS[8]] == r.noteSha;
    ParseDecimal(r.version);
    ParseDecimal(r.issue);
    ParseDecimal(r.count);
  }

  lemma ValuesHaveNoSpace(r: Record)
    requires Valid(r) && NoSpace(r.repository)
    ensures forall i :: 0 <= i < |KEYS| ==> NoSpace(Values(r)[i])
  {
    DecimalIsPlain(r.version);
    DecimalIsPlain(r.issue);
    DecimalIsPlain(r.count);
    SourceIsPlain(r.source);
  }

  lemma TokensHaveNoSpace(r: Record)
    requires Valid(r) && NoSpace(r.repository)
    ensures forall t :: t in Tokens(r) ==> t != "" && NoSpace(t)
  {
    TokensAreFields(r);
    ValuesHaveNoSpace(r);
    FieldsHaveNoSpace(Tokens(r), KEYS, Values(r));
  }

  lemma FieldsHaveNoSpace(tokens: seq<string>, keys: seq<string>, values: seq<string>)
    requires Fielded(tokens, keys, values) && forall i :: 0 <= i < |keys| ==> NoSpace(values[i])
    ensures forall t :: t in tokens ==> t != "" && NoSpace(t)
  {
    assert !IsSpace('=');
  }

  lemma Rebracket(a: string, b: string, c: string, d: string, rest: string)
    ensures a + b + c + d + rest == a + (b + (c + d + rest))
  {
  }

  /** The first marker of a body decides what it reads as, whatever follows. */
  lemma FirstMarkerDecides(front: string, r: Record, rest: string)
    requires Shielded(front) && Valid(r) && NoSpace(r.repository)
    ensures Parse(front + (Marker(r) + rest)) == ReadBack(r)
  {
    Rebracket(PREFIX, Spaced(Tokens(r)), " ", TERMINATOR, rest);
    PayloadIsCut(front, Spaced(Tokens(r)), rest);
    TokensHaveNoSpace(r);
    KeptSplit(Tokens(r));
    DecodeLeft(r);
  }

  /**
   A repository that spells out another record's marker makes the body read as that record. Such a
   text has white space in it, so the configuration refuses it before anything is printed.
   */
  lemma InjectedMarkerWins(r: Record, injected: Record)
    requires Valid(r) && Valid(injected) && Clean(injected) && r.repository == Marker(injected)
    ensures Build(r).Some? && Parse(Build(r).value) == Some(injected) && !NoSpace(r.repository)
  {
    var front := Opening() + (r.branch + "`") + Naming(r);
    FrontIsShielded(r);
    FirstMarkerDecides(front, injected, "/" + "blob/" + (r.branch + "/") + Closing(r) + Marker(r));
    CleanReadsBack(injected);
    RepositoryInside(front, r.repository, "blob/", r.branch + "/", Closing(r), Marker(r));
    MarkerHasSpace(injected);
  }

  lemma MarkerHasSpace(r: Record)
    requires Valid(r)
    ensures !NoSpace(Marker(r))
  {
    assert Marker(r)[4] == PREFIX[4] == ' ';
  }

  lemma FrontIsShielded(r: Record)
    requires Valid(r)
    ensures Shielded(Opening() + (r.branch + "`") + Naming(r))
  {
    OpeningIsShielded();
    NamingIsShielded(r);
    FieldIsShielded(r.branch, '`');
    ShieldedTogether(Opening(), r.branch + "`");
    ShieldedTogether(Opening() + (r.branch + "`"), Naming(r));
  }

  lemma CleanReadsBack(r: Record)
    requires Clean(r)
    ensures ReadBack(r) == Some(r)
  {
    CutIsWhole(r.noteSha);
    assert !OccursAt(r.noteSha, TERMINATOR, 0);
  }

  lemma RepositoryInside(front: string, repository: string, a: string, b: string, c: string, d: string)
    ensures front + (repository + "/") + a + b + c + d == front + (repository + ("/" + a + b + c + d))
  {
    assert (repository + "/") + a + b + c + d == repository + ("/" + a + b + c + d);
  }

  /**
   What the body of a valid record reads as, for every repository without white space: the record
   up to a terminator in its last text, and nothing with a terminator anywhere before.
   */
  lemma ReadsBackExactly(r: Record)
    requires Valid(r) && NoSpace(r.repository)
    ensures Build(r).Some? && Parse(Build(r).value) == ReadBack(r)
  {
    VisibleIsShielded(r);
    FirstMarkerDecides(VisibleText(r), r, "");
    assert Marker(r) + "" == Marker(r);
  }

  /**
   A valid record is read back from its own comment body exactly when none of its texts
   contains white space or a comment terminator. White space is only possible in the
   repository, the one text that validation does not check for it.
   */
  lemma RoundTripExactly(r: Record)
    requires Valid(r)
    ensures Build(r).Some? && (Parse(Build(r).value) == Some(r) <==> Clean(r))
  {
    if Clean(r) {
      ReadsBackExactly(r);
      CleanReadsBack(r);
    } else if Parse(Build(r).value) == Some(r) {
      ParsedIsValidAndClean(Build(r).value);
    }
  }
}
