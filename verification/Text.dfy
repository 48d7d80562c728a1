/** The few string operations the record marker is printed and parsed with. */
module Text {
  import opened Prelude

  // ---- Searching ----------------------------------------------------------------

  predicate OccursAt(s: string, needle: string, i: nat) {
    i + |needle| <= |s| && s[i..i + |needle|] == needle
  }

  ghost predicate Absent(s: string, needle: string) {
    forall i: nat :: !OccursAt(s, needle, i)
  }

  /** The first occurrence at or after `start`, as Python's str.find. */
  function Find(s: string, needle: string, start: nat): (r: Option<nat>)
    ensures r.Some? ==> r.value >= start && OccursAt(s, needle, r.value)
    ensures r.Some? ==> forall i: nat :: start <= i < r.value ==> !OccursAt(s, needle, i)
    ensures r.None? ==> forall i: nat :: start <= i ==> !OccursAt(s, needle, i)
    decreases |s| + 1 - start
  {
    if start > |s| then None
    else if OccursAt(s, needle, start) then Some(start)
    else Find(s, needle, start + 1)
  }

  lemma FindFirst(s: string, needle: string, start: nat, at: nat)
    requires start <= at && OccursAt(s, needle, at)
    requires forall i: nat :: start <= i < at ==> !OccursAt(s, needle, i)
    ensures Find(s, needle, start) == Some(at)
  {
  }

  /** The text up to the first occurrence. */
  function Until(s: string, needle: string): string {
    if s == "" || needle <= s then "" else [s[0]] + Until(s[1..], needle)
  }

  lemma {:induction false} UntilIsStart(s: string, needle: string)
    ensures Until(s, needle) <= s && (Until(s, needle) == s <==> |Until(s, needle)| == |s|)
  {
    if s != "" && !(needle <= s) {
      UntilIsStart(s[1..], needle);
      assert s == [s[0]] + s[1..];
    }
  }

  lemma StartsHere(s: string, needle: string, i: nat)
    requires i <= |s|
    ensures OccursAt(s, needle, i) <==> needle <= s[i..]
  {
    if i + |needle| <= |s| {
      assert s[i..][..|needle|] == s[i..i + |needle|];
    }
  }

  /** Searching finds the place up to which the rest of the text is kept. */
  lemma {:induction false} FindIsUntil(s: string, needle: string, start: nat)
    requires start <= |s| && needle != ""
    ensures var rest := s[start..];
      Find(s, needle, start) == if Until(rest, needle) == rest then None else Some(start + |Until(rest, needle)|)
    decreases |s| - start
  {
    var rest := s[start..];
    StartsHere(s, needle, start);
    if rest != "" && !(needle <= rest) {
      assert rest[1..] == s[start + 1..] && rest == [rest[0]] + rest[1..];
      FindIsUntil(s, needle, start + 1);
    }
  }

  lemma UntilIsWhole(s: string, needle: string)
    requires needle != ""
    ensures Until(s, needle) == s <==> Absent(s, needle)
  {
    FindIsUntil(s, needle, 0);
    assert s[0..] == s;
  }

  lemma UntilOfCons(c: char, s: string, needle: string)
    requires needle != ""
    ensures var whole := [c] + s;
      && Until(whole, needle) == (if needle <= whole then "" else [c] + Until(s, needle))
      && (Until(whole, needle) == whole <==> !(needle <= whole) && Until(s, needle) == s)
  {
    var whole := [c] + s;
    assert whole[1..] == s && whole[0] == c && whole != "";
    if !(needle <= whole) {
      assert Until(whole, needle) == [c] + Until(s, needle);
      assert ([c] + Until(s, needle))[1..] == Until(s, needle);
    }
  }

  ghost predicate Across(a: string, b: string, needle: string) {
    Until(a + b, needle) == if Until(a, needle) == a then a + Until(b, needle) else Until(a, needle)
  }

  lemma AcrossCons(c: char, a: string, b: string, needle: string)
    requires b != "" && b[0] !in needle && needle != "" && Across(a, b, needle)
    ensures Across([c] + a, b, needle)
  {
    var whole := [c] + a;
    assert whole + b == [c] + (a + b);
    SameStart(whole, b, needle);
    UntilOfCons(c, a, needle);
    UntilOfCons(c, a + b, needle);
    assert [c] + (a + Until(b, needle)) == whole + Until(b, needle);
  }

  /** Behind a text, a continuation that the needle cannot run into. */
  lemma {:induction false} UntilAcross(a: string, b: string, needle: string)
    requires b != "" && b[0] !in needle && needle != ""
    ensures Across(a, b, needle)
  {
    if a == "" {
      assert a + b == b;
    } else {
      UntilAcross(a[1..], b, needle);
      AcrossCons(a[0], a[1..], b, needle);
      assert a == [a[0]] + a[1..];
    }
  }

  lemma SameStart(a: string, b: string, needle: string)
    requires b != "" && b[0] !in needle
    ensures needle <= a + b <==> needle <= a
  {
    if |a| < |needle| {
      var c := needle[|a|];
      assert c in needle && (a + b)[|a|] != c;
    }
  }

  ghost predicate IsPart(part: string, s: string) {
    exists i, j :: 0 <= i <= j <= |s| && part == s[i..j]
  }

  lemma SliceOfSlice(s: string, i: nat, j: nat, k: nat, l: nat)
    requires i <= j <= |s| && k <= l <= j - i
    ensures s[i..j][k..l] == s[i + k..i + l]
  {
    forall x | 0 <= x < l - k
      ensures s[i..j][k..l][x] == s[i + k..i + l][x]
    {
    }
  }

  lemma OccursChar(s: string, needle: string, i: nat, k: nat)
    requires OccursAt(s, needle, i) && k < |needle|
    ensures s[i + k] == needle[k]
  {
    assert s[i..i + |needle|][k] == needle[k];
  }

  lemma OccursInPart(s: string, i: nat, j: nat, needle: string, k: nat)
    requires i <= j <= |s| && OccursAt(s[i..j], needle, k)
    ensures OccursAt(s, needle, i + k)
  {
    SliceOfSlice(s, i, j, k, k + |needle|);
  }

  lemma PartIsAbsent(part: string, s: string, needle: string)
    requires IsPart(part, s) && Absent(s, needle)
    ensures Absent(part, needle)
  {
    var i, j :| 0 <= i <= j <= |s| && part == s[i..j];
    forall k: nat
      ensures !OccursAt(part, needle, k)
    {
      if OccursAt(part, needle, k) {
        OccursInPart(s, i, j, needle, k);
      }
    }
  }

  lemma PartOfPart(a: string, b: string, c: string)
    requires IsPart(a, b) && IsPart(b, c)
    ensures IsPart(a, c)
  {
    var i, j :| 0 <= i <= j <= |b| && a == b[i..j];
    var k, l :| 0 <= k <= l <= |c| && b == c[k..l];
    SliceOfSlice(c, k, l, i, j);
    assert a == c[k + i..k + j];
  }

  lemma AbsentWithoutChar(s: string, needle: string, c: char)
    requires c in needle && c !in s
    ensures Absent(s, needle)
  {
    forall i: nat
      ensures !OccursAt(s, needle, i)
    {
    }
  }

  // ---- Splitting on white space ----------------------------------------------------

  /** The length of the leading run without white space. */
  function TokenLength(s: string): (n: nat)
    ensures n <= |s| && NoSpace(s[..n])
    ensures n < |s| ==> IsSpace(s[n])
  {
    if s == "" || IsSpace(s[0]) then 0
    else
      var n := 1 + TokenLength(s[1..]);
      assert s[..n] == [s[0]] + s[1..][..n - 1];
      n
  }

  /** The maximal runs without white space, as Python's str.split. */
  function Split(s: string): seq<string>
    decreases |s|
  {
    if s == "" then []
    else if IsSpace(s[0]) then Split(s[1..])
    else [s[..TokenLength(s)]] + Split(s[TokenLength(s)..])
  }

  lemma {:induction false} SplitParts(s: string, token: string)
    requires token in Split(s)
    ensures IsPart(token, s) && NoSpace(token)
    decreases |s|
  {
    if IsSpace(s[0]) {
      SplitParts(s[1..], token);
      assert s[1..] == s[1..|s|];
      PartOfPart(token, s[1..], s);
    } else {
      var n := TokenLength(s);
      if token == s[..n] {
        assert token == s[0..n];
      } else {
        SplitParts(s[n..], token);
        assert s[n..] == s[n..|s|];
        PartOfPart(token, s[n..], s);
      }
    }
  }

  /** Each token after one space. */
  function Spaced(tokens: seq<string>): string {
    if tokens == [] then "" else " " + tokens[0] + Spaced(tokens[1..])
  }

  lemma {:induction false} TokenThenSpace(t: string, rest: string)
    requires NoSpace(t) && rest != "" && IsSpace(rest[0])
    ensures TokenLength(t + rest) == |t|
  {
    if t == "" {
      assert t + rest == rest;
    } else {
      assert (t + rest)[1..] == t[1..] + rest;
      TokenThenSpace(t[1..], rest);
    }
  }

  // ---- Decimal numbers ---------------------------------------------------------------

  function Digit(d: nat): char
    requires d < 10
  {
    ('0' as int + d) as char
  }

  predicate IsDigit(c: char) {
    '0' <= c <= '9'
  }

  function ToDecimal(n: nat): string {
    if n < 10 then [Digit(n)] else ToDecimal(n / 10) + [Digit(n % 10)]
  }

  /** ASCII digits with single underscores between them; `ready` says the text so far may end here. */
  function Digits(s: string, value: int, ready: bool): Option<int> {
    if s == "" then if ready then Some(value) else None
    else if IsDigit(s[0]) then Digits(s[1..], value * 10 + (s[0] as int - '0' as int), true)
    else if s[0] == '_' && ready then Digits(s[1..], value, false)
    else None
  }

  /** Python's int() on a token without white space, for ASCII digits. */
  function ParseInt(s: string): Option<int> {
    if s != "" && s[0] == '-' then
      var n := Digits(s[1..], 0, false);
      if n.Some? then Some(-n.value) else None
    else if s != "" && s[0] == '+' then Digits(s[1..], 0, false)
    else Digits(s, 0, false)
  }

  lemma {:induction false} DigitsOfDecimal(n: nat, rest: string)
    ensures Digits(ToDecimal(n) + rest, 0, false) == Digits(rest, n, true)
  {
    if n < 10 {
      assert (ToDecimal(n) + rest)[1..] == rest;
    } else {
      var last := [Digit(n % 10)];
      assert ToDecimal(n) + rest == ToDecimal(n / 10) + (last + rest);
      DigitsOfDecimal(n / 10, last + rest);
      assert (last + rest)[1..] == rest;
    }
  }

  lemma {:induction false} DecimalDigits(n: nat)
    ensures ToDecimal(n) != "" && forall i :: 0 <= i < |ToDecimal(n)| ==> IsDigit(ToDecimal(n)[i])
  {
    if n >= 10 {
      DecimalDigits(n / 10);
    }
  }

  lemma ParseDecimal(n: nat)
    ensures ParseInt(ToDecimal(n)) == Some(n)
  {
    DecimalDigits(n);
    DigitsOfDecimal(n, "");
    assert ToDecimal(n) + "" == ToDecimal(n);
  }
}
