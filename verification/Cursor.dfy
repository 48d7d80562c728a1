/**
 The opaque page cursor: an Attempt ID as UTF-8 under the URL-safe Base 64 alphabet (section 5 of
 RFC 4648), and the lenient decoder that reads it back. A char is a Unicode scalar value here, so
 every ID can be encoded.
 */
module Cursor {
  import opened Prelude


  predicate AreBytes(bytes: seq<int>) {
    forall i :: 0 <= i < |bytes| ==> 0 <= bytes[i] < 256
  }

  // ---- UTF-8 ------------------------------------------------------------------------

  function EncodeChar(c: char): (bytes: seq<int>)
    ensures 1 <= |bytes| <= 4 && AreBytes(bytes)
  {
    var n := c as int;
    if n < 0x80 then [n]
    else if n < 0x800 then [0xC0 + n / 64, 0x80 + n % 64]
    else if n < 0x10000 then [0xE0 + n / 4096, 0x80 + n / 64 % 64, 0x80 + n % 64]
    else [0xF0 + n / 262144, 0x80 + n / 4096 % 64, 0x80 + n / 64 % 64, 0x80 + n % 64]
  }

  function EncodeText(s: string): (bytes: seq<int>)
    ensures AreBytes(bytes)
    ensures s != "" ==> bytes != []
  {
    if s == "" then [] else EncodeChar(s[0]) + EncodeText(s[1..])
  }

  predicate IsTrail(b: int) {
    0x80 <= b < 0xC0
  }

  /** How many bytes the character starting here takes, by its first byte; 0 when it may not start one. */
  function Width(first: int): (n: nat)
    ensures n <= 4
  {
    if 0 <= first < 0x80 then 1
    else if 0xC0 <= first < 0xE0 then 2
    else if 0xE0 <= first < 0xF0 then 3
    else if 0xF0 <= first < 0xF8 then 4
    else 0
  }

  /** The code point spelled by the first `Width` bytes, unless a trailing byte is missing or wrong. */
  function CodePoint(bytes: seq<int>): Option<int> {
    if bytes == [] then None
    else
      match Width(bytes[0])
      case 0 => None
      case 1 => Some(bytes[0])
      case 2 =>
        if |bytes| >= 2 && IsTrail(bytes[1]) then Some((bytes[0] - 0xC0) * 64 + bytes[1] - 0x80) else None
      case 3 =>
        if |bytes| >= 3 && IsTrail(bytes[1]) && IsTrail(bytes[2])
        then Some((bytes[0] - 0xE0) * 4096 + (bytes[1] - 0x80) * 64 + bytes[2] - 0x80) else None
      case _ =>
        if |bytes| >= 4 && IsTrail(bytes[1]) && IsTrail(bytes[2]) && IsTrail(bytes[3])
        then Some((bytes[0] - 0xF0) * 262144 + (bytes[1] - 0x80) * 4096 + (bytes[2] - 0x80) * 64 + bytes[3] - 0x80)
        else None
  }

  predicate IsScalar(n: int) {
    0 <= n < 0xD800 || 0xE000 <= n < 0x110000
  }

  /** Strict decoding: an overlong form, a surrogate or a stray byte is an error. */
  function DecodeText(bytes: seq<int>): Option<string>
    decreases |bytes|
  {
    if bytes == [] then Some("")
    else
      var n := CodePoint(bytes);
      if n.None? || !IsScalar(n.value) || |EncodeChar(n.value as char)| != Width(bytes[0]) || |bytes| < Width(bytes[0])
      then None
      else
        var rest := DecodeText(bytes[Width(bytes[0])..]);
        if rest.None? then None else Some([n.value as char] + rest.value)
  }

  lemma DecodeThree(n: int, bytes: seq<int>)
    requires 0x800 <= n < 0x10000 && |bytes| >= 3
    requires bytes[0] == 0xE0 + n / 4096 && bytes[1] == 0x80 + n / 64 % 64 && bytes[2] == 0x80 + n % 64
    ensures CodePoint(bytes) == Some(n) && Width(bytes[0]) == 3
  {
    assert n / 64 / 64 == n / 4096;
  }

  lemma DecodeFour(n: int, bytes: seq<int>)
    requires 0x10000 <= n < 0x110000 && |bytes| >= 4
    requires bytes[0] == 0xF0 + n / 262144 && bytes[1] == 0x80 + n / 4096 % 64
    requires bytes[2] == 0x80 + n / 64 % 64 && bytes[3] == 0x80 + n % 64
    ensures CodePoint(bytes) == Some(n) && Width(bytes[0]) == 4
  {
    assert n / 64 / 64 == n / 4096;
    assert n / 4096 / 64 == n / 262144;
  }

  lemma DecodeChar(c: char, rest: seq<int>)
    ensures var bytes := EncodeChar(c) + rest;
      CodePoint(bytes) == Some(c as int) && Width(bytes[0]) == |EncodeChar(c)|
  {
    var n, bytes := c as int, EncodeChar(c) + rest;
    if n < 0x80 {
    } else if n < 0x800 {
      assert bytes[0] == 0xC0 + n / 64 && bytes[1] == 0x80 + n % 64;
    } else if n < 0x10000 {
      DecodeThree(n, bytes);
    } else {
      DecodeFour(n, bytes);
    }
  }

  lemma {:induction false} TextRoundTrip(s: string)
    ensures DecodeText(EncodeText(s)) == Some(s)
  {
    if s != "" {
      var rest := EncodeText(s[1..]);
      TextRoundTrip(s[1..]);
      DecodeChar(s[0], rest);
      assert (EncodeChar(s[0]) + rest)[|EncodeChar(s[0])|..] == rest;
      assert s == [s[0]] + s[1..];
    }
  }

  // ---- Base 64 ------------------------------------------------------------------------

  function Digit(n: int): (c: char)
    requires 0 <= n < 64
  {
    if n < 26 then ('A' as int + n) as char
    else if n < 52 then ('a' as int + n - 26) as char
    else if n < 62 then ('0' as int + n - 52) as char
    else if n == 62 then '-'
    else '_'
  }

  /** The six bits of a character; both the plain and the URL-safe last two are read. */
  function Value(c: char): (v: Option<int>)
    ensures v.Some? ==> 0 <= v.value < 64
  {
    if 'A' <= c <= 'Z' then Some(c as int - 'A' as int)
    else if 'a' <= c <= 'z' then Some(c as int - 'a' as int + 26)
    else if '0' <= c <= '9' then Some(c as int - '0' as int + 52)
    else if c == '-' || c == '+' then Some(62)
    else if c == '_' || c == '/' then Some(63)
    else None
  }

  function EncodeBytes(b: seq<int>): (s: string)
    requires AreBytes(b)
    ensures |s| % 4 == 0 && (b != [] ==> s != "")
  {
    if |b| == 0 then ""
    else if |b| == 1 then [Digit(b[0] / 4), Digit(b[0] % 4 * 16), '=', '=']
    else if |b| == 2 then [Digit(b[0] / 4), Digit(b[0] % 4 * 16 + b[1] / 16), Digit(b[1] % 16 * 4), '=']
    else
      [Digit(b[0] / 4), Digit(b[0] % 4 * 16 + b[1] / 16), Digit(b[1] % 16 * 4 + b[2] / 64), Digit(b[2] % 64)]
      + EncodeBytes(b[3..])
  }

  /** Where the lenient decoder stands: digits taken of the current four, bits left over, pads seen since. */
  datatype Scan = Scan(taken: int, left: int, pads: nat)

  const START := Scan(0, 0, 0)

  /** The bytes the rest of the input yields; characters outside the alphabet are skipped. */
  function DecodeBytes(s: string, at: Scan): Option<seq<int>>
    decreases |s|
  {
    if s == "" then if at.taken == 0 then Some([]) else None
    else if s[0] == '=' then
      if at.taken < 2 then DecodeBytes(s[1..], at)
      else if at.taken + at.pads + 1 >= 4 then Some([])
      else DecodeBytes(s[1..], at.(pads := at.pads + 1))
    else if Value(s[0]).None? then DecodeBytes(s[1..], at)
    else
      var v := Value(s[0]).value;
      if at.taken == 0 then DecodeBytes(s[1..], Scan(1, v, 0))
      else if at.taken == 1 then Emit(at.left * 4 + v / 16, DecodeBytes(s[1..], Scan(2, v % 16, 0)))
      else if at.taken == 2 then Emit(at.left * 16 + v / 4, DecodeBytes(s[1..], Scan(3, v % 4, 0)))
      else Emit(at.left * 64 + v, DecodeBytes(s[1..], START))
  }

  function Emit(byte: int, rest: Option<seq<int>>): Option<seq<int>> {
    if rest.None? then None else Some([byte] + rest.value)
  }

  lemma DigitValue(n: int)
    requires 0 <= n < 64
    ensures Digit(n) != '=' && Value(Digit(n)) == Some(n)
  {
  }

  /** One digit moves the decoder one step. */
  lemma TakeDigit(n: int, rest: string, at: Scan)
    requires 0 <= n < 64 && 0 <= at.taken <= 3
    ensures DecodeBytes([Digit(n)] + rest, at) ==
      if at.taken == 0 then DecodeBytes(rest, Scan(1, n, 0))
      else if at.taken == 1 then Emit(at.left * 4 + n / 16, DecodeBytes(rest, Scan(2, n % 16, 0)))
      else if at.taken == 2 then Emit(at.left * 16 + n / 4, DecodeBytes(rest, Scan(3, n % 4, 0)))
      else Emit(at.left * 64 + n, DecodeBytes(rest, START))
  {
    DigitValue(n);
    TakeChar(Digit(n), n, rest, at);
  }

  lemma TakeChar(c: char, v: int, rest: string, at: Scan)
    requires c != '=' && Value(c) == Some(v) && 0 <= at.taken <= 3
    ensures DecodeBytes([c] + rest, at) ==
      if at.taken == 0 then DecodeBytes(rest, Scan(1, v, 0))
      else if at.taken == 1 then Emit(at.left * 4 + v / 16, DecodeBytes(rest, Scan(2, v % 16, 0)))
      else if at.taken == 2 then Emit(at.left * 16 + v / 4, DecodeBytes(rest, Scan(3, v % 4, 0)))
      else Emit(at.left * 64 + v, DecodeBytes(rest, START))
  {
    var s := [c] + rest;
    assert s != "" && s[0] == c && s[1..] == rest;
  }

  /** Two neighbouring digits give back the byte they share. */
  lemma Split4(x: int, y: int)
    requires 0 <= x < 256 && 0 <= y < 16
    ensures 0 <= x / 4 < 64 && 0 <= x % 4 * 16 + y < 64
    ensures x / 4 * 4 + (x % 4 * 16 + y) / 16 == x && (x % 4 * 16 + y) % 16 == y
  {
  }

  lemma Split16(y: int, z: int)
    requires 0 <= y < 256 && 0 <= z < 4
    ensures 0 <= y / 16 < 16 && 0 <= y % 16 * 4 + z < 64
    ensures y / 16 * 16 + (y % 16 * 4 + z) / 4 == y && (y % 16 * 4 + z) % 4 == z
  {
  }

  lemma TakeTwo(d0: int, d1: int, rest: string)
    requires 0 <= d0 < 64 && 0 <= d1 < 64
    ensures DecodeBytes([Digit(d0)] + ([Digit(d1)] + rest), START) == Emit(d0 * 4 + d1 / 16, DecodeBytes(rest, Scan(2, d1 % 16, 0)))
  {
    TakeDigit(d0, [Digit(d1)] + rest, START);
    TakeDigit(d1, rest, Scan(1, d0, 0));
  }

  lemma TakeLastTwo(left: int, d2: int, d3: int, rest: string)
    requires 0 <= d2 < 64 && 0 <= d3 < 64
    ensures DecodeBytes([Digit(d2)] + ([Digit(d3)] + rest), Scan(2, left, 0))
      == Emit(left * 16 + d2 / 4, Emit(d2 % 4 * 64 + d3, DecodeBytes(rest, START)))
  {
    TakeDigit(d2, [Digit(d3)] + rest, Scan(2, left, 0));
    TakeDigit(d3, rest, Scan(3, d2 % 4, 0));
  }

  lemma FourInARow(a: char, b: char, c: char, d: char, rest: string)
    ensures [a, b, c, d] + rest == [a] + ([b] + ([c] + ([d] + rest)))
  {
  }

  /** Four digits in a row, from the start of a group. */
  lemma TakeFour(d0: int, d1: int, d2: int, d3: int, rest: string)
    requires 0 <= d0 < 64 && 0 <= d1 < 64 && 0 <= d2 < 64 && 0 <= d3 < 64
    ensures DecodeBytes([Digit(d0), Digit(d1), Digit(d2), Digit(d3)] + rest, START)
      == Emit(d0 * 4 + d1 / 16, Emit(d1 % 16 * 16 + d2 / 4, Emit(d2 % 4 * 64 + d3, DecodeBytes(rest, START))))
  {
    FourInARow(Digit(d0), Digit(d1), Digit(d2), Digit(d3), rest);
    TakeTwo(d0, d1, [Digit(d2)] + ([Digit(d3)] + rest));
    TakeLastTwo(d1 % 16, d2, d3, rest);
  }

  lemma ThreeBytes(x: int, y: int, z: int, rest: string)
    requires 0 <= x < 256 && 0 <= y < 256 && 0 <= z < 256
    ensures DecodeBytes([Digit(x / 4), Digit(x % 4 * 16 + y / 16), Digit(y % 16 * 4 + z / 64), Digit(z % 64)] + rest, START)
      == Emit(x, Emit(y, Emit(z, DecodeBytes(rest, START))))
  {
    Split4(x, y / 16);
    Split16(y, z / 64);
    TakeFour(x / 4, x % 4 * 16 + y / 16, y % 16 * 4 + z / 64, z % 64, rest);
  }

  lemma OneByte(x: int)
    requires 0 <= x < 256
    ensures DecodeBytes([Digit(x / 4), Digit(x % 4 * 16), '=', '='], START) == Some([x])
  {
    var d0, d1 := x / 4, x % 4 * 16;
    Split4(x, 0);
    TakeDigit(d0, [Digit(d1), '=', '='], START);
    TakeDigit(d1, ['=', '='], Scan(1, d0, 0));
    PadsEnd(2, d1 % 16);
    assert [Digit(d1)] + ['=', '='] == [Digit(d1), '=', '='];
    assert [Digit(d0)] + [Digit(d1), '=', '='] == [Digit(d0), Digit(d1), '=', '='];
    assert [x] + [] == [x];
  }

  lemma TwoBytes(x: int, y: int)
    requires 0 <= x < 256 && 0 <= y < 256
    ensures DecodeBytes([Digit(x / 4), Digit(x % 4 * 16 + y / 16), Digit(y % 16 * 4), '='], START) == Some([x, y])
  {
    var d0, d1, d2 := x / 4, x % 4 * 16 + y / 16, y % 16 * 4;
    Split4(x, y / 16);
    Split16(y, 0);
    TakeTwo(d0, d1, [Digit(d2), '=']);
    TakeDigit(d2, ['='], Scan(2, d1 % 16, 0));
    PadsEnd(3, d2 % 4);
    assert [Digit(d2)] + ['='] == [Digit(d2), '='];
    assert [Digit(d1)] + [Digit(d2), '='] == [Digit(d1), Digit(d2), '='];
    assert [Digit(d0)] + [Digit(d1), Digit(d2), '='] == [Digit(d0), Digit(d1), Digit(d2), '='];
    assert [x] + ([y] + []) == [x, y];
  }

  /** A full pad ends the input. */
  lemma PadsEnd(taken: int, left: int)
    requires taken in {2, 3}
    ensures DecodeBytes(if taken == 2 then ['=', '='] else ['='], Scan(taken, left, 0)) == Some([])
  {
    if taken == 2 {
      assert ['=', '='][1..] == ['='];
      assert DecodeBytes(['='], Scan(2, left, 1)) == Some([]);
    }
  }

  lemma FirstThree(b: seq<int>)
    requires |b| >= 3
    ensures b == [b[0]] + ([b[1]] + ([b[2]] + b[3..]))
  {
  }

  lemma OneRoundTrip(b: seq<int>)
    requires AreBytes(b) && |b| == 1
    ensures DecodeBytes(EncodeBytes(b), START) == Some(b)
  {
    var digits := EncodeBytes(b);
    assert digits == [Digit(b[0] / 4), Digit(b[0] % 4 * 16), '=', '='];
    OneByte(b[0]);
    assert b == [b[0]];
  }

  lemma TwoRoundTrip(b: seq<int>)
    requires AreBytes(b) && |b| == 2
    ensures DecodeBytes(EncodeBytes(b), START) == Some(b)
  {
    var digits := EncodeBytes(b);
    assert digits == [Digit(b[0] / 4), Digit(b[0] % 4 * 16 + b[1] / 16), Digit(b[1] % 16 * 4), '='];
    TwoBytes(b[0], b[1]);
    assert b == [b[0], b[1]];
  }

  lemma {:induction false} BytesRoundTrip(b: seq<int>)
    requires AreBytes(b)
    ensures DecodeBytes(EncodeBytes(b), START) == Some(b)
  {
    if |b| == 0 {
    } else if |b| == 1 {
      OneRoundTrip(b);
    } else if |b| == 2 {
      TwoRoundTrip(b);
    } else {
      BytesRoundTrip(b[3..]);
      ThreeBytes(b[0], b[1], b[2], EncodeBytes(b[3..]));
      FirstThree(b);
    }
  }

  /** The text of the examples in section 10 of RFC 4648, and characters of two, three and four bytes. */
  lemma KnownEncodings()
    ensures EncodeBytes([102]) == "Zg==" && EncodeBytes([102, 111]) == "Zm8=" && EncodeBytes([251, 255, 191]) == "-_-_"
    ensures EncodeChar('f') == [102] && EncodeChar(0xE9 as char) == [0xC3, 0xA9]
    ensures EncodeChar(0x20AC as char) == [0xE2, 0x82, 0xAC] && EncodeChar(0x1D11E as char) == [0xF0, 0x9D, 0x84, 0x9E]
  {
    assert EncodeBytes([251, 255, 191][3..]) == "";
  }

  // ---- Cursors ------------------------------------------------------------------------

  const LONGEST := 256

  function EncodeCursor(id: string): string {
    EncodeBytes(EncodeText(id))
  }

  function Padded(cursor: string): string {
    cursor + match |cursor| % 4 case 0 => "" case 1 => "===" case 2 => "==" case _ => "="
  }

  /** The Attempt ID a cursor stands for; None is the `invalid_argument` refusal. */
  function DecodeCursor(cursor: string): (id: Option<string>)
    ensures id.Some? ==> 1 <= |id.value| <= LONGEST
  {
    if cursor == "" || exists i :: 0 <= i < |cursor| && cursor[i] as int >= 128 then None
    else
      var bytes := DecodeBytes(Padded(cursor), START);
      if bytes.None? then None
      else
        var id := DecodeText(bytes.value);
        if id.None? || id.value == "" || |id.value| > LONGEST then None else id
  }

  lemma {:induction false} CursorIsAscii(b: seq<int>)
    requires AreBytes(b)
    ensures forall i :: 0 <= i < |EncodeBytes(b)| ==> EncodeBytes(b)[i] as int < 128
  {
    if |b| >= 3 {
      CursorIsAscii(b[3..]);
    }
  }

  lemma DecodeWhole(cursor: string, bytes: seq<int>, id: string)
    requires |cursor| % 4 == 0 && (forall i :: 0 <= i < |cursor| ==> cursor[i] as int < 128)
    requires DecodeBytes(cursor, START) == Some(bytes) && DecodeText(bytes) == Some(id)
    requires id != "" ==> cursor != ""
    ensures DecodeCursor(cursor) == if 1 <= |id| <= LONGEST then Some(id) else None
  {
    assert Padded(cursor) == cursor;
  }

  lemma BytesCursor(bytes: seq<int>, id: string)
    requires AreBytes(bytes) && DecodeText(bytes) == Some(id) && (id != "" ==> bytes != [])
    ensures DecodeCursor(EncodeBytes(bytes)) == if 1 <= |id| <= LONGEST then Some(id) else None
  {
    CursorIsAscii(bytes);
    BytesRoundTrip(bytes);
    var cursor := EncodeBytes(bytes);
    DecodeWhole(cursor, bytes, id);
  }

  /** Decoding undoes encoding for exactly the IDs of 1 to 256 characters, and refuses every other. */
  lemma CursorRoundTrip(id: string)
    ensures DecodeCursor(EncodeCursor(id)) == if 1 <= |id| <= LONGEST then Some(id) else None
  {
    TextRoundTrip(id);
    BytesCursor(EncodeText(id), id);
  }
}
