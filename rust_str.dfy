/** The pieces of Rust's `str`, `char` and `i32` behaviour the tokenizer
    relies on: `as_bytes` (UTF-8), `char::is_whitespace`, `trim`,
    `split_whitespace`, `i32`'s `Display` and `i32::from_str`. */
module RustStr {
  import opened Wrappers

  type byte = x: int | 0 <= x < 256

  const I32Min: int := -0x8000_0000
  const I32Max: int := 0x7fff_ffff

  predicate InI32(n: int) {
    I32Min <= n <= I32Max
  }

  /** The UTF-8 encoding of one scalar value. */
  function CharBytes(c: char): (r: seq<byte>)
    ensures 1 <= |r| <= 4
    ensures c as int < 0x80 <==> |r| == 1
    ensures c as int < 0x80 ==> r == [c as int]
  {
    var n := c as int;
    if n < 0x80 then [n]
    else if n < 0x800 then [0xC0 + n / 0x40, 0x80 + n % 0x40]
    else if n < 0x1_0000 then [0xE0 + n / 0x1000, 0x80 + (n / 0x40) % 0x40, 0x80 + n % 0x40]
    else [0xF0 + n / 0x4_0000, 0x80 + (n / 0x1000) % 0x40, 0x80 + (n / 0x40) % 0x40, 0x80 + n % 0x40]
  }

  /** `str::as_bytes`. */
  function AsBytes(s: string): (r: seq<byte>)
    ensures |s| <= |r| <= 4 * |s|
  {
    if s == [] then [] else CharBytes(s[0]) + AsBytes(s[1..])
  }

  /** `char::is_whitespace`: the Unicode `White_Space` property. */
  predicate IsWhitespace(c: char) {
    var n := c as int;
    || 0x09 <= n <= 0x0D || n == 0x20 || n == 0x85 || n == 0xA0 || n == 0x1680
    || 0x2000 <= n <= 0x200A || n == 0x2028 || n == 0x2029 || n == 0x202F
    || n == 0x205F || n == 0x3000
  }

  predicate NoWhitespace(s: string) {
    forall i :: 0 <= i < |s| ==> !IsWhitespace(s[i])
  }

  function TrimStart(s: string): (r: string)
    ensures |r| <= |s| && r == s[|s| - |r|..]
    ensures r == [] || !IsWhitespace(r[0])
    ensures s == [] || !IsWhitespace(s[0]) ==> r == s
  {
    if s != [] && IsWhitespace(s[0]) then TrimStart(s[1..]) else s
  }

  function TrimEnd(s: string): (r: string)
    ensures |r| <= |s| && r == s[..|r|]
    ensures r == [] || !IsWhitespace(r[|r| - 1])
    ensures s == [] || !IsWhitespace(s[|s| - 1]) ==> r == s
  {
    if s != [] && IsWhitespace(s[|s| - 1]) then TrimEnd(s[..|s| - 1]) else s
  }

  /** `str::trim`: drops leading and trailing whitespace, nothing else. */
  function Trim(s: string): (r: string)
    ensures r == [] || (!IsWhitespace(r[0]) && !IsWhitespace(r[|r| - 1]))
    ensures |r| <= |s|
    ensures s == [] || (!IsWhitespace(s[0]) && !IsWhitespace(s[|s| - 1])) ==> r == s
  {
    var t := TrimStart(s);
    var r := TrimEnd(t);
    assert r != [] ==> r[0] == t[0];
    r
  }

  /** The longest prefix of `s` without whitespace. */
  function TakeWord(s: string): (w: string)
    ensures |w| <= |s| && w == s[..|w|]
    ensures NoWhitespace(w)
    ensures |w| < |s| ==> IsWhitespace(s[|w|])
  {
    if s == [] || IsWhitespace(s[0]) then [] else [s[0]] + TakeWord(s[1..])
  }

  /** `str::split_whitespace`: the maximal non-empty runs of non-whitespace. */
  function SplitWhitespace(s: string): (parts: seq<string>)
    ensures forall k :: 0 <= k < |parts| ==> parts[k] != [] && NoWhitespace(parts[k])
    decreases |s|
  {
    var t := TrimStart(s);
    if t == [] then []
    else
      var w := TakeWord(t);
      assert w != [] by {
        assert w == if IsWhitespace(t[0]) then [] else [t[0]] + TakeWord(t[1..]);
      }
      Words(w, SplitWhitespace(t[|w|..]));
      [w] + SplitWhitespace(t[|w|..])
  }

  /** A word put in front of words keeps a sequence of words. */
  lemma {:induction false} Words(w: string, rest: seq<string>)
    requires w != [] && NoWhitespace(w)
    requires forall k :: 0 <= k < |rest| ==> rest[k] != [] && NoWhitespace(rest[k])
    ensures forall k :: 0 <= k < |[w] + rest| ==> ([w] + rest)[k] != [] && NoWhitespace(([w] + rest)[k])
  {
  }

  lemma {:induction false} TakeWordOfWord(a: string, rest: string)
    requires NoWhitespace(a)
    requires rest == [] || IsWhitespace(rest[0])
    ensures TakeWord(a + rest) == a
    decreases |a|
  {
    if a != [] {
      assert (a + rest)[1..] == a[1..] + rest;
      TakeWordOfWord(a[1..], rest);
    }
  }

  lemma {:induction false} SplitAfterWord(w: string, rest: string)
    requires w != [] && NoWhitespace(w)
    requires rest == [] || IsWhitespace(rest[0])
    ensures SplitWhitespace(w + rest) == [w] + SplitWhitespace(rest)
  {
    var s := w + rest;
    assert TrimStart(s) == s;
    TakeWordOfWord(w, rest);
    assert s[|w|..] == rest;
  }

  lemma {:induction false} SplitAfterSpace(b: string)
    ensures SplitWhitespace(" " + b) == SplitWhitespace(b)
  {
    var s := " " + b;
    assert IsWhitespace(s[0]);
    assert s[1..] == b;
    assert TrimStart(s) == TrimStart(b);
  }

  /** A line `"<a> <b>"` written with `{} {}` splits back into `a` and `b`. */
  lemma {:induction false} SplitTwoWords(a: string, b: string)
    requires a != [] && NoWhitespace(a)
    requires b != [] && NoWhitespace(b)
    ensures SplitWhitespace(a + " " + b) == [a, b]
  {
    var sb: string := " " + b;
    var empty: string := [];
    assert sb[0] == ' ';
    assert a + " " + b == a + sb;
    assert b + empty == b;
    calc {
      SplitWhitespace(a + sb);
      { SplitAfterWord(a, sb); }
      [a] + SplitWhitespace(sb);
      { SplitAfterSpace(b); }
      [a] + SplitWhitespace(b + empty);
      { SplitAfterWord(b, empty); }
      [a] + ([b] + SplitWhitespace(empty));
      [a, b];
    }
  }

  predicate IsDigit(c: char) {
    '0' <= c <= '9'
  }

  predicate AllDigits(s: string) {
    forall i :: 0 <= i < |s| ==> IsDigit(s[i])
  }

  function DigitChar(d: nat): (c: char)
    requires d < 10
    ensures IsDigit(c) && c as int - '0' as int == d
  {
    ('0' as int + d) as char
  }

  /** Decimal digits of a natural number, most significant first. */
  function NatToString(n: nat): (r: string)
    ensures r != [] && AllDigits(r)
    decreases n
  {
    if n < 10 then [DigitChar(n)] else NatToString(n / 10) + [DigitChar(n % 10)]
  }

  /** `i32`'s `Display`: an optional `-` and the decimal digits. */
  function IntToString(n: int): (r: string)
    ensures r != [] && NoWhitespace(r)
  {
    if n < 0 then "-" + NatToString(-n) else NatToString(n)
  }

  /** The value of a string of decimal digits (leading zeros allowed). */
  function DigitsValue(s: string): nat
    requires AllDigits(s)
  {
    if s == [] then 0
    else DigitsValue(s[..|s| - 1]) * 10 + (s[|s| - 1] as int - '0' as int)
  }

  /** `str::parse::<i32>`: an optional `+` or `-`, then one or more ASCII
      digits, and a value that fits in 32 bits; anything else is an error. */
  function ParseI32(s: string): (r: Option<int>)
    ensures r.Some? ==> InI32(r.value)
    ensures s == [] ==> r == None
  {
    var neg := |s| > 0 && s[0] == '-';
    var digits := if |s| > 0 && (s[0] == '-' || s[0] == '+') then s[1..] else s;
    if digits == [] || !AllDigits(digits) then None
    else
      var d: int := DigitsValue(digits);
      var v := if neg then -d else d;
      if InI32(v) then Some(v) else None
  }

  lemma {:induction false} DigitsValueOfNat(n: nat)
    ensures DigitsValue(NatToString(n)) == n
    decreases n
  {
    if n >= 10 {
      var s := NatToString(n);
      assert s[..|s| - 1] == NatToString(n / 10);
      DigitsValueOfNat(n / 10);
    }
  }

  /** Printing an `i32` and parsing it back gives the same number. */
  lemma {:induction false} ParseI32OfIntToString(n: int)
    requires InI32(n)
    ensures ParseI32(IntToString(n)) == Some(n)
  {
    var s := IntToString(n);
    if n < 0 {
      assert s[1..] == NatToString(-n);
      DigitsValueOfNat(-n);
    } else {
      DigitsValueOfNat(n);
    }
  }

  // ---------------------------------------------------------------------
  // Lines of a text file, as `BufRead::lines` yields them, and the file a
  // sequence of `writeln!` calls produces.

  /** Index of the first line feed in `s`, or `|s|` when there is none. */
  function LineEnd(s: string): (k: nat)
    ensures k <= |s| && (k < |s| ==> s[k] == '\n')
    ensures forall i :: 0 <= i < k ==> s[i] != '\n'
  {
    if s == [] || s[0] == '\n' then 0 else 1 + LineEnd(s[1..])
  }

  /** Drops the carriage return of a CRLF line ending. */
  function StripCr(l: string): (r: string)
    ensures r == l || (l == r + "\r")
  {
    if l != [] && l[|l| - 1] == '\r' then l[..|l| - 1] else l
  }

  /** `BufRead::lines`: split after each line feed, the line feed (and a
      carriage return just before it) removed; a last line without a line
      feed is kept as it is; there is no empty line after a final feed. */
  function Lines(s: string): seq<string>
    decreases |s|
  {
    if s == [] then []
    else
      var k := LineEnd(s);
      if k == |s| then [s] else [StripCr(s[..k])] + Lines(s[k + 1..])
  }

  /** A string that reads back as exactly one line. */
  predicate IsLine(l: string) {
    && (forall i :: 0 <= i < |l| ==> l[i] != '\n')
    && (l == [] || l[|l| - 1] != '\r')
  }

  /** The text `writeln!` produces for each line in turn. */
  function JoinLines(ls: seq<string>): (r: string)
    ensures |r| >= |ls|
  {
    if ls == [] then [] else ls[0] + "\n" + JoinLines(ls[1..])
  }

  lemma {:induction false} JoinLinesAppend(a: seq<string>, b: seq<string>)
    ensures JoinLines(a + b) == JoinLines(a) + JoinLines(b)
    decreases |a|
  {
    if a != [] {
      assert (a + b)[1..] == a[1..] + b;
      JoinLinesAppend(a[1..], b);
    } else {
      assert a + b == b;
    }
  }

  lemma {:induction false} JoinLinesSnoc(ls: seq<string>, k: nat)
    requires k < |ls|
    ensures JoinLines(ls[..k + 1]) == JoinLines(ls[..k]) + ls[k] + "\n"
  {
    assert ls[..k + 1] == ls[..k] + [ls[k]];
    JoinLinesAppend(ls[..k], [ls[k]]);
    assert JoinLines([ls[k]]) == ls[k] + "\n" + JoinLines([]);
  }

  lemma {:induction false} LineEndAt(l: string, rest: string)
    requires forall i :: 0 <= i < |l| ==> l[i] != '\n'
    requires rest != [] && rest[0] == '\n'
    ensures LineEnd(l + rest) == |l|
    decreases |l|
  {
    if l != [] {
      assert (l + rest)[1..] == l[1..] + rest;
      LineEndAt(l[1..], rest);
    } else {
      assert l + rest == rest;
    }
  }

  /** Writing lines and reading them back gives the same lines, provided
      none holds a line feed or ends with a carriage return. */
  lemma {:induction false} LinesOfJoin(ls: seq<string>)
    requires forall k :: 0 <= k < |ls| ==> IsLine(ls[k])
    ensures Lines(JoinLines(ls)) == ls
    decreases |ls|
  {
    if ls != [] {
      var l := ls[0];
      var rest := JoinLines(ls[1..]);
      var s := JoinLines(ls);
      assert s == l + ("\n" + rest);
      LineEndAt(l, "\n" + rest);
      assert s[..|l|] == l;
      assert s[|l| + 1..] == rest;
      LinesOfJoin(ls[1..]);
      assert Lines(s) == [StripCr(l)] + Lines(rest);
    }
  }
}
