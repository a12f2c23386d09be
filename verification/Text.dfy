/** Strings as C handles them: lines cut by a reader with a size limit, NUL-terminated text,
    and the decimal print / number scan pair that every message relies on. */
module Text {
  import opened Types

  // ---------- lines ----------

  /** What one call of a line reader with room for `limit` characters takes from s: up to and
      including the first newline, or `limit` characters, or everything. */
  function NextLine(s: string, limit: nat): (line: string)
    ensures line <= s
    ensures |line| <= limit
    ensures s != [] && limit > 0 ==> line != []
  {
    if s == [] || limit == 0 then []
    else if s[0] == '\n' then [s[0]]
    else [s[0]] + NextLine(s[1..], limit - 1)
  }

  /** The lines a reader with a positive limit takes from s, one call after another. */
  function Pieces(s: string, limit: nat): seq<string>
    requires limit > 0
    decreases |s|
  {
    if s == "" then [] else
      var line := NextLine(s, limit);
      [line] + Pieces(s[|line|..], limit)
  }

  function Join(pieces: seq<string>): string {
    if pieces == [] then "" else pieces[0] + Join(pieces[1..])
  }

  /** Reading by lines loses and invents nothing: the pieces put together are the stream, and
      each piece but the last ends at its only newline or at the size limit. */
  lemma {:induction false} PiecesLoseNothing(s: string, limit: nat)
    requires limit > 0
    ensures Join(Pieces(s, limit)) == s
    ensures forall i :: 0 <= i < |Pieces(s, limit)| ==>
      var p := Pieces(s, limit)[i];
      && 0 < |p| <= limit && '\n' !in p[..|p| - 1]
      && (i + 1 < |Pieces(s, limit)| ==> p[|p| - 1] == '\n' || |p| == limit)
    decreases |s|
  {
    hide NextLine;
    if s != "" {
      var line := NextLine(s, limit);
      var rest := s[|line|..];
      NextLineShape(s, limit);
      PiecesLoseNothing(rest, limit);
      assert s == line + rest;
      assert Pieces(s, limit) == [line] + Pieces(rest, limit);
      assert ([line] + Pieces(rest, limit))[1..] == Pieces(rest, limit);
    }
  }

  lemma {:induction false} NextLineShape(s: string, limit: nat)
    requires s != "" && limit > 0
    ensures var p := NextLine(s, limit);
      && '\n' !in p[..|p| - 1]
      && (|p| < |s| ==> p[|p| - 1] == '\n' || |p| == limit)
  {
    if s[0] != '\n' && |s| > 1 && limit > 1 {
      NextLineShape(s[1..], limit - 1);
      NextLineCons(s, limit);
      hide NextLine;
      var q := NextLine(s[1..], limit - 1);
      assert ([s[0]] + q)[..|q|] == [s[0]] + q[..|q| - 1];
    }
  }

  lemma NextLineCons(s: string, limit: nat)
    requires s != "" && limit > 0 && s[0] != '\n'
    ensures NextLine(s, limit) == [s[0]] + NextLine(s[1..], limit - 1)
  {
  }

  /** Reading continues where it stopped: a newline-free start is carried over. */
  lemma {:induction false} NextLineResumes(s: string, m: nat, limit: nat)
    requires m <= |s| && m <= limit && forall i :: 0 <= i < m ==> s[i] != '\n'
    ensures NextLine(s, limit) == s[..m] + NextLine(s[m..], limit - m)
    decreases m
  {
    hide NextLine;
    if m == 0 {
      assert s[0..] == s;
    } else {
      var t := s[1..];
      assert t[m - 1..] == s[m..];
      NextLineResumes(t, m - 1, limit - 1);
      NextLineCons(s, limit);
      assert s[..m] == [s[0]] + t[..m - 1];
    }
  }

  /** A newline within reach ends the line. */
  lemma {:induction false} NextLineEnds(body: string, rest: string, limit: nat)
    requires '\n' !in body && |body| < limit
    ensures NextLine(body + "\n" + rest, limit) == body + "\n"
  {
    var s := body + "\n" + rest;
    if body != [] {
      NextLineEnds(body[1..], rest, limit - 1);
      assert s[1..] == body[1..] + "\n" + rest;
    } else {
      assert s[0] == '\n';
    }
  }

  /** Without a newline within reach the size limit cuts the line. */
  lemma {:induction false} NextLineCut(body: string, rest: string)
    requires '\n' !in body
    ensures NextLine(body + rest, |body|) == body
  {
    if body != [] {
      NextLineCut(body[1..], rest);
      assert (body + rest)[1..] == body[1..] + rest;
    }
  }

  // ---------- NUL-terminated text and scanning ----------

  /** The text a C string function sees in s. */
  function CStr(s: string): (r: string)
    ensures r <= s && '\0' !in r
    ensures '\0' !in s ==> r == s
  {
    if s == [] || s[0] == '\0' then [] else [s[0]] + CStr(s[1..])
  }

  lemma {:induction false} CStrStops(s: string, k: nat)
    requires k < |s| && s[k] == '\0'
    ensures |CStr(s)| <= k
  {
    if k > 0 && s[0] != '\0' {
      CStrStops(s[1..], k - 1);
    }
  }

  predicate IsSpace(c: char) {
    c == ' ' || c == '\t' || c == '\n' || c == '\r' || c == 11 as char || c == 12 as char
  }

  function SkipSpace(s: string): (r: string)
    ensures |r| <= |s|
    ensures r == s[|s| - |r|..]
    ensures r != [] ==> !IsSpace(r[0])
  {
    if s != [] && IsSpace(s[0]) then SkipSpace(s[1..]) else s
  }

  /** The longest prefix of s without a character of `stops`. */
  function Until(s: string, stops: set<char>): (r: string)
    ensures r <= s
    ensures forall c :: c in r ==> c !in stops
    ensures |r| < |s| ==> s[|r|] in stops
  {
    if s == [] || s[0] in stops then [] else [s[0]] + Until(s[1..], stops)
  }

  lemma {:induction false} UntilStop(body: string, rest: string, stops: set<char>)
    requires forall c :: c in body ==> c !in stops
    requires rest == [] || rest[0] in stops
    ensures Until(body + rest, stops) == body
  {
    if body != [] {
      UntilStop(body[1..], rest, stops);
      assert (body + rest)[1..] == body[1..] + rest;
    } else {
      assert body + rest == rest;
    }
  }

  const SPACES: set<char> := {' ', '\t', '\n', '\r', 11 as char, 12 as char}

  // ---------- numbers ----------

  function DigitChar(d: nat): char
    requires d < 10
  {
    '0' + d as char
  }

  predicate AllDigits(s: string) {
    forall i :: 0 <= i < |s| ==> '0' <= s[i] <= '9'
  }

  /** Decimal text of a natural number, as %lu and %d print it. */
  function Dec(n: nat): (s: string)
    ensures s != [] && AllDigits(s)
    ensures n > 0 ==> s[0] != '0'
    ensures n == 0 ==> s == "0"
  {
    if n < 10 then [DigitChar(n)] else Dec(n / 10) + [DigitChar(n % 10)]
  }

  function IntText(v: int): (s: string)
    ensures s != [] && forall i :: 0 <= i < |s| ==> s[i] == '-' || '0' <= s[i] <= '9'
  {
    if v < 0 then "-" + Dec(-v) else Dec(v)
  }

  /** The value of c as a digit, or 99. */
  function DigitValue(c: char): nat {
    if '0' <= c <= '9' then (c as int) - ('0' as int)
    else if 'a' <= c <= 'f' then (c as int) - ('a' as int) + 10
    else if 'A' <= c <= 'F' then (c as int) - ('A' as int) + 10
    else 99
  }

  /** Number of leading digits of s in the given base. */
  function DigitCount(s: string, base: nat): (n: nat)
    ensures n <= |s|
  {
    if s == [] || DigitValue(s[0]) >= base then 0 else 1 + DigitCount(s[1..], base)
  }

  /** Value of the leading digits of s, continuing from acc. */
  function DigitsValue(s: string, base: nat, acc: nat): nat {
    if s == [] || DigitValue(s[0]) >= base then acc
    else DigitsValue(s[1..], base, acc * base + DigitValue(s[0]))
  }

  lemma {:induction false} DigitsValueConcat(a: string, b: string, acc: nat)
    requires AllDigits(a)
    ensures DigitsValue(a + b, 10, acc) == DigitsValue(b, 10, DigitsValue(a, 10, acc))
    ensures DigitCount(a + b, 10) == |a| + DigitCount(b, 10)
  {
    if a == [] {
      assert a + b == b;
    } else {
      assert (a + b)[1..] == a[1..] + b;
      DigitsValueConcat(a[1..], b, acc * 10 + DigitValue(a[0]));
    }
  }

  lemma {:induction false} DecValue(n: nat)
    ensures DigitsValue(Dec(n), 10, 0) == n
  {
    if n >= 10 {
      DecValue(n / 10);
      DigitsValueConcat(Dec(n / 10), [DigitChar(n % 10)], 0);
    }
  }

  /** Reading back printed digits stops where they end and recovers the number. */
  lemma DecReadBack(n: nat, rest: string)
    requires rest == [] || DigitValue(rest[0]) >= 10
    ensures DigitsValue(Dec(n) + rest, 10, 0) == n
    ensures DigitCount(Dec(n) + rest, 10) == |Dec(n)|
  {
    DecValue(n);
    DigitsValueConcat(Dec(n), rest, 0);
  }

  const ULONG_MAX: nat := 0xFFFF_FFFF_FFFF_FFFF
  const LONG_MAX: int := 0x7FFF_FFFF_FFFF_FFFF
  const LONG_MIN: int := -0x8000_0000_0000_0000

  function AfterSign(t: string): string {
    if t != [] && (t[0] == '-' || t[0] == '+') then t[1..] else t
  }

  function SignedULong(t: string): nat {
    var v := DigitsValue(AfterSign(t), 10, 0);
    if v > ULONG_MAX then ULONG_MAX
    else if t != [] && t[0] == '-' then (ULONG_MAX + 1 - v) % (ULONG_MAX + 1)
    else v
  }

  /** strtoull with base 10 (also the value %lu stores): an overflow saturates, a minus sign
      negates modulo 2^64. */
  function StrToULong(s: string): nat {
    SignedULong(SkipSpace(s))
  }

  /** Whether strtoull or %lu finds a number in s. */
  predicate HasNumber(s: string) {
    DigitCount(AfterSign(SkipSpace(s)), 10) > 0
  }

  lemma StrToULongDec(n: nat, rest: string)
    requires n <= ULONG_MAX
    requires rest == [] || DigitValue(rest[0]) >= 10
    ensures StrToULong(Dec(n) + rest) == n && HasNumber(Dec(n) + rest)
  {
    DecReadBack(n, rest);
    DigitsReadBack(Dec(n) + rest);
  }

  lemma DigitsReadBack(s: string)
    requires s != "" && '0' <= s[0] <= '9'
    requires DigitsValue(s, 10, 0) <= ULONG_MAX
    ensures StrToULong(s) == DigitsValue(s, 10, 0) && HasNumber(s)
  {
    hide DigitsValue;
    assert SkipSpace(s) == s;
    assert DigitCount(s, 10) > 0;
  }

  /** The unsigned part of strtol with base 0: magnitude and number of characters used. */
  function Magnitude0(u: string): (r: (nat, nat))
    ensures r.1 <= |u|
  {
    if |u| >= 3 && u[0] == '0' && (u[1] == 'x' || u[1] == 'X') && DigitValue(u[2]) < 16
    then (DigitsValue(u[2..], 16, 0), 2 + DigitCount(u[2..], 16))
    else
      var base := if u != [] && u[0] == '0' then 8 else 10;
      (DigitsValue(u, base, 0), DigitCount(u, base))
  }

  function ClampLong(v: int): int {
    if v > LONG_MAX then LONG_MAX else if v < LONG_MIN then LONG_MIN else v
  }

  /** strtol with base 0: the value and what follows the number. */
  function StrToLong0(s: string): (int, string) {
    var t := SkipSpace(s);
    if t != [] && (t[0] == '-' || t[0] == '+') then
      var (m, k) := Magnitude0(t[1..]);
      if k == 0 then (0, s) else (ClampLong(if t[0] == '-' then -(m as int) else m), t[1..][k..])
    else
      var (m, k) := Magnitude0(t);
      if k == 0 then (0, s) else (ClampLong(m), t[k..])
  }

  /** Conversion of a long to a 32-bit int. */
  function Int32(v: int): int {
    (v + 0x8000_0000) % 0x1_0000_0000 - 0x8000_0000
  }

  /** str_to_int: fails on LONG_MIN or on trailing characters. */
  function StrToInt(s: string): Option<int> {
    var (v, rest) := StrToLong0(s);
    if v == LONG_MIN || rest != [] then None else Some(Int32(v))
  }

  lemma MagnitudeReadBack(n: nat)
    ensures Magnitude0(Dec(n)) == (n, |Dec(n)|)
  {
    if n == 0 {
      assert Dec(n) == "0";
      assert DigitCount("0", 8) == 1 + DigitCount([], 8);
      assert DigitsValue("0", 8, 0) == DigitsValue([], 8, 0);
    } else {
      DecReadBack(n, []);
      assert Dec(n) + [] == Dec(n);
    }
  }

  lemma StrToLongSigned(d: string, m: nat)
    requires d != [] && '0' <= d[0] <= '9'
    requires Magnitude0(d) == (m, |d|)
    ensures StrToLong0(d) == (ClampLong(m), "")
    ensures StrToLong0("-" + d) == (ClampLong(-(m as int)), "")
  {
    hide Magnitude0, ClampLong;
    assert SkipSpace(d) == d && d[|d|..] == "";
    var s := "-" + d;
    assert s[0] == '-' && s[1..] == d;
    assert SkipSpace(s) == s;
  }

  /** A printed long survives print and base-0 scan: no leading zero is ever printed, so the
      scan never leaves base 10. Only LONG_MIN is refused; the rest is cut to 32 bits. */
  lemma StrToIntReadBack(v: int)
    requires LONG_MIN <= v <= LONG_MAX
    ensures StrToInt(IntText(v)) == if v == LONG_MIN then None else Some(Int32(v))
  {
    hide Dec;
    var n: nat := if v < 0 then -v else v;
    MagnitudeReadBack(n);
    StrToLongSigned(Dec(n), n);
  }

  // ---------- lengths ----------

  function Pow10(k: nat): nat {
    if k == 0 then 1 else 10 * Pow10(k - 1)
  }

  lemma {:induction false} DecShortPow(n: nat, k: nat)
    requires k > 0 && n < Pow10(k)
    ensures |Dec(n)| <= k
  {
    if n >= 10 {
      DecShortPow(n / 10, k - 1);
    }
  }

  lemma PowSteps()
    ensures Pow10(10) == 10_000_000_000 && Pow10(20) > ULONG_MAX
  {
    forall j: nat ensures Pow10(j + 5) == 100_000 * Pow10(j) {
      assert Pow10(j + 5) == 10 * Pow10(j + 4) && Pow10(j + 4) == 10 * Pow10(j + 3);
      assert Pow10(j + 3) == 10 * Pow10(j + 2) && Pow10(j + 2) == 10 * Pow10(j + 1);
    }
    assert Pow10(0 + 5) == 100_000 && Pow10(5 + 5) == 10_000_000_000;
    assert Pow10(10 + 5) == 1_000_000_000_000_000 && Pow10(15 + 5) == 100_000_000_000_000_000_000;
  }

  lemma DecShort(n: nat, k: nat)
    requires (k == 20 && n <= ULONG_MAX) || (k == 10 && n <= 0x8000_0000)
    ensures |Dec(n)| <= k
  {
    PowSteps();
    DecShortPow(n, k);
  }

  /** A printed long has at most 21 characters. */
  lemma IntTextShort(v: int)
    requires LONG_MIN <= v <= LONG_MAX
    ensures |IntText(v)| <= 21
  {
    DecShort(if v < 0 then -v else v, 20);
    hide Dec;
  }
}
