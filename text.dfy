/** String helpers the JavaScript code uses inline: `replace(/\D/g, "")`,
    number-to-string conversion, `padStart(2, "0")`, `trim()`, and the
    `split(...)` idioms that cut a URL apart. */
module Text {
  import opened Dates
  import opened Opt
  import Seqs

  predicate IsDigit(c: char) {
    '0' <= c <= '9'
  }

  predicate AllDigits(s: string) {
    forall i :: 0 <= i < |s| ==> IsDigit(s[i])
  }

  /** `String(s).replace(/\D/g, "")`: the ASCII digits of `s`, in order. */
  function DigitsOf(s: string): (r: string)
    ensures AllDigits(r)
    ensures Seqs.IsSubseq(r, s)
    ensures forall c :: IsDigit(c) ==> multiset(r)[c] == multiset(s)[c]
  {
    var r := Seqs.Filter(s, IsDigit);
    forall c | IsDigit(c) ensures multiset(r)[c] == multiset(s)[c] {
      Seqs.FilterCount(s, IsDigit, c);
    }
    r
  }

  /** Stripping non-digits twice is stripping them once. */
  lemma DigitsOfIdempotent(s: string)
    ensures DigitsOf(DigitsOf(s)) == DigitsOf(s)
  {
    Seqs.FilterKeepsAll(DigitsOf(s), IsDigit);
  }

  /** A string of digits is left as it is. */
  lemma DigitsOfDigits(s: string)
    requires AllDigits(s)
    ensures DigitsOf(s) == s
  {
    Seqs.FilterKeepsAll(s, IsDigit);
  }

  function DigitChar(n: nat): (c: char)
    requires n < 10
    ensures IsDigit(c)
  {
    "0123456789"[n]
  }

  function DigitValue(c: char): nat
    requires IsDigit(c)
  {
    (c as int) - ('0' as int)
  }

  /** The value of a string of decimal digits. */
  function ValueOf(s: string): nat
    requires AllDigits(s)
  {
    if s == [] then 0 else 10 * ValueOf(s[..|s| - 1]) + DigitValue(s[|s| - 1])
  }

  /** `String(n)` for a non-negative integer: no sign, no leading zero. */
  function NatToString(n: nat): (r: string)
    ensures r != [] && AllDigits(r)
    ensures ValueOf(r) == n
    ensures |r| > 1 ==> r[0] != '0'
  {
    if n < 10 then [DigitChar(n)]
    else
      var r := NatToString(n / 10) + [DigitChar(n % 10)];
      assert r[..|r| - 1] == NatToString(n / 10);
      r
  }

  /** One more digit for every further factor of ten. */
  lemma NatToStringLength(n: nat)
    ensures |NatToString(n)| == if n < 10 then 1 else |NatToString(n / 10)| + 1
  {
    if n >= 10 {
      assert NatToString(n) == NatToString(n / 10) + [DigitChar(n % 10)];
    }
  }

  /** `String(i)` (or `${i}`) for any integer. */
  function IntToString(i: int): string {
    if i < 0 then "-" + NatToString(-i) else NatToString(i)
  }

  /** `String(n).padStart(2, "0")` for 0 <= n < 100. */
  function Pad2(n: nat): (r: string)
    requires n < 100
    ensures |r| == 2 && AllDigits(r) && ValueOf(r) == n
  {
    if n < 10 then
      var r := "0" + NatToString(n);
      assert r[..1] == "0";
      r
    else
      assert NatToString(n) == NatToString(n / 10) + [DigitChar(n % 10)];
      NatToString(n)
  }

  /** The `${year}-${MM}-${DD}` layout with two-digit month and day. */
  function FormatYmd(y: int, m: nat, d: nat): (r: string)
    requires m < 100 && d < 100
  {
    IntToString(y) + "-" + Pad2(m) + "-" + Pad2(d)
  }

  /** Reads `YYYY-MM-DD` (any number of year digits, no sign) back into its
      three numbers; the layout an HTML date input produces. */
  function ParseYmd(s: string): Option<Date> {
    if |s| < 7 then None
    else
      var n := |s|;
      var year, month, day := s[..n - 6], s[n - 5..n - 3], s[n - 2..];
      if s[n - 6] == '-' && s[n - 3] == '-' && AllDigits(year) && AllDigits(month) && AllDigits(day)
      then Some(Date(ValueOf(year), ValueOf(month), ValueOf(day)))
      else None
  }

  /** Formatting a date with a non-negative year and parsing it back gives the
      date again. */
  lemma ParseFormatYmd(y: nat, m: nat, d: nat)
    requires m < 100 && d < 100
    ensures ParseYmd(FormatYmd(y, m, d)) == Some(Date(y, m, d))
  {
    var ys, ms, ds := NatToString(y), Pad2(m), Pad2(d);
    var s := FormatYmd(y, m, d);
    assert s == ys + "-" + ms + "-" + ds;
    var n := |s|;
    assert s[..n - 6] == ys;
    assert s[n - 5..n - 3] == ms;
    assert s[n - 2..] == ds;
  }

  /** The characters `String.prototype.trim` removes: ECMAScript WhiteSpace
      and LineTerminator code points. */
  predicate IsJsWhitespace(c: char) {
    c == '\t' || c == '\n' || c == '\U{000B}' || c == '\U{000C}' || c == '\r' || c == ' '
    || c == '\U{00A0}' || c == '\U{1680}' || ('\U{2000}' <= c <= '\U{200A}')
    || c == '\U{2028}' || c == '\U{2029}' || c == '\U{202F}' || c == '\U{205F}'
    || c == '\U{3000}' || c == '\U{FEFF}'
  }

  /** `s.trim() === ""`. */
  predicate IsBlank(s: string) {
    forall i :: 0 <= i < |s| ==> IsJsWhitespace(s[i])
  }

  /** A non-empty string of digits is not blank. */
  lemma DigitsNotBlank(s: string)
    requires AllDigits(s) && s != []
    ensures !IsBlank(s)
  {
    assert IsDigit(s[0]);
  }

  /** `s.includes(t)`. */
  predicate Contains(s: string, t: string) {
    exists i :: 0 <= i <= |s| && t <= s[i..]
  }

  /** Both texts placed between three others are contained in the whole. */
  lemma ContainsBoth(a: string, m1: string, b: string, m2: string, c: string)
    ensures Contains(a + m1 + b + m2 + c, m1)
    ensures Contains(a + m1 + b + m2 + c, m2)
  {
    var s := a + m1 + b + m2 + c;
    assert m1 <= s[|a|..];
    assert m2 <= s[|a + m1 + b|..];
  }

  /** Different middles between the same two texts make different wholes. */
  lemma MiddleDiffers(a: string, m0: string, m1: string, c: string)
    requires m0 != m1
    ensures a + m0 + c != a + m1 + c
  {
    if |m0| == |m1| {
      assert (a + m0 + c)[|a|..|a| + |m0|] == m0;
      assert (a + m1 + c)[|a|..|a| + |m1|] == m1;
    }
  }

  /** `s.split(c).pop()`: what follows the last `c` (all of `s` if it has none). */
  function AfterLast(s: string, c: char): (r: string)
    ensures c !in r
    ensures |r| <= |s|
  {
    if s == [] then []
    else if s[|s| - 1] == c then []
    else
      var r := AfterLast(s[..|s| - 1], c) + [s[|s| - 1]];
      r
  }

  /** `s.split(c)[0]`: what precedes the first `c` (all of `s` if it has none). */
  function BeforeFirst(s: string, c: char): (r: string)
    ensures c !in r
    ensures |r| <= |s|
  {
    if s == [] then []
    else if s[0] == c then []
    else [s[0]] + BeforeFirst(s[1..], c)
  }

  /** What follows the last `c` of `p + [c] + d`, for `d` without `c`, is `d`. */
  lemma {:induction false} AfterLastOfSuffix(p: string, c: char, d: string)
    requires forall i :: 0 <= i < |d| ==> d[i] != c
    ensures AfterLast(p + [c] + d, c) == d
    decreases |d|
  {
    if d == [] {
      assert (p + [c] + d)[|p + [c] + d| - 1] == c;
    } else {
      var s := p + [c] + d;
      var init := d[..|d| - 1];
      assert s[..|s| - 1] == p + [c] + init;
      AfterLastOfSuffix(p, c, init);
      assert init + [d[|d| - 1]] == d;
    }
  }

  /** What precedes the first `c` of `d + [c] + t`, for `d` without `c`, is `d`. */
  lemma {:induction false} BeforeFirstOfPrefix(d: string, c: char, t: string)
    requires forall i :: 0 <= i < |d| ==> d[i] != c
    ensures BeforeFirst(d + [c] + t, c) == d
    decreases |d|
  {
    var s := d + [c] + t;
    if d == [] {
      assert s[0] == c;
    } else {
      assert s[1..] == d[1..] + [c] + t;
      BeforeFirstOfPrefix(d[1..], c, t);
      assert [d[0]] + d[1..] == d;
    }
  }

  /** `AfterLast` is the part of `s` after its last `c`: a suffix of `s`,
      preceded in `s` by a `c` unless it is all of `s`. */
  lemma {:induction false} AfterLastIsSuffix(s: string, c: char)
    ensures var r := AfterLast(s, c);
      r == s[|s| - |r|..] && (r == s || s[|s| - |r| - 1] == c)
    decreases |s|
  {
    if s != [] && s[|s| - 1] != c {
      var init := s[..|s| - 1];
      AfterLastIsSuffix(init, c);
      var r0 := AfterLast(init, c);
      assert s[|s| - |r0| - 1..] == init[|init| - |r0|..] + [s[|s| - 1]];
      if r0 != init {
        assert s[|s| - |r0| - 2] == init[|init| - |r0| - 1];
      }
    }
  }

  /** `BeforeFirst` is the part of `s` before its first `c`: a prefix of
      `s`, followed in `s` by a `c` unless it is all of `s`. */
  lemma {:induction false} BeforeFirstIsPrefix(s: string, c: char)
    ensures var r := BeforeFirst(s, c);
      r <= s && (r == s || s[|r|] == c)
    decreases |s|
  {
    if s != [] && s[0] != c {
      BeforeFirstIsPrefix(s[1..], c);
      assert s == [s[0]] + s[1..];
    }
  }
}
