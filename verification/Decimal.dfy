/** Decimal printing and parsing of numbers in container names and node ids. */
module Decimal {
  import opened Wrappers

  predicate IsDigit(c: char) {
    '0' <= c <= '9'
  }

  function DigitChar(d: nat): (c: char)
    requires d < 10
    ensures IsDigit(c)
  {
    '0' + d as char
  }

  function DigitValue(c: char): nat
    requires IsDigit(c)
  {
    (c - '0') as nat
  }

  /** `format!("{n}")`. */
  function Dec(n: nat): (s: string)
    ensures s != "" && forall i :: 0 <= i < |s| ==> IsDigit(s[i])
  {
    if n < 10 then [DigitChar(n)] else Dec(n / 10) + [DigitChar(n % 10)]
  }

  const U64_MAX: nat := 0xffff_ffff_ffff_ffff

  function Digits(s: string): Option<nat> {
    if s == "" then Some(0)
    else
      var last := s[|s| - 1];
      match Digits(s[..|s| - 1])
      case None => None
      case Some(v) => if IsDigit(last) then Some(10 * v + DigitValue(last)) else None
  }

  /** `str::parse::<u64>`: an optional plus sign, at least one digit, no overflow. */
  function ParseU64(s: string): Option<nat> {
    var body := if s != "" && s[0] == '+' then s[1..] else s;
    if body == "" then None
    else
      match Digits(body)
      case None => None
      case Some(v) => if v <= U64_MAX then Some(v) else None
  }

  lemma {:induction false} DigitsOfDec(n: nat)
    ensures Digits(Dec(n)) == Some(n)
  {
    var s := Dec(n);
    if n < 10 {
      assert s[..0] == "";
    } else {
      DigitsOfDec(n / 10);
      assert s[..|s| - 1] == Dec(n / 10);
    }
  }

  /** Parsing a printed number gives it back, up to the u64 range. */
  lemma {:induction false} ParseOfDec(n: nat)
    ensures ParseU64(Dec(n)) == if n <= U64_MAX then Some(n) else None
  {
    DigitsOfDec(n);
    assert IsDigit(Dec(n)[0]);
  }

  lemma {:induction false} DecInjective(m: nat, n: nat)
    requires Dec(m) == Dec(n)
    ensures m == n
  {
    DigitsOfDec(m);
    DigitsOfDec(n);
  }

  /** Two words that agree and consist of digits up to a non-digit mark agree in both parts. */
  lemma {:induction false} DigitsThenMark(a: string, b: string, c: string, d: string)
    requires a + c == b + d && c != "" && d != "" && !IsDigit(c[0]) && !IsDigit(d[0])
    requires forall i :: 0 <= i < |a| ==> IsDigit(a[i])
    requires forall i :: 0 <= i < |b| ==> IsDigit(b[i])
    ensures a == b && c == d
  {
    assert (a + c)[|a|] == c[0];
    assert (b + d)[|b|] == d[0];
    assert |a| == |b|;
    assert a == (a + c)[..|a|] && b == (b + d)[..|b|];
    assert c == (a + c)[|a|..] && d == (b + d)[|b|..];
  }

  // ----- The last segment of a dashed name -----

  /** `s.rsplit('-').next()`: what follows the last dash. */
  function LastSegment(s: string): string {
    if s == "" || s[|s| - 1] == '-' then "" else LastSegment(s[..|s| - 1]) + [s[|s| - 1]]
  }

  lemma {:induction false} LastSegmentOf(prefix: string, tail: string)
    requires forall i :: 0 <= i < |tail| ==> tail[i] != '-'
    ensures LastSegment(prefix + "-" + tail) == tail
  {
    var s := prefix + "-" + tail;
    if tail != "" {
      LastSegmentOf(prefix, tail[..|tail| - 1]);
      assert s[..|s| - 1] == prefix + "-" + tail[..|tail| - 1];
      assert tail == tail[..|tail| - 1] + [tail[|tail| - 1]];
    }
  }
}
