/**
 * The fingerprint under which the timeout scan records a run it has queued:
 * Python's `"%d:%d" % (run.id, epoch)`, i.e. both integers written in decimal
 * (with a leading '-' when negative) and joined by a colon. The point of the
 * module is that the fingerprint is injective: two runs share a fingerprint
 * only when they have the same id and the same timeout.
 */
module Fingerprints {

  predicate IsDigit(c: char)
  {
    '0' <= c <= '9'
  }

  function DigitChar(d: nat): (c: char)
    requires d < 10
    ensures IsDigit(c)
  {
    (48 + d) as char
  }

  function DigitValue(c: char): nat
    requires IsDigit(c)
  {
    (c as int) - 48
  }

  predicate AllDigits(s: string)
  {
    forall i :: 0 <= i < |s| ==> IsDigit(s[i])
  }

  /** The decimal digits of `n`, most significant first, without leading zeros. */
  function Decimal(n: nat): (s: string)
    ensures |s| > 0 && AllDigits(s)
    decreases n
  {
    if n < 10 then [DigitChar(n)] else Decimal(n / 10) + [DigitChar(n % 10)]
  }

  /** Reads a string of decimal digits back as a number. */
  function DecimalValue(s: string): nat
    requires AllDigits(s)
    decreases |s|
  {
    if s == [] then 0 else 10 * DecimalValue(s[..|s| - 1]) + DigitValue(s[|s| - 1])
  }

  lemma {:induction false} DecimalRoundTrip(n: nat)
    ensures DecimalValue(Decimal(n)) == n
    decreases n
  {
    if n >= 10 {
      var s := Decimal(n);
      assert s[..|s| - 1] == Decimal(n / 10);
      DecimalRoundTrip(n / 10);
    }
  }

  /** `"%d" % i`. */
  function IntString(i: int): (s: string)
    ensures |s| > 0
    ensures forall k :: 0 <= k < |s| ==> s[k] != ':'
  {
    if i < 0 then "-" + Decimal(-i) else Decimal(i)
  }

  lemma IntStringInjective(a: int, b: int)
    requires IntString(a) == IntString(b)
    ensures a == b
  {
    var s := IntString(a);
    assert (s[0] == '-') == (a < 0);
    assert (s[0] == '-') == (b < 0);
    if a < 0 {
      assert Decimal(-a) == s[1..] == Decimal(-b);
      DecimalRoundTrip(-a);
      DecimalRoundTrip(-b);
    } else {
      assert Decimal(a) == Decimal(b);
      DecimalRoundTrip(a);
      DecimalRoundTrip(b);
    }
  }

  /** `"%d:%d" % (id, epoch)`. */
  function Fingerprint(id: int, epoch: int): string
  {
    IntString(id) + ":" + IntString(epoch)
  }

  /** The run id and the timeout can be read back from a fingerprint. */
  lemma FingerprintInjective(a: int, x: int, b: int, y: int)
    requires Fingerprint(a, x) == Fingerprint(b, y)
    ensures a == b && x == y
  {
    var p, q := IntString(a), IntString(b);
    var f := Fingerprint(a, x);
    var g := Fingerprint(b, y);
    assert f[|p|] == ':' && g[|q|] == ':';
    assert forall k :: 0 <= k < |p| ==> f[k] != ':';
    assert forall k :: 0 <= k < |q| ==> g[k] != ':';
    assert |p| == |q|;
    assert p == f[..|p|] == q;
    IntStringInjective(a, b);
    assert IntString(x) == f[|p| + 1..] == IntString(y);
    IntStringInjective(x, y);
  }
}
