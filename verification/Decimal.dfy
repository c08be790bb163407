/** Decimal numerals: what %u, %d and %lld print, and what a reader makes of them. */
module Decimal {
  import opened Bytes

  predicate IsDigit(c: char)
  {
    '0' <= c <= '9'
  }

  function Digit(d: nat): (c: char)
    requires d < 10
    ensures IsDigit(c) && DigitValue(c) == d
  {
    ('0' as nat + d) as char
  }

  function DigitValue(c: char): nat
    requires IsDigit(c)
  {
    c as nat - '0' as nat
  }

  /** The shortest numeral of n. */
  function Dec(n: nat): (s: string)
    ensures |s| >= 1 && forall i :: 0 <= i < |s| ==> IsDigit(s[i])
  {
    if n < 10 then [Digit(n)] else Dec(n / 10) + [Digit(n % 10)]
  }

  /** The value of a string of digits. */
  function Value(s: string): nat
    requires forall i :: 0 <= i < |s| ==> IsDigit(s[i])
  {
    if |s| == 0 then 0 else Value(s[..|s| - 1]) * 10 + DigitValue(s[|s| - 1])
  }

  lemma {:induction false} ValueOfDec(n: nat)
    ensures Value(Dec(n)) == n
  {
    if n >= 10 {
      ValueOfDec(n / 10);
      assert Dec(n)[..|Dec(n)| - 1] == Dec(n / 10);
    } else {
      assert Dec(n)[..0] == "";
    }
  }

  function Pow10(k: nat): nat
  {
    if k == 0 then 1 else 10 * Pow10(k - 1)
  }

  lemma {:induction false} DecLength(n: nat, k: nat)
    requires 1 <= k && n < Pow10(k)
    ensures |Dec(n)| <= k
  {
    if n >= 10 {
      assert k > 1;
      DecLength(n / 10, k - 1);
    }
  }

  /** The numeral of a signed number. */
  function DecInt(n: int): string
  {
    if n < 0 then "-" + Dec(-n) else Dec(n)
  }

  function BoolText(b: bool): string
  {
    if b then "true" else "false"
  }

  /** The leading digits of a text. */
  function DigitCount(s: string): (k: nat)
    ensures k <= |s| && forall i :: 0 <= i < k ==> IsDigit(s[i])
  {
    if |s| > 0 && IsDigit(s[0]) then 1 + DigitCount(s[1..]) else 0
  }

  /** Reads a numeral off the front of a text. */
  function ReadNat(s: string): Option<(nat, string)>
  {
    var k := DigitCount(s);
    if k == 0 then None else Some((Value(s[..k]), s[k..]))
  }

  lemma {:induction false} DigitCountOf(d: string, t: string)
    requires forall i :: 0 <= i < |d| ==> IsDigit(d[i])
    requires |t| > 0 ==> !IsDigit(t[0])
    ensures DigitCount(d + t) == |d|
  {
    if |d| > 0 {
      DigitCountOf(d[1..], t);
      assert (d + t)[1..] == d[1..] + t;
    } else {
      assert d + t == t;
    }
  }

  /** Reading what was printed gives the number back, whatever non-digit follows. */
  lemma ReadDec(n: nat, t: string)
    requires |t| > 0 ==> !IsDigit(t[0])
    ensures ReadNat(Dec(n) + t) == Some((n, t))
  {
    DigitCountOf(Dec(n), t);
    ValueOfDec(n);
    assert (Dec(n) + t)[..|Dec(n)|] == Dec(n);
  }

  /** The digits of a Content-Length value, octet by octet. */
  function OctetValue(b: seq<byte>): nat
    requires forall i :: 0 <= i < |b| ==> 48 <= b[i] <= 57
  {
    if |b| == 0 then 0 else OctetValue(b[..|b| - 1]) * 10 + (b[|b| - 1] as nat - 48)
  }
}
