/**
 * Decimal text for integers, as JavaScript produces it with `String(n)`,
 * `n.toString()` and `padStart(width, "0")`, together with the digit-string
 * reading used to state round trips of the time formatters.
 */
module Decimal {

  import opened Wrappers

  predicate IsDigit(c: char) {
    '0' <= c <= '9'
  }

  predicate AllDigits(s: string) {
    forall i :: 0 <= i < |s| ==> IsDigit(s[i])
  }

  function DigitChar(d: nat): (c: char)
    requires d < 10
    ensures IsDigit(c) && c as int - '0' as int == d
  {
    ('0' as int + d) as char
  }

  function DigitValue(c: char): nat
    requires IsDigit(c)
  {
    c as int - '0' as int
  }

  /** Decimal digits of a natural number, most significant first, no leading zero. */
  function NatToString(n: nat): (s: string)
    ensures 1 <= |s| && AllDigits(s)
    ensures n < 10 ==> |s| == 1
    ensures n < 100 ==> |s| <= 2
    ensures n < 1000 ==> |s| <= 3
    ensures n >= 10 ==> s[0] != '0'
  {
    if n < 10 then [DigitChar(n)] else NatToString(n / 10) + [DigitChar(n % 10)]
  }

  /** JavaScript's rendering of an integral Number: a minus sign, then the digits of its magnitude. */
  function IntToString(i: int): (s: string)
    ensures 1 <= |s|
    ensures s[0] == '-' <==> i < 0
    ensures i < 0 ==> AllDigits(s[1..])
    ensures i >= 0 ==> AllDigits(s)
  {
    if i < 0 then
      var d := NatToString(-i);
      assert ("-" + d)[1..] == d;
      "-" + d
    else
      NatToString(i)
  }

  /** The digits after the optional minus sign read back as the magnitude. */
  lemma IntToStringValue(i: int)
    ensures i < 0 ==> DigitsValue(IntToString(i)[1..]) == -i
    ensures i >= 0 ==> DigitsValue(IntToString(i)) == i
  {
    if i < 0 {
      var d := NatToString(-i);
      assert IntToString(i) == "-" + d;
      assert IntToString(i)[1..] == d;
      NatToStringValue(-i);
    } else {
      NatToStringValue(i);
    }
  }

  function Zeros(k: nat): (z: string)
    ensures |z| == k && forall i :: 0 <= i < k ==> z[i] == '0'
  {
    if k == 0 then [] else Zeros(k - 1) + "0"
  }

  /** `s.padStart(width, "0")`: zeros in front of the whole string until it is `width` long. */
  function PadStart(s: string, width: nat): (r: string)
    ensures |r| == if |s| >= width then |s| else width
    ensures r[|r| - |s|..] == s
    ensures forall i :: 0 <= i < |r| - |s| ==> r[i] == '0'
  {
    if |s| >= width then s else Zeros(width - |s|) + s
  }

  /** The number a digit string denotes (leading zeros allowed). */
  function DigitsValue(s: string): nat
    requires AllDigits(s)
  {
    if s == [] then 0 else DigitsValue(s[..|s| - 1]) * 10 + DigitValue(s[|s| - 1])
  }

  /** Reading back the digits of `n` gives `n`. */
  lemma {:induction false} NatToStringValue(n: nat)
    ensures DigitsValue(NatToString(n)) == n
  {
    var s := NatToString(n);
    if n >= 10 {
      NatToStringValue(n / 10);
      assert s[..|s| - 1] == NatToString(n / 10);
    }
  }

  /** Leading zeros do not change the value a digit string denotes. */
  lemma {:induction false} LeadingZerosValue(k: nat, s: string)
    requires AllDigits(s)
    ensures AllDigits(Zeros(k) + s) && DigitsValue(Zeros(k) + s) == DigitsValue(s)
  {
    var t := Zeros(k) + s;
    if s == [] {
      ZerosValue(k);
      assert t == Zeros(k);
    } else {
      LeadingZerosValue(k, s[..|s| - 1]);
      assert t[..|t| - 1] == Zeros(k) + s[..|s| - 1];
    }
  }

  lemma {:induction false} ZerosValue(k: nat)
    ensures AllDigits(Zeros(k)) && DigitsValue(Zeros(k)) == 0
  {
    if k > 0 {
      ZerosValue(k - 1);
      assert Zeros(k)[..k - 1] == Zeros(k - 1);
    }
  }

  /**
   * A natural number below 10^width, padded to `width`, is exactly `width`
   * digits long and still reads back as itself.
   */
  lemma PaddedNat(n: nat, width: nat)
    requires 1 <= width <= 3
    requires width == 1 ==> n < 10
    requires width == 2 ==> n < 100
    requires width == 3 ==> n < 1000
    ensures |PadStart(NatToString(n), width)| == width
    ensures AllDigits(PadStart(NatToString(n), width))
    ensures DigitsValue(PadStart(NatToString(n), width)) == n
  {
    var s := NatToString(n);
    NatToStringValue(n);
    assert |s| <= width;
    if |s| < width {
      LeadingZerosValue(width - |s|, s);
      assert PadStart(s, width) == Zeros(width - |s|) + s;
    } else {
      assert PadStart(s, width) == s;
    }
  }

  /** JavaScript's `%`: the remainder takes the sign of the dividend. */
  function JsRem(a: int, b: int): (r: int)
    requires b > 0
    ensures -b < r < b
    ensures a >= 0 ==> r >= 0
    ensures a < 0 ==> r <= 0
    ensures a >= 0 || a % b == 0 ==> r == a % b
    ensures a < 0 && a % b != 0 ==> r == a % b - b
  {
    if a >= 0 then a % b
    else
      NegatedRemainder(a, b);
      -((-a) % b)
  }

  /** The remainder of `-a` against Dafny's remainder of a negative `a`. */
  lemma NegatedRemainder(a: int, b: int)
    requires a < 0 && b > 0
    ensures (-a) % b == 0 ==> a % b == 0
    ensures (-a) % b != 0 ==> a % b == b - (-a) % b
  {
    var q, m := (-a) / b, (-a) % b;
    assert a == -q * b - m;
    if m == 0 {
      UniqueRemainder(a, b, -q, 0);
    } else {
      assert a == (-q - 1) * b + (b - m);
      UniqueRemainder(a, b, -q - 1, b - m);
    }
  }

  /** Dafny's `%` is the remainder in [0, b) of any decomposition a == k * b + r. */
  lemma UniqueRemainder(a: int, b: int, k: int, r: int)
    requires b > 0 && 0 <= r < b && a == k * b + r
    ensures a % b == r
  {
    var k', r' := a / b, a % b;
    assert a == k' * b + r';
    assert (k - k') * b == r' - r;
    SmallMultiple(k - k', b, r' - r);
  }

  /** The only multiple of `b` strictly between -b and b is 0. */
  lemma SmallMultiple(d: int, b: int, x: int)
    requires b > 0 && -b < x < b && d * b == x
    ensures d == 0
  {
    if d >= 1 {
      MultipleAtLeast(d, b);
    } else if d <= -1 {
      MultipleAtLeast(-d, b);
    }
  }

  lemma {:induction false} MultipleAtLeast(d: int, b: int)
    requires d >= 1 && b > 0
    ensures d * b >= b
  {
    if d > 1 {
      MultipleAtLeast(d - 1, b);
      assert d * b == (d - 1) * b + b;
    }
  }

  /** A digit string's value; None for anything else. */
  function ParseDigits(s: string): Option<nat> {
    if AllDigits(s) then Some(DigitsValue(s)) else None
  }

  /** Whole seconds below 60, as milliseconds. */
  function ParseSeconds(s: string): Option<int> {
    match ParseDigits(s)
    case Some(v) => if s != [] && v < 60 then Some(v * 1000) else None
    case None => None
  }

  /** `M:SS` (any number of minute digits, exactly two second digits), as milliseconds. */
  function ParseMinSec(head: string): Option<int> {
    if |head| >= 4 && head[|head| - 3] == ':' then
      match (ParseDigits(head[..|head| - 3]), ParseSeconds(head[|head| - 2..]))
      case (Some(m), Some(secs)) => Some(m * 60000 + secs)
      case _ => None
    else None
  }

  /** Minutes, a colon and two second digits below 60 read back as their milliseconds. */
  lemma {:induction false} ParseMinSecOf(a: string, b: string)
    requires 1 <= |a| && AllDigits(a)
    requires |b| == 2 && AllDigits(b) && DigitsValue(b) < 60
    ensures ParseMinSec(a + ":" + b) == Some(DigitsValue(a) * 60000 + DigitsValue(b) * 1000)
  {
    var head := a + ":" + b;
    assert |head| == |a| + 3 && head[|head| - 3] == ':';
    assert head[..|head| - 3] == a;
    assert head[|head| - 2..] == b;
  }

}
