/** The gigabyte threshold field: a decimal text is read as an exact number of bytes and printed
    back. */
module Gigabytes {
  import opened Wrappers
  import opened Decimal

  const BYTES_PER_GIGABYTE: nat := 1000000000
  const MAX_SAFE_BYTES: nat := 9007199254740991

  datatype Fault = NotANumber | TooPrecise | NotPositive | TooLarge

  // ---------------------------------------------------------------- digits

  function Pow10(n: nat): (p: nat)
    ensures p > 0
  {
    if n == 0 then 1 else 10 * Pow10(n - 1)
  }

  function DigitChar(d: nat): (c: char)
    requires d < 10
    ensures IsDigit(c) && c as int - '0' as int == d
  {
    ('0' as int + d) as char
  }

  function Digits(n: nat): (s: string)
    ensures |s| > 0 && AllDigits(s)
  {
    if n < 10 then [DigitChar(n)] else Digits(n / 10) + [DigitChar(n % 10)]
  }

  function Zeros(n: nat): (s: string)
    ensures |s| == n && AllDigits(s)
  {
    if n == 0 then "" else Zeros(n - 1) + "0"
  }

  // ---------------------------------------------------------------- parsing

  /** The white space that ECMAScript trims. */
  predicate IsSpace(c: char) {
    var code := c as int;
    || 9 <= code <= 13 || code == 0x20 || code == 0xA0 || code == 0x1680 || 0x2000 <= code <= 0x200A
    || code == 0x2028 || code == 0x2029 || code == 0x202F || code == 0x205F || code == 0x3000 || code == 0xFEFF
  }

  function Trim(s: string): (t: string)
    ensures t == "" || (!IsSpace(t[0]) && !IsSpace(t[|t| - 1]))
    ensures s != "" && !IsSpace(s[0]) && !IsSpace(s[|s| - 1]) ==> t == s
  {
    if s == "" then s
    else if IsSpace(s[0]) then Trim(s[1..])
    else if IsSpace(s[|s| - 1]) then Trim(s[..|s| - 1])
    else s
  }

  /** Position of the first point, or the length. */
  function Point(s: string): (k: nat)
    ensures k <= |s| && (forall i :: 0 <= i < k ==> s[i] != '.') && (k < |s| ==> s[k] == '.')
  {
    if s == "" || s[0] == '.' then 0 else 1 + Point(s[1..])
  }

  function Whole(s: string): string {
    s[..Point(s)]
  }

  function Fraction(s: string): string {
    if Point(s) < |s| then s[Point(s) + 1..] else ""
  }

  /** Digits, optionally a point and more digits. */
  predicate WellFormed(s: string) {
    && |Whole(s)| > 0 && AllDigits(Whole(s)) && AllDigits(Fraction(s))
    && (Point(s) < |s| ==> |Fraction(s)| > 0)
  }

  function Nine(fraction: string): (s: string)
    requires AllDigits(fraction)
    ensures |s| == 9 && AllDigits(s)
  {
    ((if |fraction| > 9 then fraction[..9] else fraction) + Zeros(9))[..9]
  }

  function ParseGigabytes(raw: string): Result<Option<nat>, Fault> {
    var value := Trim(raw);
    if value == "" then Ok(None)
    else if !WellFormed(value) then Err(NotANumber)
    else
      var fraction := Fraction(value);
      if |fraction| > 9 && exists i :: 9 <= i < |fraction| && fraction[i] != '0' then Err(TooPrecise)
      else
        var bytes := DecimalValue(Whole(value)) * BYTES_PER_GIGABYTE + DecimalValue(Nine(fraction));
        if bytes <= 0 then Err(NotPositive) else if bytes > MAX_SAFE_BYTES then Err(TooLarge) else Ok(Some(bytes))
  }

  // ---------------------------------------------------------------- printing

  function StripZeros(s: string): (t: string)
    requires AllDigits(s)
    ensures |t| <= |s| && t == s[..|t|] && AllDigits(t) && (forall i :: |t| <= i < |s| ==> s[i] == '0')
  {
    if s == "" || s[|s| - 1] != '0' then s else StripZeros(s[..|s| - 1])
  }

  function PadStart(s: string, n: nat): (t: string)
    requires AllDigits(s) && |s| <= n
    ensures |t| == n && AllDigits(t)
  {
    Zeros(n - |s|) + s
  }

  lemma {:induction false} DigitsFit(n: nat, k: nat)
    requires 0 < k && n < Pow10(k)
    ensures |Digits(n)| <= k
  {
    if n >= 10 {
      DigitsFit(n / 10, k - 1);
    }
  }

  function FractionOf(bytes: nat): string {
    var rest := bytes % BYTES_PER_GIGABYTE;
    assert Pow10(9) == BYTES_PER_GIGABYTE;
    DigitsFit(rest, 9);
    StripZeros(PadStart(Digits(rest), 9))
  }

  function DecimalGigabytes(bytes: nat): string {
    var whole, fraction := Digits(bytes / BYTES_PER_GIGABYTE), FractionOf(bytes);
    if fraction == "" then whole else whole + "." + fraction
  }

  // ---------------------------------------------------------------- arithmetic of digits

  lemma {:induction false} PowAdd(a: nat, b: nat)
    ensures Pow10(a + b) == Pow10(a) * Pow10(b)
  {
    if b > 0 {
      PowAdd(a, b - 1);
    }
  }

  lemma {:induction false} NumberJoins(a: string, b: string)
    requires AllDigits(a) && AllDigits(b)
    ensures AllDigits(a + b) && DecimalValue(a + b) == DecimalValue(a) * Pow10(|b|) + DecimalValue(b)
  {
    if b == "" {
      assert a + b == a;
    } else {
      var front, p := b[..|b| - 1], Pow10(|b| - 1);
      NumberJoins(a, front);
      assert (a + b)[..|a + b| - 1] == a + front;
      Regroup(DecimalValue(a), p, 10);
    }
  }

  lemma Regroup(x: int, y: int, z: int)
    ensures x * y * z == x * (z * y) == (x * z) * y
  {
  }

  lemma Distribute(x: int, y: int, z: int)
    ensures (x + y) * z == x * z + y * z
  {
  }

  lemma {:induction false} NumberBelow(s: string)
    requires AllDigits(s)
    ensures DecimalValue(s) < Pow10(|s|)
  {
    if s != "" {
      NumberBelow(s[..|s| - 1]);
    }
  }

  lemma {:induction false} NumberOfDigits(n: nat)
    ensures DecimalValue(Digits(n)) == n
  {
    if n < 10 {
      assert Digits(n)[..0] == "";
    } else {
      NumberOfDigits(n / 10);
      assert Digits(n)[..|Digits(n)| - 1] == Digits(n / 10);
    }
  }

  lemma {:induction false} ZeroIffZeros(s: string)
    requires AllDigits(s)
    ensures DecimalValue(s) == 0 <==> forall i :: 0 <= i < |s| ==> s[i] == '0'
  {
    if s != "" {
      ZeroIffZeros(s[..|s| - 1]);
    }
  }

  // ---------------------------------------------------------------- exactness

  /** `bytes` is exactly the written value times 10^9: the text without its point, scaled. */
  predicate IsExactly(bytes: nat, whole: string, fraction: string)
    requires AllDigits(whole) && AllDigits(fraction)
  {
    NumberJoins(whole, fraction);
    bytes * Pow10(|fraction|) == DecimalValue(whole + fraction) * BYTES_PER_GIGABYTE
  }

  lemma Cancel(a: int, b: int, c: int)
    requires c > 0
    ensures a * c == b * c <==> a == b
  {
    Distribute(a - b, b, c);
    if a > b {
      AtLeast(a - b, c);
    } else if a < b {
      AtLeast(b - a, c);
      Distribute(b - a, a, c);
    }
  }

  lemma AtLeast(d: int, q: int)
    requires d >= 1 && q >= 0
    ensures d * q >= q
  {
  }

  lemma {:induction false} NineIsScaled(fraction: string)
    requires AllDigits(fraction) && |fraction| <= 9
    ensures DecimalValue(Nine(fraction)) == DecimalValue(fraction) * Pow10(9 - |fraction|)
  {
    hide DecimalValue, Pow10, Zeros;
    var rest := 9 - |fraction|;
    ZerosPrefix(9, rest);
    assert Nine(fraction) == fraction + Zeros(rest);
    NumberJoins(fraction, Zeros(rest));
    ZerosAreZeros(rest);
    ZeroIffZeros(Zeros(rest));
  }

  lemma ShortSum(bytes: int, w: int, f: int, p: int, q: int)
    requires p > 0
    ensures bytes * p == (w * p + f) * (p * q) <==> bytes == w * (p * q) + f * q
  {
    var g := p * q;
    Distribute(w * p, f, g);
    Regroup(w, p, g);
    Regroup(f, p, q);
    Distribute(w * g, f * q, p);
    Cancel(bytes, w * g + f * q, p);
  }

  /** Up to nine decimals there is exactly one such number, the one computed. */
  lemma {:induction false} ShortIsExact(bytes: nat, whole: string, fraction: string)
    requires AllDigits(whole) && AllDigits(fraction) && |fraction| <= 9
    ensures IsExactly(bytes, whole, fraction) <==>
        bytes == DecimalValue(whole) * BYTES_PER_GIGABYTE + DecimalValue(Nine(fraction))
  {
    hide DecimalValue, Pow10, Nine;
    NumberJoins(whole, fraction);
    NineIsScaled(fraction);
    PowAdd(|fraction|, 9 - |fraction|);
    NinePower();
    ShortSum(bytes, DecimalValue(whole), DecimalValue(fraction), Pow10(|fraction|), Pow10(9 - |fraction|));
  }

  lemma NinePower()
    ensures Pow10(9) == BYTES_PER_GIGABYTE
  {
  }

  lemma {:induction false} ZerosAreZeros(n: nat)
    ensures forall i :: 0 <= i < n ==> Zeros(n)[i] == '0'
  {
    if n > 0 {
      ZerosAreZeros(n - 1);
    }
  }

  lemma {:induction false} ZerosPrefix(n: nat, k: nat)
    requires k <= n
    ensures Zeros(n)[..k] == Zeros(k)
  {
    if k < n {
      ZerosPrefix(n - 1, k);
      assert Zeros(n)[..k] == Zeros(n - 1)[..k];
    }
  }

  lemma LongSum(bytes: int, w: int, h: int, t: int, q: int, g: int, p: int, n: int)
    requires 0 <= t < q && g > 0 && p == g * q && n == w * p + (h * q + t)
    ensures bytes * p == n * g <==> bytes == w * g + h && t == 0
  {
    Regroup(bytes, q, g);
    Regroup(w, g, q);
    Distribute(w * g, h, q);
    assert w * (g * q) + (h * q + t) == (w * g + h) * q + t;
    Cancel(bytes * q, (w * g + h) * q + t, g);
    Remainder(bytes, w * g + h, q, t);
  }

  lemma Remainder(a: int, b: int, q: int, t: int)
    requires 0 <= t < q
    ensures a * q == b * q + t <==> a == b && t == 0
  {
    Distribute(a - b, b, q);
    Distribute(b - a, a, q);
    if a > b {
      AtLeast(a - b, q);
    } else if a < b {
      AtLeast(b - a, q);
    }
  }

  /** Beyond nine decimals an exact number of bytes exists only when the rest is zeros. */
  lemma {:induction false} LongIsExact(bytes: nat, whole: string, fraction: string)
    requires AllDigits(whole) && AllDigits(fraction) && |fraction| > 9
    ensures IsExactly(bytes, whole, fraction) <==>
              && (forall i :: 9 <= i < |fraction| ==> fraction[i] == '0')
              && bytes == DecimalValue(whole) * BYTES_PER_GIGABYTE + DecimalValue(Nine(fraction))
  {
    hide DecimalValue, Pow10, Zeros;
    var head, tail := fraction[..9], fraction[9..];
    assert fraction == head + tail;
    assert Nine(fraction) == head;
    NumberJoins(whole, fraction);
    NumberJoins(head, tail);
    NumberBelow(tail);
    ZeroIffZeros(tail);
    TailZeros(fraction);
    PowAdd(9, |tail|);
    NinePower();
    LongSum(bytes, DecimalValue(whole), DecimalValue(head), DecimalValue(tail), Pow10(|tail|), Pow10(9),
        Pow10(|fraction|), DecimalValue(whole + fraction));
  }

  lemma TailZeros(fraction: string)
    requires |fraction| > 9
    ensures (forall i :: 0 <= i < |fraction[9..]| ==> fraction[9..][i] == '0') <==>
        (forall i :: 9 <= i < |fraction| ==> fraction[i] == '0')
  {
    assert forall i :: 9 <= i < |fraction| ==> fraction[i] == fraction[9..][i - 9];
  }

  /** A number of bytes is accepted exactly when the text is well formed, the number is positive
      and safe, and it is the written value times 10^9 with nothing rounded. */
  lemma {:induction false} ParsesExactly(raw: string, bytes: nat)
    ensures ParseGigabytes(raw) == Ok(Some(bytes)) <==>
              var value := Trim(raw);
              && WellFormed(value) && 1 <= bytes <= MAX_SAFE_BYTES
              && IsExactly(bytes, Whole(value), Fraction(value))
  {
    hide DecimalValue, Pow10, Nine, IsExactly, Trim;
    var value := Trim(raw);
    if value != "" && WellFormed(value) {
      if |Fraction(value)| <= 9 {
        ShortIsExact(bytes, Whole(value), Fraction(value));
      } else {
        LongIsExact(bytes, Whole(value), Fraction(value));
      }
    }
  }

  // ---------------------------------------------------------------- round trip

  lemma {:induction false} PrintedShape(bytes: nat)
    ensures var s := DecimalGigabytes(bytes);
            WellFormed(s) && Whole(s) == Digits(bytes / BYTES_PER_GIGABYTE) && Fraction(s) == FractionOf(bytes)
                && Trim(s) == s
  {
    var s, whole := DecimalGigabytes(bytes), Digits(bytes / BYTES_PER_GIGABYTE);
    PointAt(s, |whole|);
  }

  lemma {:induction false} PointAt(s: string, k: nat)
    requires k <= |s| && (forall i :: 0 <= i < k ==> s[i] != '.') && (k < |s| ==> s[k] == '.')
    ensures Point(s) == k
  {
    if k > 0 {
      PointAt(s[1..], k - 1);
    }
  }

  /** The printed fraction, filled up to nine places, is the remainder. */
  lemma FractionIsRemainder(bytes: nat)
    ensures |FractionOf(bytes)| <= 9 && AllDigits(FractionOf(bytes))
    ensures DecimalValue(Nine(FractionOf(bytes))) == bytes % BYTES_PER_GIGABYTE
  {
    var rest := bytes % BYTES_PER_GIGABYTE;
    NinePower();
    DigitsFit(rest, 9);
    var fraction := StripZeros(PadStart(Digits(rest), 9));
    PaddedNumber(rest);
    Refilled(PadStart(Digits(rest), 9));
  }

  lemma {:induction false} PaddedNumber(n: nat)
    requires |Digits(n)| <= 9
    ensures DecimalValue(PadStart(Digits(n), 9)) == n
  {
    var zeros := Zeros(9 - |Digits(n)|);
    NumberJoins(zeros, Digits(n));
    ZerosAreZeros(9 - |Digits(n)|);
    ZeroIffZeros(zeros);
    NumberOfDigits(n);
  }

  /** Nine digits come back after their trailing zeros are stripped and filled in again. */
  lemma {:induction false} Refilled(padded: string)
    requires AllDigits(padded) && |padded| == 9
    ensures Nine(StripZeros(padded)) == padded
  {
    hide StripZeros, Zeros;
    var fraction := StripZeros(padded);
    ZerosAreZeros(9 - |fraction|);
    ZerosPrefix(9, 9 - |fraction|);
    assert fraction + Zeros(9 - |fraction|) == padded;
    assert Nine(fraction) == fraction + Zeros(9)[..9 - |fraction|];
  }

  /** Every threshold the form can hold survives being printed and read back. */
  lemma RoundTrip(bytes: nat)
    requires 1 <= bytes <= MAX_SAFE_BYTES
    ensures ParseGigabytes(DecimalGigabytes(bytes)) == Ok(Some(bytes))
  {
    PrintedShape(bytes);
    FractionIsRemainder(bytes);
    NumberOfDigits(bytes / BYTES_PER_GIGABYTE);
  }

  // ---------------------------------------------------------------- double precision

  function Pow2(k: nat): (p: nat)
    ensures p > 0
  {
    if k == 0 then 1 else 2 * Pow2(k - 1)
  }

  /** A significand of 53 bits over or times a power of two within the range of exponents. */
  predicate Scaled(v: real, m: int, k: nat) {
    && (-m) < Pow2(53) && m < Pow2(53)
    && ((k <= 1074 && v * Pow2(k) as real == m as real) || (k <= 971 && v == m as real * Pow2(k) as real))
  }

  /** The finite numbers of double precision. */
  ghost predicate IsDouble(v: real) {
    exists m: int, k: nat :: Scaled(v, m, k)
  }

  function Apart(a: real, b: real): real {
    if a < b then b - a else a - b
  }

  /** Rounding to nearest, whichever way ties go. */
  ghost predicate RoundsTo(exact: real, v: real) {
    IsDouble(v) && forall w: real :: IsDouble(w) ==> Apart(exact, v) <= Apart(exact, w)
  }

  lemma {:induction false} PowersOfTwo()
    ensures Pow2(29) == 536870912 && Pow2(53) == 9007199254740992
  {
    assert Pow2(10) == 1024;
    assert Pow2(20) == 1048576;
    assert Pow2(30) == 1073741824;
    assert Pow2(40) == 1099511627776;
    assert Pow2(50) == 1125899906842624;
  }

  lemma SmallIntegersAreDoubles(n: nat)
    requires n < 9007199254740992
    ensures IsDouble(n as real)
  {
    PowersOfTwo();
    assert Scaled(n as real, n, 0);
  }

  /** Within the range of quotients some double lies within 2^-30 of any number. */
  lemma DoublesAreDense(exact: real) returns (w: real)
    requires 0.0 <= exact < 9007200.0
    ensures IsDouble(w) && Apart(exact, w) <= 1.0 / 1073741824.0
  {
    PowersOfTwo();
    var m := (exact * 536870912.0 + 0.5).Floor;
    w := m as real / 536870912.0;
    assert Scaled(w, m, 29);
  }

  /** The source divides in double precision before taking the floor, with the quotient rounded
      to nearest; its floor is the exact one all the same. */
  lemma FloorSurvivesRounding(bytes: nat, quotient: real)
    requires bytes <= MAX_SAFE_BYTES && RoundsTo(bytes as real / 1000000000.0, quotient)
    ensures quotient.Floor == bytes / BYTES_PER_GIGABYTE
  {
    hide IsDouble;
    var whole, exact := bytes / BYTES_PER_GIGABYTE, bytes as real / 1000000000.0;
    QuotientParts(bytes);
    SmallIntegersAreDoubles(whole);
    assert Apart(exact, quotient) <= Apart(exact, whole as real);
    var near := DoublesAreDense(exact);
    assert Apart(exact, quotient) <= Apart(exact, near);
    assert whole as real <= quotient < whole as real + 1.0;
  }

  lemma QuotientParts(bytes: nat)
    requires bytes <= MAX_SAFE_BYTES
    ensures var whole, exact := bytes / BYTES_PER_GIGABYTE, bytes as real / 1000000000.0;
            whole as real <= exact <= whole as real + 0.999999999 && exact < 9007200.0
  {
    var whole, rest := bytes / BYTES_PER_GIGABYTE, bytes % BYTES_PER_GIGABYTE;
    assert bytes as real == whole as real * 1000000000.0 + rest as real;
    assert rest as real <= 999999999.0;
  }
}
