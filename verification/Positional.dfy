/**
 Positional number systems, in the two forms the codecs use: a fixed number of
 digits with the least significant first (Belts, packed bytes, key chunks), and
 as many digits as needed with the most significant first (base 10, 58 and 256).
 */
module Positional {

  function Pow(base: nat, e: nat): nat {
    if e == 0 then 1 else base * Pow(base, e - 1)
  }

  predicate Digits(ds: seq<nat>, base: nat) {
    forall i :: 0 <= i < |ds| ==> ds[i] < base
  }

  function Zeros(k: nat): (zs: seq<nat>)
    ensures |zs| == k && forall i :: 0 <= i < k ==> zs[i] == 0
  {
    seq(k, i => 0)
  }

  // ---------------------------------------------------------------------------
  // Arithmetic steps
  // ---------------------------------------------------------------------------

  lemma MulMonotone(a: nat, x: int, y: int)
    requires x <= y
    ensures a * x <= a * y
  {
  }

  lemma Nested(a: nat, e: nat, p: nat, q: nat)
    ensures a * (e + p * q) == a * e + (a * p) * q
  {
    assert a * (e + p * q) == a * e + a * (p * q);
  }

  lemma MulWithinOne(base: nat, d: int)
    requires base * d < base && base * -d < base
    ensures d == 0
  {
    if d >= 1 {
      MulMonotone(base, 1, d);
    } else if d <= -1 {
      MulMonotone(base, 1, -d);
    }
  }

  lemma DivMod(n: nat, base: nat)
    requires base > 0
    ensures n == base * (n / base) + n % base
    ensures 0 <= n / base && 0 <= n % base < base
  {
    if n / base <= -1 {
      MulMonotone(base, n / base, -1);
    }
  }

  lemma DivModOf(base: nat, q: nat, r: nat)
    requires r < base
    ensures (r + base * q) / base == q && (r + base * q) % base == r
  {
    var n := r + base * q;
    DivMod(n, base);
    var d := q - n / base;
    assert base * d == n % base - r;
    assert base * -d == r - n % base;
    MulWithinOne(base, d);
  }

  lemma DivSmaller(n: nat, base: nat)
    requires base >= 2 && n > 0
    ensures 0 <= n / base < n
  {
    DivMod(n, base);
    var q := n / base;
    assert base * q == 2 * q + (base - 2) * q;
    MulMonotone(base - 2, 0, q);
  }

  lemma {:induction false} PowPositive(base: nat, e: nat)
    requires base > 0
    ensures Pow(base, e) > 0
  {
    if e == 0 {
    } else {
      PowPositive(base, e - 1);
    }
  }

  // ---------------------------------------------------------------------------
  // Least significant digit first
  // ---------------------------------------------------------------------------

  function LittleEndian(ds: seq<nat>, base: nat): nat {
    if ds == [] then 0 else ds[0] + base * LittleEndian(ds[1..], base)
  }

  /** The k lowest digits of n. */
  function LowDigits(n: nat, base: nat, k: nat): (ds: seq<nat>)
    requires base > 0
    ensures |ds| == k && Digits(ds, base)
    decreases k
  {
    if k == 0 then []
    else
      DivMod(n, base);
      [n % base] + LowDigits(n / base, base, k - 1)
  }

  /** What is left of n after k divisions. */
  function Quotient(n: nat, base: nat, k: nat): nat
    requires base > 0
    decreases k
  {
    if k == 0 then n
    else
      DivMod(n, base);
      Quotient(n / base, base, k - 1)
  }

  lemma {:induction false} LittleEndianBound(ds: seq<nat>, base: nat)
    requires base > 0 && Digits(ds, base)
    ensures LittleEndian(ds, base) < Pow(base, |ds|)
  {
    if ds == [] {
    } else {
      LittleEndianBound(ds[1..], base);
      var v, p := LittleEndian(ds[1..], base), Pow(base, |ds| - 1);
      MulMonotone(base, v, p - 1);
      assert base * (p - 1) == base * p - base;
    }
  }

  /** Digits and quotient together lose nothing. */
  lemma {:induction false} LowDigitsSplit(n: nat, base: nat, k: nat)
    requires base > 0
    ensures n == LittleEndian(LowDigits(n, base, k), base) + Pow(base, k) * Quotient(n, base, k)
    decreases k
  {
    if k == 0 {
    } else {
      DivMod(n, base);
      LowDigitsSplit(n / base, base, k - 1);
      var ds := LowDigits(n / base, base, k - 1);
      assert LowDigits(n, base, k)[1..] == ds;
      Nested(base, LittleEndian(ds, base), Pow(base, k - 1), Quotient(n / base, base, k - 1));
    }
  }

  /** Something is left after k divisions if and only if n does not fit k digits. */
  lemma QuotientZeroIff(n: nat, base: nat, k: nat)
    requires base > 0
    ensures Quotient(n, base, k) == 0 <==> n < Pow(base, k)
    ensures n < Pow(base, k) ==> LittleEndian(LowDigits(n, base, k), base) == n
  {
    LowDigitsSplit(n, base, k);
    LittleEndianBound(LowDigits(n, base, k), base);
    var p, q := Pow(base, k), Quotient(n, base, k);
    if q >= 1 {
      MulMonotone(p, 1, q);
    }
  }

  /** One more division: the next digit joins at the end. */
  lemma {:induction false} LowDigitsPush(n: nat, base: nat, k: nat)
    requires base > 0
    ensures LowDigits(n, base, k + 1) == LowDigits(n, base, k) + [Quotient(n, base, k) % base]
    ensures Quotient(n, base, k + 1) == Quotient(n, base, k) / base
    decreases k
  {
    DivMod(n, base);
    if k == 0 {
    } else {
      LowDigitsPush(n / base, base, k - 1);
    }
  }

  lemma {:induction false} LowDigitsOfValue(ds: seq<nat>, base: nat)
    requires base > 0 && Digits(ds, base)
    ensures LowDigits(LittleEndian(ds, base), base, |ds|) == ds
  {
    if ds == [] {
    } else {
      DivModOf(base, LittleEndian(ds[1..], base), ds[0]);
      LowDigitsOfValue(ds[1..], base);
    }
  }

  lemma LittleEndianInjective(a: seq<nat>, b: seq<nat>, base: nat)
    requires base > 0 && Digits(a, base) && Digits(b, base) && |a| == |b|
    requires LittleEndian(a, base) == LittleEndian(b, base)
    ensures a == b
  {
    LowDigitsOfValue(a, base);
    LowDigitsOfValue(b, base);
  }

  lemma {:induction false} LittleEndianZeros(ds: seq<nat>, k: nat, base: nat)
    ensures LittleEndian(ds + Zeros(k), base) == LittleEndian(ds, base)
    decreases |ds| + k
  {
    if ds != [] {
      assert (ds + Zeros(k))[1..] == ds[1..] + Zeros(k);
      LittleEndianZeros(ds[1..], k, base);
    } else if k > 0 {
      assert ([] + Zeros(k))[1..] == [] + Zeros(k - 1);
      LittleEndianZeros([], k - 1, base);
    }
  }

  /** One more digit at the top weighs base^|ds|. */
  lemma {:induction false} LittleEndianPush(ds: seq<nat>, d: nat, base: nat)
    ensures LittleEndian(ds + [d], base) == LittleEndian(ds, base) + d * Pow(base, |ds|)
  {
    if ds == [] {
      assert [d][1..] == [];
      assert LittleEndian([d], base) == d + base * LittleEndian([], base);
    } else {
      assert (ds + [d])[1..] == ds[1..] + [d];
      LittleEndianPush(ds[1..], d, base);
      var v, p := LittleEndian(ds[1..], base), Pow(base, |ds| - 1);
      assert base * (v + d * p) == base * v + base * (d * p);
      assert base * (d * p) == d * (base * p);
    }
  }

  // ---------------------------------------------------------------------------
  // Most significant digit first, no leading zeros
  // ---------------------------------------------------------------------------

  function BigEndian(ds: seq<nat>, base: nat): nat {
    if ds == [] then 0
    else base * BigEndian(ds[..|ds| - 1], base) + ds[|ds| - 1]
  }

  /** The digits of n; none at all for zero. */
  function Numeral(n: nat, base: nat): seq<nat>
    requires base >= 2
    decreases n
  {
    if n == 0 then []
    else
      DivSmaller(n, base);
      Numeral(n / base, base) + [n % base]
  }

  lemma {:induction false} NumeralShape(n: nat, base: nat)
    requires base >= 2
    ensures Digits(Numeral(n, base), base)
    ensures n == 0 <==> Numeral(n, base) == []
    ensures n > 0 ==> Numeral(n, base)[0] > 0
    decreases n
  {
    if n == 0 {
    } else {
      DivSmaller(n, base);
      NumeralShape(n / base, base);
      DivMod(n, base);
    }
  }

  lemma {:induction false} BigEndianOfNumeral(n: nat, base: nat)
    requires base >= 2
    ensures BigEndian(Numeral(n, base), base) == n
    decreases n
  {
    if n == 0 {
    } else {
      DivSmaller(n, base);
      DivMod(n, base);
      var q := n / base;
      BigEndianOfNumeral(q, base);
      var ds := Numeral(n, base);
      assert ds[..|ds| - 1] == Numeral(q, base);
    }
  }

  lemma {:induction false} BigEndianPositive(ds: seq<nat>, base: nat)
    requires base > 0 && |ds| > 0 && ds[0] > 0
    ensures BigEndian(ds, base) > 0
  {
    if |ds| <= 1 {
    } else {
      BigEndianPositive(ds[..|ds| - 1], base);
      assert base * BigEndian(ds[..|ds| - 1], base) >= 1 * 1;
    }
  }

  lemma {:induction false} NumeralOfBigEndian(ds: seq<nat>, base: nat)
    requires base >= 2 && Digits(ds, base)
    requires |ds| > 0 ==> ds[0] > 0
    ensures Numeral(BigEndian(ds, base), base) == ds
  {
    if ds == [] {
    } else {
      var high, low := ds[..|ds| - 1], ds[|ds| - 1];
      BigEndianPositive(ds, base);
      DivModOf(base, BigEndian(high, base), low);
      NumeralOfBigEndian(high, base);
    }
  }

  lemma {:induction false} BigEndianZeros(k: nat, ds: seq<nat>, base: nat)
    ensures BigEndian(Zeros(k) + ds, base) == BigEndian(ds, base)
    decreases k + |ds|
  {
    var all := Zeros(k) + ds;
    if ds != [] {
      assert all[..|all| - 1] == Zeros(k) + ds[..|ds| - 1];
      BigEndianZeros(k, ds[..|ds| - 1], base);
    } else if k > 0 {
      assert all[..|all| - 1] == Zeros(k - 1) + [];
      BigEndianZeros(k - 1, [], base);
      assert BigEndian(all, base) == base * 0 + 0;
    }
  }

  lemma {:induction false} BigEndianBound(ds: seq<nat>, base: nat)
    requires base > 0 && Digits(ds, base)
    ensures BigEndian(ds, base) < Pow(base, |ds|)
  {
    if ds == [] {
    } else {
      var high := ds[..|ds| - 1];
      BigEndianBound(high, base);
      var v, p := BigEndian(high, base), Pow(base, |high|);
      MulMonotone(base, v, p - 1);
      assert base * (p - 1) == base * p - base;
    }
  }

  lemma {:induction false} PowMonotone(base: nat, d: nat, e: nat)
    requires base > 0 && d <= e
    ensures Pow(base, d) <= Pow(base, e)
  {
    PowPositive(base, e);
    if d >= e {
    } else {
      PowMonotone(base, d, e - 1);
      PowPositive(base, e - 1);
      assert base * Pow(base, e - 1) >= 1 * Pow(base, e - 1);
    }
  }

  /** Leading zeros of a digit string. */
  function LeadingZeros(ds: seq<nat>): (k: nat)
    ensures k <= |ds|
  {
    if ds != [] && ds[0] == 0 then 1 + LeadingZeros(ds[1..]) else 0
  }

  lemma {:induction false} LeadingZerosAre(ds: seq<nat>)
    ensures forall i :: 0 <= i < LeadingZeros(ds) ==> ds[i] == 0
    ensures LeadingZeros(ds) < |ds| ==> ds[LeadingZeros(ds)] > 0
  {
    if ds == [] || ds[0] != 0 {
    } else {
      LeadingZerosAre(ds[1..]);
      assert forall i :: 1 <= i < |ds| ==> ds[i] == ds[1..][i - 1];
    }
  }

  lemma ZeroPrefix(ds: seq<nat>, k: nat)
    requires k <= |ds| && forall i :: 0 <= i < k ==> ds[i] == 0
    ensures ds == Zeros(k) + ds[k..]
  {
    var zs := Zeros(k);
    assert |zs + ds[k..]| == |ds|;
    forall i | 0 <= i < |ds|
      ensures (zs + ds[k..])[i] == ds[i]
    {
      if i < k {
        assert zs[i] == 0;
      }
    }
  }

  lemma LeadingZerosSplit(ds: seq<nat>)
    ensures ds == Zeros(LeadingZeros(ds)) + ds[LeadingZeros(ds)..]
    ensures LeadingZeros(ds) < |ds| ==> ds[LeadingZeros(ds)] > 0
  {
    LeadingZerosAre(ds);
    ZeroPrefix(ds, LeadingZeros(ds));
  }

  lemma {:induction false} LeadingZerosOf(k: nat, ds: seq<nat>)
    requires |ds| > 0 ==> ds[0] > 0
    ensures LeadingZeros(Zeros(k) + ds) == k
  {
    if k > 0 {
      assert (Zeros(k) + ds)[1..] == Zeros(k - 1) + ds;
      LeadingZerosOf(k - 1, ds);
    } else {
      assert Zeros(0) + ds == ds;
    }
  }

  /** The value of a digit string as a numeral: the string without its leading zeros. */
  lemma NumeralDropsLeadingZeros(ds: seq<nat>, base: nat)
    requires base >= 2 && Digits(ds, base)
    ensures Numeral(BigEndian(ds, base), base) == ds[LeadingZeros(ds)..]
  {
    var k := LeadingZeros(ds);
    LeadingZerosSplit(ds);
    BigEndianZeros(k, ds[k..], base);
    NumeralOfBigEndian(ds[k..], base);
  }
}
