/** Positional notation: the digits a formatter prints for a number, and their value. */
module Radix {

  /** The value of a digit list, most significant digit first. */
  function ValueOf(ds: seq<nat>, base: nat): (n: nat)
  {
    if ds == [] then 0 else ValueOf(ds[..|ds| - 1], base) * base + ds[|ds| - 1]
  }

  lemma Division(n: nat, base: nat)
    requires 2 <= base <= n
    ensures n / base < n
  {
    var q := n / base;
    Doubles(q, base);
    assert n == q * base + n % base;
  }

  lemma Doubles(q: nat, base: nat)
    requires 2 <= base
    ensures 2 * q <= q * base
  {
    assert q * base == 2 * q + q * (base - 2);
  }

  /** The shortest digit list of `n`; zero is the single digit 0. */
  function Digits(n: nat, base: nat): (ds: seq<nat>)
    requires 2 <= base
    ensures ds != [] && forall d | d in ds :: d < base
    ensures ValueOf(ds, base) == n
  {
    if n < base then
      assert [n][..0] == [];
      [n]
    else
      Division(n, base);
      var high := Digits(n / base, base);
      assert (high + [n % base])[..|high|] == high;
      high + [n % base]
  }

  function Power(base: nat, k: nat): nat {
    if k == 0 then 1 else base * Power(base, k - 1)
  }

  /** A number below the `k`th power of the base has at most `k` digits. */
  lemma {:induction false} DigitsFit(n: nat, base: nat, k: nat)
    requires 2 <= base && 1 <= k && n < Power(base, k)
    ensures |Digits(n, base)| <= k
  {
    if n >= base {
      Division(n, base);
      var q, p := n / base, Power(base, k - 1);
      assert n == base * q + n % base;
      assert q >= p ==> base * q >= base * p;
      assert k >= 2;
      DigitsFit(q, base, k - 1);
    }
  }

  function Zeros(n: nat): (zs: seq<nat>)
    ensures |zs| == n && forall z | z in zs :: z == 0
  {
    seq(n, _ => 0)
  }

  lemma ShortestOne(d: nat, base: nat)
    requires 2 <= base && d < base
    ensures Digits(d, base) == [d] && ValueOf([d], base) == d
  {
    assert [d][..0] == [];
  }

  /** Any digit list is zeros followed by the shortest digit list of its value. */
  lemma {:induction false} Unpadded(ds: seq<nat>, base: nat) returns (zeros: nat)
    requires 2 <= base && ds != [] && forall d | d in ds :: d < base
    ensures ds == Zeros(zeros) + Digits(ValueOf(ds, base), base)
  {
    var front, last := ds[..|ds| - 1], ds[|ds| - 1];
    assert last in ds && forall d | d in front :: d in ds;
    assert ds == front + [last];
    if front == [] {
      ShortestOne(last, base);
      return 0;
    }
    zeros := Unpadded(front, base);
    zeros := UnpaddedAppend(front, last, base, zeros);
  }

  lemma UnpaddedAppend(front: seq<nat>, last: nat, base: nat, z: nat) returns (zeros: nat)
    requires 2 <= base && last < base && front == Zeros(z) + Digits(ValueOf(front, base), base)
    ensures front + [last] == Zeros(zeros) + Digits(ValueOf(front + [last], base), base)
  {
    var high := ValueOf(front, base);
    assert (front + [last])[..|front|] == front;
    if high == 0 {
      ShortestOne(0, base);
      ShortestOne(last, base);
      zeros := z + 1;
    } else {
      DigitsAppend(high, last, base);
      zeros := z;
    }
  }

  lemma DigitsAppend(high: nat, low: nat, base: nat)
    requires 2 <= base && high >= 1 && low < base
    ensures Digits(high * base + low, base) == Digits(high, base) + [low]
  {
    var n := high * base + low;
    assert high * base >= base;
    QuotientOf(high, low, base);
  }

  lemma QuotientOf(high: nat, low: nat, base: nat)
    requires base >= 1 && low < base
    ensures (high * base + low) / base == high && (high * base + low) % base == low
  {
    var n := high * base + low;
    var q, r := n / base, n % base;
    assert n == q * base + r;
    assert q < high ==> (q + 1) * base <= high * base;
    assert high < q ==> (high + 1) * base <= q * base;
  }

  /** The digits padded with zeros in front to a width. */
  function PadLeft(ds: seq<nat>, width: nat): (r: seq<nat>)
    ensures |r| >= width && |r| >= |ds|
    ensures |ds| <= width ==> |r| == width
  {
    seq(if |ds| < width then width - |ds| else 0, _ => 0) + ds
  }

  lemma {:induction false} PadLeftValue(ds: seq<nat>, width: nat, base: nat)
    ensures ValueOf(PadLeft(ds, width), base) == ValueOf(ds, base)
  {
    var zeros := seq(if |ds| < width then width - |ds| else 0, _ => 0);
    LeadingZeros(zeros, ds, base);
  }

  lemma {:induction false} LeadingZeros(zeros: seq<nat>, ds: seq<nat>, base: nat)
    requires forall z | z in zeros :: z == 0
    ensures ValueOf(zeros + ds, base) == ValueOf(ds, base)
  {
    if ds != [] {
      var front := ds[..|ds| - 1];
      assert (zeros + ds)[..|zeros + ds| - 1] == zeros + front;
      LeadingZeros(zeros, front, base);
    } else if zeros != [] {
      var front := zeros[..|zeros| - 1];
      assert zeros + ds == zeros && front + [] == front;
      assert forall z | z in front :: z in zeros;
      assert zeros[|zeros| - 1] in zeros;
      LeadingZeros(front, [], base);
    }
  }
}
