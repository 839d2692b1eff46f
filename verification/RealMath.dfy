/** Real arithmetic shared by the rate limiter's modules.

    Products and quotients of two variables go through named functions: sums of products are then linear
    combinations of terms, and the few laws that look inside a product are the lemmas below. */
module RealMath {
  function Times(a: real, b: real): real { a * b }

  function Over(a: real, b: real): real
    requires b != 0.0
  {
    a / b
  }

  function Min(a: real, b: real): real { if a <= b then a else b }

  function Max(a: real, b: real): real { if a >= b then a else b }

  function Abs(a: real): real { if a < 0.0 then -a else a }

  /** `f64::clamp`, which panics unless `lo <= hi`. */
  function Clamp(x: real, lo: real, hi: real): (r: real)
    requires lo <= hi
    ensures lo <= r <= hi
    ensures lo <= x <= hi ==> r == x
  {
    if x < lo then lo else if x > hi then hi else x
  }

  function Power(b: real, n: nat): real {
    if n == 0 then 1.0 else Times(b, Power(b, n - 1))
  }

  /** `1 + b + ... + b^(n-1)`. */
  function GeometricSum(b: real, n: nat): real {
    if n == 0 then 0.0 else 1.0 + Times(b, GeometricSum(b, n - 1))
  }

  function Sum(xs: seq<real>): real {
    if xs == [] then 0.0 else Sum(xs[..|xs| - 1]) + xs[|xs| - 1]
  }

  lemma Commutes(a: real, b: real)
    ensures Times(a, b) == Times(b, a)
  {
  }

  lemma Associates(a: real, b: real, c: real)
    ensures Times(Times(a, b), c) == Times(a, Times(b, c))
  {
  }

  lemma Unit(a: real)
    ensures Times(1.0, a) == a && Times(a, 1.0) == a && Times(0.0, a) == 0.0 && Times(a, 0.0) == 0.0
  {
  }

  lemma Distributes(a: real, b: real, c: real)
    ensures Times(a + b, c) == Times(a, c) + Times(b, c)
    ensures Times(a - b, c) == Times(a, c) - Times(b, c)
    ensures Times(c, a + b) == Times(c, a) + Times(c, b)
    ensures Times(c, a - b) == Times(c, a) - Times(c, b)
    ensures Times(-a, c) == -Times(a, c)
  {
  }

  lemma Quotient(a: real, b: real)
    requires b != 0.0
    ensures Times(Over(a, b), b) == a
  {
  }

  lemma NonNegative(a: real, b: real)
    requires 0.0 <= a && 0.0 <= b
    ensures 0.0 <= Times(a, b)
  {
  }

  lemma Positive(a: real, b: real)
    requires 0.0 < a && 0.0 < b
    ensures 0.0 < Times(a, b)
  {
  }

  lemma Monotone(a: real, b: real, c: real)
    requires a <= b && 0.0 <= c
    ensures Times(a, c) <= Times(b, c)
    ensures Times(c, a) <= Times(c, b)
  {
    NonNegative(b - a, c);
    Distributes(b, a, c);
    Commutes(b, c);
    Commutes(a, c);
  }

  lemma {:induction false} GeometricClosedForm(b: real, n: nat)
    requires b != 1.0
    ensures GeometricSum(b, n) == Over(1.0 - Power(b, n), 1.0 - b)
  {
    GeometricTelescopes(b, n);
    Cancel(GeometricSum(b, n), 1.0 - b, 1.0 - Power(b, n));
  }

  lemma Cancel(q: real, d: real, x: real)
    requires d != 0.0 && Times(q, d) == x
    ensures q == Over(x, d)
  {
  }

  lemma {:induction false} GeometricTelescopes(b: real, n: nat)
    ensures Times(GeometricSum(b, n), 1.0 - b) == 1.0 - Power(b, n)
  {
    if n == 0 {
      Unit(1.0 - b);
    } else {
      GeometricTelescopes(b, n - 1);
      var g, p := GeometricSum(b, n - 1), Power(b, n - 1);
      Distributes(1.0, Times(b, g), 1.0 - b);
      Unit(1.0 - b);
      Associates(b, g, 1.0 - b);
      Distributes(1.0, p, b);
      Unit(b);
    }
  }

  /** A weighted mean lies between its two values. */
  lemma WeightedMean(w: real, a: real, b: real, lo: real, hi: real)
    requires 0.0 <= w <= 1.0 && lo <= a <= hi && lo <= b <= hi
    ensures lo <= Times(w, a) + Times(1.0 - w, b) <= hi
  {
    Monotone(lo, a, w);
    Monotone(a, hi, w);
    Monotone(lo, b, 1.0 - w);
    Monotone(b, hi, 1.0 - w);
    Distributes(w, 1.0 - w, lo);
    Distributes(w, 1.0 - w, hi);
    Unit(lo);
    Unit(hi);
  }

  lemma SignOfProduct(k: real, x: real)
    requires k >= 0.0
    ensures x >= 0.0 ==> Times(k, x) >= 0.0
    ensures x <= 0.0 ==> Times(k, x) <= 0.0
  {
    if x >= 0.0 {
      NonNegative(k, x);
    }
    if x <= 0.0 {
      NonNegative(k, -x);
      Distributes(x, 0.0, k);
      Commutes(k, -x);
      Commutes(k, x);
    }
  }

  lemma SignOfQuotient(x: real, d: real)
    requires d > 0.0
    ensures x >= 0.0 ==> Over(x, d) >= 0.0
    ensures x <= 0.0 ==> Over(x, d) <= 0.0
  {
    var q := Over(x, d);
    Quotient(x, d);
    SignOfProduct(d, q);
    Commutes(d, q);
    if q > 0.0 {
      Positive(q, d);
    }
    if q < 0.0 {
      Positive(-q, d);
      Distributes(q, 0.0, d);
    }
  }

  /** A request between two rates over some time stays between them when more is requested at a rate between them. */
  lemma RateOverTime(least: real, greatest: real, time: real, requested: real, rate: real, delta: real)
    requires least <= rate <= greatest && 0.0 <= delta && Times(least, time) <= requested <= Times(greatest, time)
    ensures Times(least, time + delta) <= requested + Times(rate, delta) <= Times(greatest, time + delta)
  {
    Distributes(time, delta, least);
    Distributes(time, delta, greatest);
    Monotone(least, rate, delta);
    Monotone(rate, greatest, delta);
  }

  /** Dividing by a positive number and multiplying again, with negative quotients cut off. */
  lemma ScaledMax(gap: real, d: real)
    requires d > 0.0
    ensures Times(Max(Over(gap, d), 0.0), d) == Max(0.0, gap)
  {
    var q := Over(gap, d);
    Quotient(gap, d);
    Unit(d);
    if q >= 0.0 {
      NonNegative(q, d);
    } else {
      Positive(-q, d);
      Distributes(q, 0.0, d);
    }
  }

  lemma AbsProduct(a: real, b: real, x: real, y: real)
    requires Abs(a) <= x && Abs(b) <= y
    ensures Abs(Times(a, b)) <= Times(x, y)
  {
    Monotone(Abs(a), x, Abs(b));
    Monotone(Abs(b), y, x);
    Distributes(a, 0.0, b);
    Distributes(b, 0.0, a);
    Distributes(b, 0.0, -a);
    Commutes(a, b);
    Commutes(-a, b);
    Commutes(-b, a);
    Commutes(-a, -b);
    NonNegative(Abs(a), Abs(b));
  }
}
