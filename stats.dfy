/** Descriptive statistics over real numbers: sums, the population mean and
 *  variance, and the comparisons with a standard deviation that the detectors
 *  make. `Math.sqrt` is not modelled: a comparison `d > k * sqrt(v)` is
 *  restated without the root, and a lemma shows the restatement agrees with
 *  the original for every root `s >= 0` with `s * s == v`. */
module Stats {

  function Sum(xs: seq<real>): real
  {
    if |xs| == 0 then 0.0 else Sum(xs[..|xs| - 1]) + xs[|xs| - 1]
  }

  function SumSquares(xs: seq<real>): real
  {
    if |xs| == 0 then 0.0 else SumSquares(xs[..|xs| - 1]) + xs[|xs| - 1] * xs[|xs| - 1]
  }

  lemma {:induction false} SumSquaresNonNegative(xs: seq<real>)
    ensures SumSquares(xs) >= 0.0
  {
    if |xs| > 0 {
      SumSquaresNonNegative(xs[..|xs| - 1]);
    }
  }

  /** A count as a real number (`values.length` in a division), built by
   *  adding ones so that the proofs below stay within real arithmetic. */
  function AsReal(n: nat): (r: real)
    ensures r >= 0.0
    ensures n > 0 ==> r >= 1.0
  {
    if n == 0 then 0.0 else AsReal(n - 1) + 1.0
  }

  lemma {:induction false} AsRealIsCast(n: nat)
    ensures AsReal(n) == n as real
  {
    if n > 0 {
      AsRealIsCast(n - 1);
    }
  }

  /** `values.reduce((a, b) => a + b, 0) / values.length`: the value whose
   *  `n` copies add up to the sum of the `n` values. */
  function Mean(xs: seq<real>): (m: real)
    requires |xs| > 0
    ensures Times(|xs|, m) == Sum(xs)
  {
    var m := Sum(xs) / AsReal(|xs|);
    TimesIsProduct(|xs|, m);
    MulDivCancel(Sum(xs), AsReal(|xs|));
    m
  }

  /** Each element minus `c`. */
  function Deviations(xs: seq<real>, c: real): (ds: seq<real>)
    ensures |ds| == |xs|
    ensures forall i :: 0 <= i < |xs| ==> ds[i] == xs[i] - c
  {
    if |xs| == 0 then [] else Deviations(xs[..|xs| - 1], c) + [xs[|xs| - 1] - c]
  }

  /** Population variance: the mean squared deviation from the mean. It is
   *  never negative, so its square root exists. */
  function Variance(xs: seq<real>): (v: real)
    requires |xs| > 0
    ensures v >= 0.0
  {
    SumSquaresNonNegative(Deviations(xs, Mean(xs)));
    SumSquares(Deviations(xs, Mean(xs))) / AsReal(|xs|)
  }

  /** `n` copies of `c` added up, which keeps the products `n * c` out of the
   *  inductions over sums. */
  function Times(n: nat, c: real): real
  {
    if n == 0 then 0.0 else Times(n - 1, c) + c
  }

  lemma {:induction false} TimesIsProduct(n: nat, c: real)
    ensures Times(n, c) == AsReal(n) * c
  {
    if n > 0 {
      TimesIsProduct(n - 1, c);
      assert (AsReal(n - 1) + 1.0) * c == AsReal(n - 1) * c + c;
    }
  }

  lemma {:induction false} SumDeviations(xs: seq<real>, c: real)
    ensures Sum(Deviations(xs, c)) == Sum(xs) - Times(|xs|, c)
  {
    if |xs| > 0 {
      var init := xs[..|xs| - 1];
      SumDeviations(init, c);
      assert Deviations(xs, c)[..|xs| - 1] == Deviations(init, c);
    }
  }

  lemma {:induction false} MulDivCancel(s: real, n: real)
    requires n > 0.0
    ensures n * (s / n) == s
  {
  }

  lemma {:induction false} DivMulCancel(c: real, n: real)
    requires n > 0.0
    ensures (n * c) / n == c
  {
  }

  /** The deviations from the mean cancel out. */
  lemma {:induction false} DeviationsFromMeanCancel(xs: seq<real>)
    requires |xs| > 0
    ensures Sum(Deviations(xs, Mean(xs))) == 0.0
  {
    SumDeviations(xs, Mean(xs));
  }

  /** A constant sequence has that constant as mean and no spread. */
  lemma {:induction false} ConstantStatistics(xs: seq<real>, c: real)
    requires |xs| > 0
    requires forall i :: 0 <= i < |xs| ==> xs[i] == c
    ensures Mean(xs) == c
    ensures Variance(xs) == 0.0
  {
    ConstantSum(xs, c);
    TimesIsProduct(|xs|, c);
    DivMulCancel(c, AsReal(|xs|));
    ConstantSumSquares(Deviations(xs, c));
  }

  lemma {:induction false} ConstantSum(xs: seq<real>, c: real)
    requires forall i :: 0 <= i < |xs| ==> xs[i] == c
    ensures Sum(xs) == Times(|xs|, c)
  {
    if |xs| > 0 {
      ConstantSum(xs[..|xs| - 1], c);
    }
  }

  lemma {:induction false} ConstantSumSquares(xs: seq<real>)
    requires forall i :: 0 <= i < |xs| ==> xs[i] == 0.0
    ensures SumSquares(xs) == 0.0
  {
    if |xs| > 0 {
      ConstantSumSquares(xs[..|xs| - 1]);
    }
  }

  /** `s * s <= m * q`, named so that the inequality passes between lemmas as
   *  a single fact. */
  predicate SquareBound(s: real, m: real, q: real)
  {
    s * s <= m * q
  }

  /** The same bound, restated for equal quantities. */
  lemma {:induction false} SquareBoundEq(s: real, m: real, q: real, s': real, m': real, q': real)
    requires SquareBound(s, m, q)
    requires s' == s && m' == m && q' == q
    ensures SquareBound(s', m', q')
  {
  }

  /** Cauchy-Schwarz for a sum: `(x1 + ... + xn)^2 <= n * (x1^2 + ... + xn^2)`. */
  lemma {:induction false} SquaredSumBound(ys: seq<real>)
    ensures SquareBound(Sum(ys), AsReal(|ys|), SumSquares(ys))
  {
    if |ys| > 0 {
      var init, y := ys[..|ys| - 1], ys[|ys| - 1];
      SquaredSumBound(init);
      SumSquaresNonNegative(init);
      assert |init| == 0 ==> init == [];
      CauchyStep(Sum(init), AsReal(|init|), SumSquares(init), y, Sum(ys), AsReal(|ys|), SumSquares(ys));
    }
  }

  /** Cauchy-Schwarz for all the values but the one at `j`. */
  lemma {:induction false} SquaredSumBoundExcept(ds: seq<real>, j: int)
    requires 0 <= j < |ds|
    ensures SquareBound(Sum(ds) - ds[j], AsReal(|ds|) - 1.0, SumSquares(ds) - ds[j] * ds[j])
  {
    if j == |ds| - 1 {
      SquaredSumBound(ds[..|ds| - 1]);
      ExceptLast(ds, j);
    } else {
      SquaredSumBoundExcept(ds[..|ds| - 1], j);
      ExceptInner(ds, j);
    }
  }

  /** Leaving out the last value leaves the sums of the values before it. */
  lemma {:induction false} ExceptLast(ds: seq<real>, j: int)
    requires j == |ds| - 1 >= 0
    requires SquareBound(Sum(ds[..j]), AsReal(|ds[..j]|), SumSquares(ds[..j]))
    ensures SquareBound(Sum(ds) - ds[j], AsReal(|ds|) - 1.0, SumSquares(ds) - ds[j] * ds[j])
  {
    var init := ds[..j];
    assert ds[..|ds| - 1] == init;
    SquareBoundEq(Sum(init), AsReal(|init|), SumSquares(init),
                  Sum(ds) - ds[j], AsReal(|ds|) - 1.0, SumSquares(ds) - ds[j] * ds[j]);
  }

  /** Leaving out an earlier value: the last value joins the bound. */
  lemma {:induction false} ExceptInner(ds: seq<real>, j: int)
    requires 0 <= j < |ds| - 1
    requires var init := ds[..|ds| - 1];
      SquareBound(Sum(init) - init[j], AsReal(|init|) - 1.0, SumSquares(init) - init[j] * init[j])
    ensures SquareBound(Sum(ds) - ds[j], AsReal(|ds|) - 1.0, SumSquares(ds) - ds[j] * ds[j])
  {
    var init, y := ds[..|ds| - 1], ds[|ds| - 1];
    ExceptStep(ds, j);
    CauchyStep(Sum(init) - init[j], AsReal(|init|) - 1.0, SumSquares(init) - init[j] * init[j], y,
               Sum(ds) - ds[j], AsReal(|ds|) - 1.0, SumSquares(ds) - ds[j] * ds[j]);
  }

  /** What the step from `ds[..|ds| - 1]` to `ds` needs when `j` is not the
   *  last index. */
  lemma {:induction false} ExceptStep(ds: seq<real>, j: int)
    requires 0 <= j < |ds| - 1
    ensures var init, y := ds[..|ds| - 1], ds[|ds| - 1];
      && AsReal(|init|) - 1.0 >= 0.0
      && (AsReal(|init|) - 1.0 == 0.0 ==> Sum(init) - init[j] == 0.0 && SumSquares(init) - init[j] * init[j] >= 0.0)
      && Sum(ds) - ds[j] == (Sum(init) - init[j]) + y
      && AsReal(|ds|) - 1.0 == (AsReal(|init|) - 1.0) + 1.0
      && SumSquares(ds) - ds[j] * ds[j] == (SumSquares(init) - init[j] * init[j]) + y * y
  {
    var init := ds[..|ds| - 1];
    assert init[j] == ds[j];
    if |init| == 1 {
      assert init[..0] == [];
    } else {
      assert AsReal(|init|) == AsReal(|init| - 1) + 1.0;
    }
  }

  /** One step of the inductions above, as plain arithmetic: adding `y` to the
   *  sum, one to the count and `y * y` to the squares keeps the bound. */
  lemma {:induction false} CauchyStep(s: real, m: real, q: real, y: real, s': real, m': real, q': real)
    requires m >= 0.0 && SquareBound(s, m, q)
    requires m == 0.0 ==> s == 0.0 && q >= 0.0
    requires s' == s + y && m' == m + 1.0 && q' == q + y * y
    ensures SquareBound(s', m', q')
  {
    CauchyArith(s, m, q, y);
  }

  lemma {:induction false} CauchyArith(s: real, m: real, q: real, y: real)
    requires m >= 0.0 && s * s <= m * q
    requires m == 0.0 ==> s == 0.0 && q >= 0.0
    ensures (s + y) * (s + y) <= (m + 1.0) * (q + y * y)
  {
    if m > 0.0 {
      var e := s - m * y;
      assert e * e >= 0.0;
      assert e * e == s * s - 2.0 * m * s * y + m * m * y * y;
      assert m * (2.0 * s * y) <= m * (q + m * y * y);
      DivideBoth(m, 2.0 * s * y, q + m * y * y);
    }
    assert (s + y) * (s + y) == s * s + 2.0 * s * y + y * y;
    assert (m + 1.0) * (q + y * y) == m * q + q + m * y * y + y * y;
  }

  lemma {:induction false} DivideBoth(m: real, a: real, b: real)
    requires m > 0.0 && m * a <= m * b
    ensures a <= b
  {
  }

  lemma {:induction false} NonZeroProduct(p: real, q: real)
    requires p != 0.0 && q != 0.0
    ensures p * q != 0.0
  {
  }

  lemma {:induction false} CancelSquare(a: real, s: real)
    requires s != 0.0
    requires a * (s * s) == 0.0
    ensures a == 0.0
  {
    if a != 0.0 {
      NonZeroProduct(a, s);
      NonZeroProduct(a * s, s);
    }
  }

  /** Squaring a quotient squares numerator and denominator. */
  lemma {:induction false} SquareOfQuotient(d: real, s: real)
    requires s != 0.0
    ensures s * s != 0.0
    ensures (d / s) * (d / s) == (d * d) / (s * s)
  {
    NonZeroProduct(s, s);
    assert (d / s) * s == d;
    assert ((d * d) / (s * s)) * (s * s) == d * d;
    assert ((d / s) * (d / s)) * (s * s) == d * d by {
      assert ((d / s) * (d / s)) * (s * s) == ((d / s) * s) * ((d / s) * s);
    }
    assert ((d / s) * (d / s) - (d * d) / (s * s)) * (s * s) == 0.0;
    CancelSquare((d / s) * (d / s) - (d * d) / (s * s), s);
  }

  lemma {:induction false} MulPos(a: real, b: real)
    requires a > 0.0 && b > 0.0
    ensures a * b > 0.0
  {
  }

  /** Samuelson's inequality: no value lies further than `sqrt(n - 1)`
   *  standard deviations from the mean, that is
   *  `(x[j] - mean)^2 <= (n - 1) * variance`. */
  lemma {:induction false} Samuelson(xs: seq<real>, j: int)
    requires 0 <= j < |xs|
    ensures SquareBound(xs[j] - Mean(xs), AsReal(|xs|) - 1.0, Variance(xs))
  {
    DeviationsFromMeanCancel(xs);
    VarianceTimesCount(xs);
    SamuelsonFor(xs, j, Mean(xs), Variance(xs));
  }

  /** `q == n * v`, kept as one atom so that callers match it as a whole. */
  predicate Scaled(n: real, v: real, q: real)
  {
    n * v == q
  }

  lemma {:induction false} VarianceTimesCount(xs: seq<real>)
    requires |xs| > 0
    ensures Scaled(AsReal(|xs|), Variance(xs), SumSquares(Deviations(xs, Mean(xs))))
  {
    MulDivCancel(SumSquares(Deviations(xs, Mean(xs))), AsReal(|xs|));
  }

  /** Samuelson's inequality about a centre `m` and a spread `v` given by what
   *  they satisfy rather than by their quotients. */
  lemma {:induction false} SamuelsonFor(xs: seq<real>, j: int, m: real, v: real)
    requires 0 <= j < |xs|
    requires Sum(Deviations(xs, m)) == 0.0
    requires Scaled(AsReal(|xs|), v, SumSquares(Deviations(xs, m)))
    ensures SquareBound(xs[j] - m, AsReal(|xs|) - 1.0, v)
  {
    var ds := Deviations(xs, m);
    CenteredBound(ds, j, v);
    SquareBoundEq(ds[j], AsReal(|ds|) - 1.0, v, xs[j] - m, AsReal(|xs|) - 1.0, v);
  }

  /** Samuelson's inequality for values that already sum to zero. */
  lemma {:induction false} CenteredBound(ds: seq<real>, j: int, v: real)
    requires 0 <= j < |ds| && Sum(ds) == 0.0
    requires Scaled(AsReal(|ds|), v, SumSquares(ds))
    ensures SquareBound(ds[j], AsReal(|ds|) - 1.0, v)
  {
    SquaredSumBoundExcept(ds, j);
    SamuelsonArith(AsReal(|ds|), Sum(ds), ds[j], SumSquares(ds), v);
  }

  lemma {:induction false} SamuelsonArith(n: real, s: real, d: real, q: real, v: real)
    requires n >= 1.0 && s == 0.0
    requires SquareBound(s - d, n - 1.0, q - d * d)
    requires Scaled(n, v, q)
    ensures SquareBound(d, n - 1.0, v)
  {
    assert (s - d) * (s - d) == d * d;
    assert n * (d * d) <= (n - 1.0) * q;
    assert n * (d * d) <= n * ((n - 1.0) * v);
    DivideBoth(n, d * d, (n - 1.0) * v);
  }

  /** A consequence of Samuelson's inequality: once `k * k >= n - 1`, no element
   *  lies more than `k` standard deviations above the mean. */
  lemma {:induction false} NoneExceedsWideMultiplier(xs: seq<real>, j: int, k: real)
    requires 0 <= j < |xs|
    requires k >= 0.0 && k * k >= AsReal(|xs|) - 1.0
    ensures !ExceedsScaledRoot(xs[j] - Mean(xs), k, Variance(xs))
  {
    Samuelson(xs, j);
    WideArith(xs[j] - Mean(xs), AsReal(|xs|) - 1.0, Variance(xs), k);
  }

  lemma {:induction false} WideArith(d: real, n: real, v: real, k: real)
    requires SquareBound(d, n, v) && v >= 0.0
    requires k >= 0.0 && k * k >= n
    ensures !ExceedsScaledRoot(d, k, v)
  {
    if k * k - n > 0.0 && v > 0.0 {
      MulPos(k * k - n, v);
    }
    assert (k * k - n) * v == k * k * v - n * v;
    assert d * d <= n * v <= k * k * v;
  }

  /** `d > k * sqrt(v)` without the root (for `v >= 0`). */
  predicate ExceedsScaledRoot(d: real, k: real, v: real)
  {
    if k >= 0.0 then d > 0.0 && d * d > k * k * v
    else d > 0.0 || k * k * v > d * d
  }

  /** The restatement agrees with the comparison against the root itself. */
  lemma {:induction false} ExceedsScaledRootAgrees(d: real, k: real, v: real, s: real)
    requires s >= 0.0 && s * s == v
    ensures ExceedsScaledRoot(d, k, v) <==> d > k * s
  {
    var ks := k * s;
    assert ks * ks == k * k * v;
    if k >= 0.0 {
      assert ks >= 0.0;
      if d > ks {
        SquareMonotone(ks, d);
      }
      if d > 0.0 && d * d > ks * ks {
        SquareMonotoneConverse(ks, d);
      }
    } else {
      assert ks <= 0.0;
      if d <= 0.0 {
        if d > ks {
          SquareMonotone(-d, -ks);
        }
        if ks * ks > d * d {
          SquareMonotoneConverse(-d, -ks);
        }
      }
    }
  }

  lemma {:induction false} SquareMonotone(a: real, b: real)
    requires 0.0 <= a < b
    ensures a * a < b * b
  {
    MulPos(b - a, b + a);
    assert (b - a) * (b + a) == b * b - a * a;
  }

  lemma {:induction false} SquareMonotoneConverse(a: real, b: real)
    requires 0.0 <= a && 0.0 <= b && a * a < b * b
    ensures a < b
  {
    SquareMonotoneWeak(b, a);
  }

  lemma {:induction false} SquareMonotoneWeak(a: real, b: real)
    requires 0.0 <= a
    ensures a <= b ==> a * a <= b * b
  {
    if a < b {
      SquareMonotone(a, b);
    }
  }

  /** `Math.abs(z) > t`, knowing only `z * z`. */
  predicate AbsExceeds(zSquared: real, t: real)
  {
    t < 0.0 || zSquared > t * t
  }

  lemma {:induction false} AbsExceedsAgrees(z: real, t: real)
    ensures AbsExceeds(z * z, t) <==> (if z >= 0.0 then z else -z) > t
  {
    var a := if z >= 0.0 then z else -z;
    assert a * a == z * z;
    if t >= 0.0 {
      if a > t {
        SquareMonotone(t, a);
      }
      if z * z > t * t {
        SquareMonotoneConverse(t, a);
      }
    }
  }

  /** `(part / whole) * 100`: the share of `part` in `whole`, in percent. */
  function Percent(part: nat, whole: nat): real
    requires whole > 0
  {
    part as real / whole as real * 100.0
  }

  /** A part of the whole is between 0 and 100 percent of it. */
  lemma {:induction false} PercentBounds(part: nat, whole: nat)
    requires 0 < whole && part <= whole
    ensures 0.0 <= Percent(part, whole) <= 100.0
    ensures part == 0 <==> Percent(part, whole) == 0.0
  {
    var w := whole as real;
    var q := part as real / w;
    assert q * w == part as real;
  }

  /** Shares of the same whole add up. */
  lemma {:induction false} PercentAdd(a: nat, b: nat, whole: nat)
    requires whole > 0
    ensures Percent(a, whole) + Percent(b, whole) == Percent(a + b, whole)
  {
    var w := whole as real;
    var qa, qb := a as real / w, b as real / w;
    assert qa * w == a as real && qb * w == b as real;
    assert (qa + qb) * w == (a + b) as real;
  }

  /** A sum of values between `lo` and `hi` lies between `n` copies of each. */
  lemma {:induction false} SumBetween(xs: seq<real>, lo: real, hi: real)
    requires forall i :: 0 <= i < |xs| ==> lo <= xs[i] <= hi
    ensures Times(|xs|, lo) <= Sum(xs) <= Times(|xs|, hi)
  {
    if |xs| > 0 {
      SumBetween(xs[..|xs| - 1], lo, hi);
    }
  }

  /** `n` copies of a smaller value add up to less. */
  lemma {:induction false} TimesStrict(n: nat, a: real, b: real)
    requires n > 0 && a < b
    ensures Times(n, a) < Times(n, b)
  {
    if n > 1 {
      TimesStrict(n - 1, a, b);
    }
  }

  /** The mean lies between any bounds of the values. */
  lemma {:induction false} MeanBetween(xs: seq<real>, lo: real, hi: real)
    requires |xs| > 0
    requires forall i :: 0 <= i < |xs| ==> lo <= xs[i] <= hi
    ensures lo <= Mean(xs) <= hi
  {
    SumBetween(xs, lo, hi);
    if Mean(xs) < lo {
      TimesStrict(|xs|, Mean(xs), lo);
    }
    if hi < Mean(xs) {
      TimesStrict(|xs|, hi, Mean(xs));
    }
  }
}
