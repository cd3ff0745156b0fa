/**
  Bond pricing, duration, convexity and the yield search of engine-dart/bin/server.dart, over exact
  reals. Cash flow i (from 0) is paid at the end of half-year i + 1.
*/
module Bond {
  import opened RealSums

  lemma {:induction false} PowPositive(b: real, n: nat)
    requires b > 0.0
    ensures Pow(b, n) > 0.0
  {
    if n > 0 { PowPositive(b, n - 1); ProductPositive(Pow(b, n - 1), b, Pow(b, n)); }
  }

  lemma {:induction false} PowNonZero(b: real, n: nat)
    requires b != 0.0
    ensures Pow(b, n) != 0.0
  {
    if n > 0 { PowNonZero(b, n - 1); ProductNonZero(Pow(b, n - 1), b, Pow(b, n)); }
  }

  lemma ProductNonZero(a: real, b: real, p: real)
    requires a != 0.0 && b != 0.0 && p == a * b
    ensures p != 0.0
  {}

  lemma ProductMonotone(a: real, a': real, b: real, b': real)
    requires 0.0 < a <= a' && 0.0 < b < b'
    ensures a * b < a' * b'
  {
    assert a * b < a * b';
    assert a * b' <= a' * b';
  }

  lemma {:induction false} PowMonotone(a: real, b: real, n: nat)
    requires 0.0 < a < b
    ensures 0.0 < Pow(a, n) <= Pow(b, n)
    ensures n > 0 ==> Pow(a, n) < Pow(b, n)
  {
    PowPositive(a, n);
    if n > 0 {
      PowMonotone(a, b, n - 1);
      ProductMonotone(Pow(a, n - 1), Pow(b, n - 1), a, b);
    }
  }

  ghost function Times(a: real, b: real): real { a * b }

  /** The present value of x paid after t half-years, at growth factor b = 1 + ytm/2 per half-year. */
  function Discounted(x: real, b: real, t: nat): real
    requires b != 0.0
  {
    PowNonZero(b, t);
    x / Pow(b, t)
  }

  lemma QuotientAntitone(x: real, p: real, q: real)
    requires x >= 0.0 && 0.0 < p <= q
    ensures x / p >= x / q >= 0.0
    ensures x > 0.0 && p < q ==> x / p > x / q
  {
    QuotientSign(x, q);
    QuotientSign(x * (q - p), p * q);
    if x > 0.0 && p < q { ProductPositive(x, q - p, x * (q - p)); }
    assert x / p - x / q == (x * (q - p)) / (p * q);
  }

  lemma QuotientSign(x: real, p: real)
    requires x >= 0.0 && p > 0.0
    ensures x / p >= 0.0
    ensures x > 0.0 ==> x / p > 0.0
  {}

  lemma DiscountedAntitone(x: real, b: real, b': real, t: nat)
    requires x >= 0.0 && 0.0 < b < b'
    ensures Discounted(x, b, t) >= Discounted(x, b', t) >= 0.0
    ensures x > 0.0 && t > 0 ==> Discounted(x, b, t) > Discounted(x, b', t)
  {
    PowMonotone(b, b', t);
    QuotientAntitone(x, Pow(b, t), Pow(b', t));
  }

  // ---------------------------------------------------------------------------------------
  // Price
  // ---------------------------------------------------------------------------------------

  /** A bond: face value, semi-annual coupon, and the number of half-years to maturity. */
  datatype Terms = Terms(face: real, couponRate: real, periods: nat)
  {
    function Coupon(): real { face * couponRate / 2.0 }
  }

  function Growth(ytm: real): real { 1.0 + ytm / 2.0 }

  ghost function Coupons(c: real, b: real): int -> real
    requires b != 0.0
  {
    i => if i < 0 then 0.0 else Discounted(c, b, i + 1)
  }

  ghost function Price(t: Terms, ytm: real): real
    requires Growth(ytm) != 0.0
  {
    Sum(t.periods, Coupons(t.Coupon(), Growth(ytm))) + Discounted(t.face, Growth(ytm), t.periods)
  }

  /** A bond that pays something and takes nothing. */
  predicate PaysOut(t: Terms) { t.face > 0.0 && t.couponRate >= 0.0 && t.periods >= 1 }

  /** What the yield search needs: the price strictly falls as the yield rises. */
  lemma PriceDecreases(t: Terms, y: real, y': real)
    requires PaysOut(t) && Growth(y) > 0.0 && y < y'
    ensures Price(t, y) > Price(t, y')
  {
    var c, b, b' := t.Coupon(), Growth(y), Growth(y');
    forall i | 0 <= i < t.periods ensures Coupons(c, b')(i) <= Coupons(c, b)(i) {
      DiscountedAntitone(c, b, b', i + 1);
    }
    SumMonotone(t.periods, Coupons(c, b'), Coupons(c, b));
    DiscountedAntitone(t.face, b, b', t.periods);
  }

  lemma {:induction false} ParTelescopes(face: real, r: real, c: real, b: real, n: nat)
    requires b == 1.0 + r && b != 0.0 && c == face * r
    ensures Sum(n, Coupons(c, b)) + Discounted(face, b, n) == face
  {
    if n > 0 {
      ParTelescopes(face, r, c, b, n - 1);
      ParStep(face, r, c, b, n);
    }
  }

  /** A coupon at rate r and the later face together are worth the face one period earlier. */
  lemma ParStep(face: real, r: real, c: real, b: real, n: nat)
    requires b == 1.0 + r && b != 0.0 && c == face * r && n > 0
    ensures Discounted(c, b, n) + Discounted(face, b, n) == Discounted(face, b, n - 1)
  {
    var p := Pow(b, n - 1);
    PowNonZero(b, n - 1);
    PowNonZero(b, n);
    assert c + face == face * b;
    AddQuotients(c, face, Pow(b, n));
    CancelFactor(face, p, b, Pow(b, n));
  }

  lemma CancelFactor(x: real, p: real, b: real, q: real)
    requires p != 0.0 && q == p * b && q != 0.0
    ensures (x * b) / q == x / p
  {
    var y := x / p;
    assert y * p == x;
    assert y * q == (y * p) * b == x * b;
  }

  /** A bond whose coupon rate equals its yield prices at its face value. */
  lemma ParBond(t: Terms, ytm: real)
    requires Growth(ytm) != 0.0 && t.couponRate == ytm
    ensures Price(t, ytm) == t.face
  {
    ParTelescopes(t.face, ytm / 2.0, t.Coupon(), Growth(ytm), t.periods);
  }

  /**
    What the price is, from maturity backwards: the face then, and half a year earlier the coupon and
    the price that follows, discounted by half the yield.
  */
  lemma PriceOfOneMorePeriod(t: Terms, ytm: real)
    requires Growth(ytm) != 0.0
    ensures Price(t.(periods := 0), ytm) == t.face
    ensures Price(t.(periods := t.periods + 1), ytm) * (1.0 + ytm / 2.0) == Price(t, ytm) + t.face * t.couponRate / 2.0
  {
    PriceOneMore(t, t.(periods := t.periods + 1), t.Coupon(), Growth(ytm), ytm);
    TimesGrowth(Price(t.(periods := t.periods + 1), ytm), ytm);
    PriceAtMaturity(t.(periods := 0), ytm);
  }

  lemma TimesGrowth(p: real, ytm: real)
    ensures Times(p, Growth(ytm)) == p * (1.0 + ytm / 2.0)
  {}

  lemma PriceAtMaturity(t: Terms, ytm: real)
    requires Growth(ytm) != 0.0 && t.periods == 0
    ensures Price(t, ytm) == t.face
  {}

  lemma PriceOneMore(t: Terms, longer: Terms, c: real, b: real, ytm: real)
    requires b == Growth(ytm) != 0.0 && longer == t.(periods := t.periods + 1) && c == t.Coupon()
    ensures Times(Price(longer, ytm), b) == Price(t, ytm) + c
  {
    OneMoreFlow(c, t.face, b, t.periods);
    assert longer.Coupon() == c;
  }

  lemma OneMoreFlow(c: real, face: real, b: real, n: nat)
    requires b != 0.0
    ensures Times(Sum(n + 1, Coupons(c, b)) + Discounted(face, b, n + 1), b) ==
            Sum(n, Coupons(c, b)) + Discounted(face, b, n) + c
  {
    OneMoreCoupon(c, b, n);
    DiscountedOnce(face, b, n);
    AddQuotients(Sum(n, Coupons(c, b)) + c, Discounted(face, b, n), b);
    TimesQuotient(Sum(n, Coupons(c, b)) + c + Discounted(face, b, n), b);
  }

  lemma TimesQuotient(x: real, b: real)
    requires b != 0.0
    ensures Times(x / b, b) == x
  {}

  lemma DiscountedOnce(x: real, b: real, n: nat)
    requires b != 0.0
    ensures Discounted(x, b, n + 1) == Discounted(x, b, n) / b
  {
    PowNonZero(b, n);
    PowNonZero(b, n + 1);
    QuotientTwice(x, Pow(b, n), b, Pow(b, n + 1));
  }

  lemma QuotientTwice(x: real, p: real, b: real, q: real)
    requires p != 0.0 && b != 0.0 && q == p * b && q != 0.0
    ensures x / q == x / p / b
  {
    var y := x / p / b;
    assert y * b == x / p;
    assert y * q == (y * b) * p == x;
  }

  /** The coupons of one more period, seen from the first of them. */
  lemma {:induction false} OneMoreCoupon(c: real, b: real, n: nat)
    requires b != 0.0
    ensures Sum(n + 1, Coupons(c, b)) == (Sum(n, Coupons(c, b)) + c) / b
  {
    if n == 0 {
      assert Pow(b, 1) == b;
      assert Sum(1, Coupons(c, b)) == c / b;
    } else {
      OneMoreCoupon(c, b, n - 1);
      DiscountedOnce(c, b, n);
      AddQuotients(Sum(n - 1, Coupons(c, b)) + c, Discounted(c, b, n), b);
    }
  }

  method BondPrice(t: Terms, ytm: real) returns (pv: real)
    requires Growth(ytm) != 0.0
    ensures pv == Price(t, ytm)
  {
    var c, r := t.Coupon(), ytm / 2.0;
    pv := 0.0;
    for k := 0 to t.periods
      invariant pv == Sum(k, Coupons(c, 1.0 + r))
    {
      PowNonZero(1.0 + r, k + 1);
      pv := pv + c / Pow(1.0 + r, k + 1);
    }
    PowNonZero(1.0 + r, t.periods);
    pv := pv + t.face / Pow(1.0 + r, t.periods);
  }

  // ---------------------------------------------------------------------------------------
  // The yield search
  // ---------------------------------------------------------------------------------------

  const LOW := 0.0001
  const HIGH := 0.5
  const STEPS := 64

  /** The width of the bracket after i halvings. */
  function Width(i: nat): real {
    if i == 0 then HIGH - LOW else Width(i - 1) / 2.0
  }

  lemma {:induction false} WidthIsPower(i: nat)
    ensures Pow(2.0, i) > 0.0 && Width(i) == 0.4999 / Pow(2.0, i)
  {
    PowPositive(2.0, i);
    if i > 0 {
      WidthIsPower(i - 1);
      HalfQuotient(0.4999, Pow(2.0, i - 1));
    }
  }

  lemma HalfQuotient(x: real, p: real)
    requires p > 0.0
    ensures (x / p) / 2.0 == x / (p * 2.0)
  {}

  /** The yield the search is after: inside the bracket if the price is, else the nearer end. */
  ghost predicate Target(t: Terms, corpPrice: real, y: real) {
    && 0.0001 <= y <= 0.5
    && (|| Price(t, y) == corpPrice || (y == 0.0001 && Price(t, y) < corpPrice)
        || (y == 0.5 && Price(t, y) > corpPrice))
  }

  /**
    Bisection over [0.0001, 0.5]. Whatever the target price, the yield found is within
    0.4999 / 2^65 of the one that prices to it, or of the end of the bracket nearest to it.
  */
  method CreditSpread(govtYtm: real, t: Terms, corpPrice: real) returns (spread: real)
    ensures Pow(2.0, 65) > 0.0
    ensures PaysOut(t) ==> forall y | Target(t, corpPrice, y) :: Abs(spread + govtYtm - y) <= 0.4999 / Pow(2.0, 65)
    ensures 0.0001 <= spread + govtYtm <= 0.5
  {
    var lo, hi := LOW, HIGH;
    for i := 0 to STEPS
      invariant LOW <= lo <= hi <= HIGH && hi - lo == Width(i)
      invariant PaysOut(t) ==> forall y | Target(t, corpPrice, y) :: lo <= y <= hi
    {
      var mid := (lo + hi) / 2.0;
      var price := BondPrice(t, mid);
      forall y | PaysOut(t) && Target(t, corpPrice, y)
        ensures if price > corpPrice then mid <= y else y <= mid
      {
        Halve(t, corpPrice, y, mid);
      }
      if price > corpPrice {
        lo := mid;
      } else {
        hi := mid;
      }
    }
    WidthIsPower(STEPS + 1);
    var corpYtm := (lo + hi) / 2.0;
    spread := corpYtm - govtYtm;
  }

  lemma Halve(t: Terms, corpPrice: real, y: real, mid: real)
    requires PaysOut(t) && Target(t, corpPrice, y) && LOW <= mid <= HIGH
    ensures Growth(mid) > 0.0
    ensures if Price(t, mid) > corpPrice then mid <= y else y <= mid
  {
    if y < mid { PriceDecreases(t, y, mid); }
    if mid < y { PriceDecreases(t, mid, y); }
  }

  // ---------------------------------------------------------------------------------------
  // Duration and convexity
  // ---------------------------------------------------------------------------------------

  /** The present value of cash flow i: a coupon, and the face with the last one. */
  ghost function FlowValue(t: Terms, ytm: real): int -> real
    requires Growth(ytm) != 0.0
  {
    i => Coupons(t.Coupon(), Growth(ytm))(i) +
         if i == t.periods - 1 then Discounted(t.face, Growth(ytm), t.periods) else 0.0
  }

  /** The share of cash flow i in the price. */
  ghost function Weights(t: Terms, ytm: real): int -> real
    requires Growth(ytm) != 0.0 && Price(t, ytm) != 0.0
  {
    i => FlowValue(t, ytm)(i) / Price(t, ytm)
  }

  ghost predicate Sensible(t: Terms, ytm: real) {
    PaysOut(t) && Growth(ytm) > 0.0
  }

  lemma PriceIsTotalValue(t: Terms, ytm: real)
    requires Growth(ytm) != 0.0 && t.periods >= 1
    ensures Sum(t.periods, FlowValue(t, ytm)) == Price(t, ytm)
  {
    SumCongruence(t.periods - 1, FlowValue(t, ytm), Coupons(t.Coupon(), Growth(ytm)));
  }

  lemma ValuesNonNegative(t: Terms, ytm: real)
    requires Sensible(t, ytm)
    ensures Discounted(t.face, Growth(ytm), t.periods) > 0.0
    ensures forall i | 0 <= i < t.periods :: Coupons(t.Coupon(), Growth(ytm))(i) >= 0.0
    ensures Price(t, ytm) > 0.0
  {
    var c, b := t.Coupon(), Growth(ytm);
    PowPositive(b, t.periods);
    QuotientSign(t.face, Pow(b, t.periods));
    forall i | 0 <= i < t.periods ensures Coupons(c, b)(i) >= 0.0 {
      PowPositive(b, i + 1);
      QuotientSign(c, Pow(b, i + 1));
    }
    SumNonNegative(t.periods, Coupons(c, b));
  }

  /** The weights are a distribution over the payment dates. */
  lemma WeightsSumToOne(t: Terms, ytm: real)
    requires Sensible(t, ytm)
    ensures Price(t, ytm) > 0.0
    ensures forall i | 0 <= i < t.periods :: Weights(t, ytm)(i) >= 0.0
    ensures Sum(t.periods, Weights(t, ytm)) == 1.0
  {
    ValuesNonNegative(t, ytm);
    PriceIsTotalValue(t, ytm);
    var v, w, p := FlowValue(t, ytm), Weights(t, ytm), Price(t, ytm);
    forall i | 0 <= i < t.periods ensures w(i) >= 0.0 { WeightNonNegative(t, ytm, i); }
    SumQuotient(t.periods, v, w, p);
    SelfQuotient(p);
  }

  lemma SelfQuotient(p: real)
    requires p != 0.0
    ensures p / p == 1.0
  {}

  lemma WeightNonNegative(t: Terms, ytm: real, i: int)
    requires Sensible(t, ytm) && 0 <= i < t.periods
    ensures Price(t, ytm) > 0.0 && Weights(t, ytm)(i) >= 0.0
  {
    ValuesNonNegative(t, ytm);
    QuotientSign(FlowValue(t, ytm)(i), Price(t, ytm));
  }

  lemma {:induction false} SumQuotient(n: nat, v: int -> real, w: int -> real, p: real)
    requires p != 0.0 && forall i | 0 <= i < n :: w(i) == v(i) / p
    ensures Sum(n, w) == Sum(n, v) / p
  {
    if n > 0 {
      SumQuotient(n - 1, v, w, p);
      AddQuotients(Sum(n - 1, v), v(n - 1), p);
    }
  }

  lemma AddQuotients(a: real, b: real, p: real)
    requires p != 0.0
    ensures a / p + b / p == (a + b) / p
  {}

  /** The time of cash flow i in half-years and in years, and the factor of its convexity term. */
  ghost function HalfYears(): int -> real { i => (i + 1) as real }

  ghost function Years(): int -> real { i => (i + 1) as real / 2.0 }

  ghost function TimeSquares(): int -> real { i => ((i + 1) * (i + 2)) as real }

  ghost function Duration(t: Terms, ytm: real): real
    requires Growth(ytm) != 0.0 && Price(t, ytm) != 0.0
  {
    Dot(t.periods, Years(), Weights(t, ytm))
  }

  ghost function ModifiedDurationOf(t: Terms, ytm: real): real
    requires Growth(ytm) != 0.0 && Price(t, ytm) != 0.0
  {
    PerGrowth(Duration(t, ytm), Growth(ytm))
  }

  ghost function PerGrowth(d: real, b: real): real
    requires b != 0.0
  {
    d / b
  }

  ghost function ConvexityOf(t: Terms, ytm: real): real
    requires Growth(ytm) != 0.0 && Price(t, ytm) != 0.0
  {
    PerSquaredGrowth(Dot(t.periods, TimeSquares(), Weights(t, ytm)), Growth(ytm))
  }

  ghost function PerSquaredGrowth(k: real, b: real): real
    requires b != 0.0
  {
    k / (b * b) / 4.0
  }

  /** An average of times weighted by a distribution lies between the first and the last time. */
  lemma {:induction false} AverageBounds(n: nat, x: int -> real, w: int -> real, lo: real, hi: real)
    requires forall i | 0 <= i < n :: w(i) >= 0.0 && lo <= x(i) <= hi
    ensures lo * Sum(n, w) <= Dot(n, x, w) <= hi * Sum(n, w)
  {
    if n > 0 {
      AverageBounds(n - 1, x, w, lo, hi);
      AverageStep(lo, Sum(n - 1, w), Dot(n - 1, x, w), x(n - 1), w(n - 1));
      AverageStep(-hi, Sum(n - 1, w), -Dot(n - 1, x, w), -x(n - 1), w(n - 1));
    }
  }

  lemma AverageStep(lo: real, s: real, d: real, x: real, w: real)
    requires lo * s <= d && lo <= x && w >= 0.0
    ensures lo * (s + w) <= d + x * w
  {
    ScaleOrder(lo, x, w);
  }

  lemma ScaleOrder(a: real, b: real, w: real)
    requires a <= b && w >= 0.0
    ensures a * w <= b * w
  {}

  /** The Macaulay duration lies between half a year and the maturity. */
  lemma DurationBounds(t: Terms, ytm: real)
    requires Sensible(t, ytm)
    ensures Price(t, ytm) > 0.0
    ensures 0.5 <= Duration(t, ytm) <= t.periods as real / 2.0
  {
    WeightsSumToOne(t, ytm);
    AverageBounds(t.periods, Years(), Weights(t, ytm), 0.5, t.periods as real / 2.0);
  }

  /** Without coupons all weight lies on the maturity. */
  lemma ZeroCouponMoment(t: Terms, ytm: real, x: int -> real)
    requires Sensible(t, ytm) && t.couponRate == 0.0
    ensures Price(t, ytm) > 0.0
    ensures Dot(t.periods, x, Weights(t, ytm)) == x(t.periods - 1)
  {
    WeightsSumToOne(t, ytm);
    var n, w := t.periods, Weights(t, ytm);
    forall i | 0 <= i < n - 1 ensures w(i) == 0.0 {
      PowPositive(Growth(ytm), i + 1);
      assert t.Coupon() == 0.0 && Coupons(t.Coupon(), Growth(ytm))(i) == 0.0;
      assert FlowValue(t, ytm)(i) == 0.0;
      assert w(i) == FlowValue(t, ytm)(i) / Price(t, ytm);
    }
    SumZero(n - 1, w);
    var f: int -> real := i => x(i) * w(i);
    forall i | 0 <= i < n - 1 ensures f(i) == 0.0 { assert w(i) == 0.0; }
    SumZero(n - 1, f);
    assert w(n - 1) == 1.0 && f(n - 1) == x(n - 1) * 1.0;
  }

  /** Without coupons the duration is the maturity. */
  lemma ZeroCouponDuration(t: Terms, ytm: real)
    requires Sensible(t, ytm) && t.couponRate == 0.0
    ensures Price(t, ytm) > 0.0
    ensures Duration(t, ytm) == t.periods as real / 2.0
  {
    ZeroCouponMoment(t, ytm, Years());
  }

  ghost function SquareTerm(x: int -> real, w: int -> real): int -> real { i => Square(x(i)) * w(i) }

  ghost function DeviationTerm(x: int -> real, w: int -> real, m: real): int -> real { i => Square(x(i) - m) * w(i) }

  ghost function ProductTerm(x: int -> real, w: int -> real): int -> real { i => x(i) * w(i) }

  lemma {:induction false} SumCombination(n: nat, f: int -> real, g: int -> real, h: int -> real,
                                          a: real, b: real, k: int -> real)
    requires forall i | 0 <= i < n :: k(i) == f(i) + a * g(i) + b * h(i)
    ensures Sum(n, k) == Sum(n, f) + Times(a, Sum(n, g)) + Times(b, Sum(n, h))
  {
    if n > 0 {
      SumCombination(n - 1, f, g, h, a, b, k);
      TimesSum(a, Sum(n - 1, g), g(n - 1));
      TimesSum(b, Sum(n - 1, h), h(n - 1));
    }
  }

  lemma TimesSum(a: real, x: real, y: real)
    ensures Times(a, x + y) == Times(a, x) + a * y
  {}

  /** The spread about m, multiplied out, with a = -2m and b = m^2. */
  lemma SpreadExpands(n: nat, x: int -> real, w: int -> real, m: real, a: real, b: real)
    requires a == -2.0 * m && b == m * m
    ensures Sum(n, DeviationTerm(x, w, m)) ==
            Sum(n, SquareTerm(x, w)) + Times(a, Dot(n, x, w)) + Times(b, Sum(n, w))
  {
    var k, f, g := DeviationTerm(x, w, m), SquareTerm(x, w), ProductTerm(x, w);
    forall i ensures k(i) == f(i) + a * g(i) + b * w(i) { ExpandTerm(x(i), w(i), m, a, b); }
    SumCombination(n, f, g, w, a, b, k);
    SumCongruence(n, i => x(i) * w(i), g);
  }

  lemma ExpandTerm(x: real, w: real, m: real, a: real, b: real)
    requires a == -2.0 * m && b == m * m
    ensures Square(x - m) * w == Square(x) * w + a * (x * w) + b * w
  {
    assert Square(x - m) == Square(x) + a * x + b;
  }

  /** The mean of the squares is at least the square of the mean. */
  lemma MeanSquare(n: nat, x: int -> real, w: int -> real)
    requires (forall i | 0 <= i < n :: w(i) >= 0.0) && Sum(n, w) == 1.0
    ensures Sum(n, SquareTerm(x, w)) >= Square(Dot(n, x, w))
  {
    var m := Dot(n, x, w);
    SpreadExpands(n, x, w, m, -2.0 * m, m * m);
    var dev := DeviationTerm(x, w, m);
    forall i | 0 <= i < n ensures dev(i) >= 0.0 {
      SquareSign(x(i) - m);
      ScaleOrder(0.0, Square(x(i) - m), w(i));
    }
    SumNonNegative(n, dev);
    SquareCompleted(m, -2.0 * m, m * m);
  }

  lemma SquareCompleted(m: real, a: real, b: real)
    requires a == -2.0 * m && b == m * m
    ensures Times(a, m) + Times(b, 1.0) == -Square(m)
  {}

  /** t^2 <= t (t + 1), cash flow by cash flow. */
  lemma {:induction false} SquaresBelow(n: nat, w: int -> real)
    requires forall i | 0 <= i < n :: w(i) >= 0.0
    ensures Sum(n, SquareTerm(HalfYears(), w)) <= Dot(n, TimeSquares(), w)
  {
    if n > 0 {
      SquaresBelow(n - 1, w);
      var k := n as real;
      assert TimeSquares()(n - 1) == k * (k + 1.0) && HalfYears()(n - 1) == k;
      ScaleOrder(Square(k), k * (k + 1.0), w(n - 1));
    }
  }

  lemma {:induction false} YearsAreHalf(n: nat, w: int -> real)
    ensures Dot(n, Years(), w) == 0.5 * Dot(n, HalfYears(), w)
  {
    if n > 0 {
      YearsAreHalf(n - 1, w);
      HalfProduct(n as real, w(n - 1));
      DotStep(n - 1, Years(), w, n as real / 2.0, w(n - 1));
      DotStep(n - 1, HalfYears(), w, n as real, w(n - 1));
    }
  }

  /** Convexity is at least the square of the modified duration. */
  lemma ConvexityBound(t: Terms, ytm: real)
    requires Sensible(t, ytm)
    ensures Price(t, ytm) > 0.0
    ensures ConvexityOf(t, ytm) >= Square(ModifiedDurationOf(t, ytm))
  {
    WeightsSumToOne(t, ytm);
    var n, w, b := t.periods, Weights(t, ytm), Growth(ytm);
    MomentSquares(n, w);
    SquareOverSquare(Dot(n, TimeSquares(), w), Dot(n, HalfYears(), w), Duration(t, ytm), b);
  }

  lemma MomentSquares(n: nat, w: int -> real)
    requires (forall i | 0 <= i < n :: w(i) >= 0.0) && Sum(n, w) == 1.0
    ensures Dot(n, TimeSquares(), w) >= Square(Dot(n, HalfYears(), w))
    ensures Dot(n, Years(), w) == 0.5 * Dot(n, HalfYears(), w)
  {
    MeanSquare(n, HalfYears(), w);
    SquaresBelow(n, w);
    YearsAreHalf(n, w);
  }

  lemma HalfProduct(x: real, w: real)
    ensures (x / 2.0) * w == 0.5 * (x * w)
  {}

  lemma SquareOverSquare(conv: real, m: real, d: real, b: real)
    requires conv >= Square(m) && d == 0.5 * m && b > 0.0
    ensures PerSquaredGrowth(conv, b) >= Square(PerGrowth(d, b))
  {
    var s := b * b;
    ProductPositive(b, b, s);
    QuotientSign(conv - m * m, s);
    assert conv / s - (m * m) / s == (conv - m * m) / s;
    assert (d / b) * (d / b) == (d * d) / s;
    assert d * d == m * m / 4.0;
    assert (m * m / 4.0) / s == (m * m) / s / 4.0;
  }

  /** Without coupons there is one cash flow, at maturity. */
  lemma ZeroCouponConvexity(t: Terms, ytm: real)
    requires Sensible(t, ytm) && t.couponRate == 0.0
    ensures Price(t, ytm) > 0.0 && Square(1.0 + ytm / 2.0) > 0.0
    ensures ConvexityOf(t, ytm) == (t.periods * (t.periods + 1)) as real / (4.0 * Square(1.0 + ytm / 2.0))
  {
    ZeroCouponMoment(t, ytm, TimeSquares());
    SquareSign(Growth(ytm));
    QuarterQuotient(TimeSquares()(t.periods - 1), Square(Growth(ytm)));
  }

  /** The convexity lies between those of bonds without coupons over one half-year and to maturity. */
  lemma ConvexityBounds(t: Terms, ytm: real)
    requires Sensible(t, ytm)
    ensures Price(t, ytm) > 0.0 && Square(1.0 + ytm / 2.0) > 0.0
    ensures 1.0 / (2.0 * Square(1.0 + ytm / 2.0)) <= ConvexityOf(t, ytm)
    ensures ConvexityOf(t, ytm) <= (t.periods * (t.periods + 1)) as real / (4.0 * Square(1.0 + ytm / 2.0))
  {
    WeightsSumToOne(t, ytm);
    SquareSign(Growth(ytm));
    var n, w, s := t.periods, Weights(t, ytm), Square(Growth(ytm));
    forall i | 0 <= i < n ensures 2.0 <= TimeSquares()(i) <= (n * (n + 1)) as real {
      ProductOrder(1, i + 1, 2, i + 2);
      ProductOrder(i + 1, n, i + 2, n + 1);
    }
    AverageBounds(n, TimeSquares(), w, 2.0, (n * (n + 1)) as real);
    QuotientOrder(2.0, Dot(n, TimeSquares(), w), s);
    QuotientOrder(Dot(n, TimeSquares(), w), (n * (n + 1)) as real, s);
    QuarterQuotient(2.0, s);
    QuarterQuotient((n * (n + 1)) as real, s);
  }

  lemma ProductOrder(a: int, a': int, b: int, b': int)
    requires 0 <= a <= a' && 0 <= b <= b'
    ensures a * b <= a' * b'
  {
    assert a * b <= a * b' && a * b' <= a' * b';
  }

  lemma QuotientOrder(x: real, y: real, s: real)
    requires x <= y && s > 0.0
    ensures x / s <= y / s
  {
    QuotientSign(y - x, s);
    assert y / s - x / s == (y - x) / s;
  }

  lemma QuarterQuotient(x: real, s: real)
    requires s > 0.0
    ensures x / s / 4.0 == x / (4.0 * s)
    ensures x == 2.0 ==> x / (4.0 * s) == 1.0 / (2.0 * s)
  {}

  // ---------------------------------------------------------------------------------------
  // What duration and convexity are for: how the price moves with the yield
  // ---------------------------------------------------------------------------------------

  /** 1/(1 + h)^n to first and to second order in h. */
  function Tangent(n: nat, h: real): real { 1.0 - n as real * h }

  function Parabola(n: nat, h: real): real { Tangent(n, h) + (n * (n + 1)) as real / 2.0 * (h * h) }

  /** One step of the induction on n: (1 + h) x against y. */
  ghost function Excess(x: real, y: real, h: real): real { (1.0 + h) * x - y }

  /** x is at least 1/q where the yield rises, and at most that where it falls. */
  ghost predicate Beside(x: real, q: real, h: real) { (h >= 0.0 ==> x * q >= 1.0) && (h <= 0.0 ==> x * q <= 1.0) }

  lemma TangentStep(n: nat, h: real)
    requires n > 0
    ensures Excess(Tangent(n, h), Tangent(n - 1, h), h) == -(n as real * (h * h))
  {}

  lemma ParabolaStep(n: nat, h: real)
    requires n > 0
    ensures Excess(Parabola(n, h), Parabola(n - 1, h), h) == (n * (n + 1)) as real / 2.0 * (h * h * h)
  {
    var k, sq := n as real, h * h;
    TangentStep(n, h);
    assert (n * (n + 1)) as real == k * (k + 1.0) && ((n - 1) * n) as real == (k - 1.0) * k;
    Completed(k, h, sq);
  }

  lemma Completed(k: real, h: real, sq: real)
    ensures (1.0 + h) * (k * (k + 1.0) / 2.0 * sq) ==
            (k - 1.0) * k / 2.0 * sq + k * sq + k * (k + 1.0) / 2.0 * (sq * h)
  {
    var a := k * (k + 1.0) / 2.0;
    assert a == (k - 1.0) * k / 2.0 + k;
    assert (1.0 + h) * (a * sq) == a * sq + a * (sq * h);
  }

  /** The product with the power, one step down. */
  lemma PowerStep(x: real, y: real, p: real, h: real, q: real)
    requires q == p * (1.0 + h)
    ensures x * q == y * p + Excess(x, y, h) * p
  {
    assert x * q == ((1.0 + h) * x) * p;
  }

  lemma {:induction false} TangentBelow(n: nat, h: real)
    requires h > -1.0
    ensures Times(Tangent(n, h), Pow(1.0 + h, n)) <= 1.0
  {
    if n > 0 {
      TangentBelow(n - 1, h);
      PowPositive(1.0 + h, n - 1);
      TangentStep(n, h);
      SquareSign(h);
      ScaleOrder(0.0, Square(h), n as real);
      StaysBelow(Tangent(n, h), Tangent(n - 1, h), Pow(1.0 + h, n - 1), h, Pow(1.0 + h, n));
    }
  }

  lemma StaysBelow(x: real, y: real, p: real, h: real, q: real)
    requires p >= 0.0 && q == p * (1.0 + h) && Times(y, p) <= 1.0 && Excess(x, y, h) <= 0.0
    ensures Times(x, q) <= 1.0
  {
    PowerStep(x, y, p, h, q);
    ScaleOrder(Excess(x, y, h), 0.0, p);
  }

  lemma {:induction false} ParabolaBeside(n: nat, h: real)
    requires h > -1.0
    ensures Beside(Parabola(n, h), Pow(1.0 + h, n), h)
  {
    if n > 0 {
      ParabolaBeside(n - 1, h);
      PowPositive(1.0 + h, n - 1);
      ParabolaStep(n, h);
      ProductOrder(0, n, 0, n + 1);
      CubeSign(h, (n * (n + 1)) as real / 2.0);
      StaysBeside(Parabola(n, h), Parabola(n - 1, h), Pow(1.0 + h, n - 1), h, Pow(1.0 + h, n));
    }
  }

  lemma StaysBeside(x: real, y: real, p: real, h: real, q: real)
    requires p >= 0.0 && q == p * (1.0 + h) && Beside(y, p, h)
    requires (h >= 0.0 ==> Excess(x, y, h) >= 0.0) && (h <= 0.0 ==> Excess(x, y, h) <= 0.0)
    ensures Beside(x, q, h)
  {
    PowerStep(x, y, p, h, q);
    if h >= 0.0 { ScaleOrder(0.0, Excess(x, y, h), p); }
    if h <= 0.0 { ScaleOrder(Excess(x, y, h), 0.0, p); }
  }

  lemma CubeSign(h: real, c: real)
    requires c >= 0.0
    ensures h >= 0.0 ==> c * (h * h * h) >= 0.0
    ensures h <= 0.0 ==> c * (h * h * h) <= 0.0
  {
    SquareSign(h);
    if h >= 0.0 {
      ScaleOrder(0.0, h * h, h);
      ScaleOrder(0.0, h * h * h, c);
    } else {
      ScaleOrder(0.0, h * h, -h);
      ScaleOrder(h * h * h, 0.0, c);
    }
  }

  lemma {:induction false} PowProduct(a: real, b: real, ab: real, n: nat)
    requires ab == a * b
    ensures Pow(ab, n) == Pow(a, n) * Pow(b, n)
  {
    if n > 0 {
      PowProduct(a, b, ab, n - 1);
      FourFactors(Pow(a, n - 1), Pow(b, n - 1), a, b);
    }
  }

  lemma FourFactors(p: real, q: real, a: real, b: real)
    ensures (p * q) * (a * b) == (p * a) * (q * b)
  {}

  ghost predicate Grows(b: real, b': real, q: real) { b' == b * q }

  /** The same payment, discounted at two yields. */
  lemma DiscountedShift(x: real, b: real, q: real, b': real, n: nat)
    requires b > 0.0 && q > 0.0 && b' > 0.0 && Grows(b, b', q)
    ensures Discounted(x, b', n) * Pow(q, n) == Discounted(x, b, n)
  {
    PowProduct(b, q, b', n);
    PowPositive(b, n);
    PowPositive(q, n);
    PowPositive(b', n);
    QuotientTwice(x, Pow(b, n), Pow(q, n), Pow(b', n));
  }

  lemma FlowShift(t: Terms, y: real, y': real, q: real, i: nat)
    requires Growth(y) > 0.0 && q > 0.0 && Growth(y') > 0.0 && Grows(Growth(y), Growth(y'), q) && i < t.periods
    ensures Times(FlowValue(t, y')(i), Pow(q, i + 1)) == FlowValue(t, y)(i)
  {
    DiscountedShift(t.Coupon(), Growth(y), q, Growth(y'), i + 1);
    DiscountedShift(t.face, Growth(y), q, Growth(y'), i + 1);
    FlowAt(t, y, i);
    FlowAt(t, y', i);
    SumTimes(Discounted(t.Coupon(), Growth(y'), i + 1), Discounted(t.face, Growth(y'), i + 1), Pow(q, i + 1));
  }

  lemma FlowAt(t: Terms, y: real, i: nat)
    requires Growth(y) != 0.0 && i < t.periods
    ensures FlowValue(t, y)(i) == Discounted(t.Coupon(), Growth(y), i + 1) +
                                  if i == t.periods - 1 then Discounted(t.face, Growth(y), i + 1) else 0.0
  {
    assert Coupons(t.Coupon(), Growth(y))(i) == Discounted(t.Coupon(), Growth(y), i + 1);
  }

  lemma SumTimes(x: real, y: real, q: real)
    ensures (x + y) * q == x * q + y * q
  {}

  lemma FlowNonNegative(t: Terms, y: real, i: nat)
    requires Sensible(t, y) && i < t.periods
    ensures FlowValue(t, y)(i) >= 0.0
  {
    ValuesNonNegative(t, y);
  }

  /** A cash flow's value v at one yield and v' at another, q = (1 + h)^n being the quotient of the discounts. */
  lemma FlowBounds(v: real, v': real, q: real, tangent: real, parabola: real, h: real)
    requires v' >= 0.0 && Times(v', q) == v && Times(tangent, q) <= 1.0 && Beside(parabola, q, h)
    ensures Times(tangent, v) <= v'
    ensures h >= 0.0 ==> v' <= Times(parabola, v)
    ensures h <= 0.0 ==> Times(parabola, v) <= v'
  {
    ScaleOrder(tangent * q, 1.0, v');
    assert tangent * v == (tangent * q) * v' && parabola * v == (parabola * q) * v';
    if h >= 0.0 { ScaleOrder(1.0, parabola * q, v'); }
    if h <= 0.0 { ScaleOrder(parabola * q, 1.0, v'); }
  }

  /** With a = -h, a cash flow's value times its tangent (b = 0) or its parabola (b = h^2/2). */
  ghost function FlowEstimate(t: Terms, y: real, a: real, b: real): int -> real
    requires Growth(y) != 0.0
  {
    i => FlowValue(t, y)(i) + a * ProductTerm(HalfYears(), FlowValue(t, y))(i) +
         b * ProductTerm(TimeSquares(), FlowValue(t, y))(i)
  }

  lemma FlowEstimateIs(t: Terms, y: real, h: real, half: real, i: nat)
    requires Growth(y) != 0.0 && half == h * h / 2.0
    ensures FlowEstimate(t, y, -h, 0.0)(i) == Times(Tangent(i + 1, h), FlowValue(t, y)(i))
    ensures FlowEstimate(t, y, -h, half)(i) == Times(Parabola(i + 1, h), FlowValue(t, y)(i))
  {
    var v, k, m := FlowValue(t, y)(i), (i + 1) as real, ((i + 1) * (i + 2)) as real;
    EstimateIs(v, k, m, h, half);
    assert m / 2.0 * (h * h) == m * half;
  }

  lemma EstimateIs(v: real, k: real, m: real, h: real, b: real)
    ensures v + -h * (k * v) == (1.0 - k * h) * v
    ensures v + -h * (k * v) + b * (m * v) == (1.0 - k * h + m * b) * v
  {
    assert -h * (k * v) == -(k * h) * v && b * (m * v) == (m * b) * v;
  }

  lemma EachFlowBounded(t: Terms, y: real, y': real, h: real, half: real, i: nat)
    requires Sensible(t, y) && Sensible(t, y') && i < t.periods
    requires h > -1.0 && Grows(Growth(y), Growth(y'), 1.0 + h) && half == h * h / 2.0
    ensures FlowEstimate(t, y, -h, 0.0)(i) <= FlowValue(t, y')(i)
    ensures h >= 0.0 ==> FlowValue(t, y')(i) <= FlowEstimate(t, y, -h, half)(i)
    ensures h <= 0.0 ==> FlowEstimate(t, y, -h, half)(i) <= FlowValue(t, y')(i)
  {
    FlowShift(t, y, y', 1.0 + h, i);
    FlowNonNegative(t, y', i);
    TangentBelow(i + 1, h);
    ParabolaBeside(i + 1, h);
    FlowEstimateIs(t, y, h, half, i);
    var v, v', q := FlowValue(t, y)(i), FlowValue(t, y')(i), Pow(1.0 + h, i + 1);
    FlowBounds(v, v', q, Tangent(i + 1, h), Parabola(i + 1, h), h);
  }

  lemma EstimateTotal(t: Terms, y: real, a: real, b: real)
    requires Growth(y) != 0.0 && t.periods >= 1
    ensures var v := FlowValue(t, y);
            Sum(t.periods, FlowEstimate(t, y, a, b)) ==
            Price(t, y) + Times(a, Dot(t.periods, HalfYears(), v)) + Times(b, Dot(t.periods, TimeSquares(), v))
  {
    var n, v := t.periods, FlowValue(t, y);
    var f, g := ProductTerm(HalfYears(), v), ProductTerm(TimeSquares(), v);
    SumCombination(n, v, f, g, a, b, FlowEstimate(t, y, a, b));
    PriceIsTotalValue(t, y);
    SumCongruence(n, i => HalfYears()(i) * v(i), f);
    SumCongruence(n, i => TimeSquares()(i) * v(i), g);
  }

  /** The price between estimates made of the moments of the cash flows. */
  lemma PriceBounds(t: Terms, y: real, y': real, h: real, half: real)
    requires Sensible(t, y) && Sensible(t, y') && h > -1.0 && Grows(Growth(y), Growth(y'), 1.0 + h)
    requires half == h * h / 2.0
    ensures Price(t, y') >= Sum(t.periods, FlowEstimate(t, y, -h, 0.0))
    ensures h >= 0.0 ==> Price(t, y') <= Sum(t.periods, FlowEstimate(t, y, -h, half))
    ensures h <= 0.0 ==> Price(t, y') >= Sum(t.periods, FlowEstimate(t, y, -h, half))
  {
    var n, v', lower, both := t.periods, FlowValue(t, y'), FlowEstimate(t, y, -h, 0.0), FlowEstimate(t, y, -h, half);
    PriceIsTotalValue(t, y');
    forall i | 0 <= i < n
      ensures lower(i) <= v'(i) && (h >= 0.0 ==> v'(i) <= both(i)) && (h <= 0.0 ==> both(i) <= v'(i))
    {
      EachFlowBounded(t, y, y', h, half, i);
    }
    SumMonotone(n, lower, v');
    if h >= 0.0 { SumMonotone(n, v', both); }
    if h <= 0.0 { SumMonotone(n, both, v'); }
  }

  lemma {:induction false} WeightedMoment(n: nat, g: int -> real, v: int -> real, w: int -> real, p: real)
    requires p != 0.0 && forall i | 0 <= i < n :: w(i) == v(i) / p
    ensures p * Dot(n, g, w) == Dot(n, g, v)
  {
    if n > 0 {
      WeightedMoment(n - 1, g, v, w, p);
      DotStep(n - 1, g, w, g(n - 1), w(n - 1));
      DotStep(n - 1, g, v, g(n - 1), v(n - 1));
      ScaledTerm(p, g(n - 1), v(n - 1), w(n - 1));
    }
  }

  lemma ScaledTerm(p: real, g: real, v: real, w: real)
    requires p != 0.0 && w == v / p
    ensures p * (g * w) == g * v
  {
    assert w * p == v;
  }

  /** What duration and convexity make of a move of the yield. */
  ghost function FirstMove(p: real, duration: real, delta: real): real { p * (duration * delta) }

  ghost function SecondMove(p: real, convexity: real, delta: real): real { p * (convexity / 2.0 * Square(delta)) }

  /** The yield moves by delta when the growth factor b changes by the fraction h. */
  ghost predicate Shifts(b: real, h: real, delta: real) { delta == 2.0 * (b * h) }

  lemma FirstOrder(p: real, duration: real, modified: real, b: real, h: real, delta: real)
    requires b > 0.0 && modified == PerGrowth(duration, b) && Shifts(b, h, delta)
    ensures FirstMove(p, modified, delta) == 2.0 * h * (p * duration)
  {
    assert modified * b == duration;
    assert modified * delta == 2.0 * h * (modified * b);
  }

  lemma SecondOrder(p: real, k: real, conv: real, b: real, h: real, delta: real)
    requires b > 0.0 && b * b > 0.0 && conv == PerSquaredGrowth(k, b) && Shifts(b, h, delta)
    ensures SecondMove(p, conv, delta) == h * h / 2.0 * (p * k)
  {
    var bb, half := b * b, h * h / 2.0;
    assert 4.0 * conv * bb == k;
    assert Square(delta) == 4.0 * (bb * (h * h));
    assert conv / 2.0 * Square(delta) == (4.0 * conv * bb) * half;
    assert p * (k * half) == half * (p * k);
  }

  /** The price p' after the yield has moved by delta, against its tangent and its parabola at price p. */
  ghost predicate Expands(p: real, p': real, duration: real, convexity: real, delta: real) {
    var tangent := p * (1.0 - duration * delta);
    var parabola := p * (1.0 - duration * delta + convexity / 2.0 * Square(delta));
    && p' >= tangent
    && (delta >= 0.0 ==> p' <= parabola)
    && (delta <= 0.0 ==> p' >= parabola)
  }

  /**
    What duration and convexity tell about any other yield. The price is never below its tangent, whose
    slope is the modified duration; and the parabola with the convexity is above the price where the
    yield rises and below it where it falls. No other two figures have this property.
  */
  lemma PriceExpansion(t: Terms, y: real, y': real)
    requires Sensible(t, y) && Sensible(t, y')
    ensures Price(t, y) > 0.0
    ensures Expands(Price(t, y), Price(t, y'), ModifiedDurationOf(t, y), ConvexityOf(t, y), y' - y)
  {
    ValuesNonNegative(t, y);
    var h := RelativeMove(Growth(y), Growth(y'), y' - y);
    ExpansionAt(t, y, y', h, h * h / 2.0, y' - y);
  }

  lemma ExpansionAt(t: Terms, y: real, y': real, h: real, half: real, delta: real)
    requires Sensible(t, y) && Sensible(t, y') && h > -1.0 && Grows(Growth(y), Growth(y'), 1.0 + h)
    requires half == h * h / 2.0 && Shifts(Growth(y), h, delta)
    requires (delta >= 0.0 <==> h >= 0.0) && (delta <= 0.0 <==> h <= 0.0)
    ensures Price(t, y) > 0.0
    ensures Expands(Price(t, y), Price(t, y'), ModifiedDurationOf(t, y), ConvexityOf(t, y), delta)
  {
    ValuesNonNegative(t, y);
    PriceBounds(t, y, y', h, half);
    EstimateTotal(t, y, -h, 0.0);
    EstimateTotal(t, y, -h, half);
    var first := DurationTells(t, y, h, delta);
    var second := ConvexityTells(t, y, h, half, delta);
    Assemble(Price(t, y), Price(t, y'), ModifiedDurationOf(t, y), ConvexityOf(t, y), delta, first, second);
  }

  lemma Assemble(p: real, p': real, d: real, c: real, delta: real, first: real, second: real)
    requires FirstMove(p, d, delta) == first && SecondMove(p, c, delta) == second
    requires p' >= p - first
    requires delta >= 0.0 ==> p' <= p - first + second
    requires delta <= 0.0 ==> p' >= p - first + second
    ensures Expands(p, p', d, c, delta)
  {
    Distribute(p, d * delta, c / 2.0 * Square(delta));
  }

  /** The first moment of the cash flows, in terms of the duration. */
  lemma DurationTells(t: Terms, y: real, h: real, delta: real) returns (first: real)
    requires Sensible(t, y) && Shifts(Growth(y), h, delta)
    ensures Price(t, y) > 0.0
    ensures FirstMove(Price(t, y), ModifiedDurationOf(t, y), delta) == first
    ensures Times(-h, Dot(t.periods, HalfYears(), FlowValue(t, y))) == -first
  {
    DurationMoment(t, y);
    FirstOrder(Price(t, y), Duration(t, y), ModifiedDurationOf(t, y), Growth(y), h, delta);
    first := FirstMove(Price(t, y), ModifiedDurationOf(t, y), delta);
    HalfTwice(h, Price(t, y) * Duration(t, y), Dot(t.periods, HalfYears(), FlowValue(t, y)));
  }

  lemma HalfTwice(h: real, x: real, m: real)
    requires x == 0.5 * m
    ensures -h * m == -(2.0 * h * x)
  {}

  lemma DurationMoment(t: Terms, y: real)
    requires Sensible(t, y)
    ensures Price(t, y) > 0.0
    ensures Price(t, y) * Duration(t, y) == 0.5 * Dot(t.periods, HalfYears(), FlowValue(t, y))
  {
    ValuesNonNegative(t, y);
    WeightedMoment(t.periods, Years(), FlowValue(t, y), Weights(t, y), Price(t, y));
    YearsAreHalf(t.periods, FlowValue(t, y));
  }

  /** And the second, in terms of the convexity. */
  lemma ConvexityTells(t: Terms, y: real, h: real, half: real, delta: real) returns (second: real)
    requires Sensible(t, y) && half == h * h / 2.0 && Shifts(Growth(y), h, delta)
    ensures Price(t, y) > 0.0
    ensures SecondMove(Price(t, y), ConvexityOf(t, y), delta) == second
    ensures Times(half, Dot(t.periods, TimeSquares(), FlowValue(t, y))) == second
  {
    ConvexityMoment(t, y);
    ProductPositive(Growth(y), Growth(y), Growth(y) * Growth(y));
    var k := Dot(t.periods, TimeSquares(), Weights(t, y));
    SecondOrder(Price(t, y), k, ConvexityOf(t, y), Growth(y), h, delta);
    second := SecondMove(Price(t, y), ConvexityOf(t, y), delta);
  }

  lemma ConvexityMoment(t: Terms, y: real)
    requires Sensible(t, y)
    ensures Price(t, y) > 0.0
    ensures Price(t, y) * Dot(t.periods, TimeSquares(), Weights(t, y)) ==
            Dot(t.periods, TimeSquares(), FlowValue(t, y))
  {
    ValuesNonNegative(t, y);
    WeightedMoment(t.periods, TimeSquares(), FlowValue(t, y), Weights(t, y), Price(t, y));
  }

  lemma RelativeMove(b: real, b': real, delta: real) returns (h: real)
    requires b > 0.0 && b' > 0.0 && b' - b == delta / 2.0
    ensures h > -1.0 && Grows(b, b', 1.0 + h) && Shifts(b, h, delta)
    ensures (delta >= 0.0 <==> h >= 0.0) && (delta <= 0.0 <==> h <= 0.0)
  {
    h := (b' - b) / b;
    assert b * h == b' - b;
    if h <= -1.0 { ScaleOrder(h, -1.0, b); }
  }

  lemma Distribute(p: real, x: real, z: real)
    ensures p * (1.0 - x) == p - p * x
    ensures p * (1.0 - x + z) == p - p * x + p * z
  {}

  /** The terms a loop over the coupons accumulates. */
  ghost function CouponTerms(g: int -> real, cp: int -> real, p: real): int -> real
    requires p != 0.0
  {
    i => g(i) * (cp(i) / p)
  }

  /** Splitting the face off the last weight: how the loops accumulate a weighted sum. */
  lemma SplitFace(n: nat, g: int -> real, cp: int -> real, fp: real, p: real, w: int -> real)
    requires p != 0.0 && n >= 1
    requires forall i | 0 <= i < n - 1 :: w(i) == cp(i) / p
    requires w(n - 1) == (cp(n - 1) + fp) / p
    ensures Dot(n, g, w) == Sum(n, CouponTerms(g, cp, p)) + g(n - 1) * (fp / p)
  {
    SumCongruence(n - 1, i => g(i) * w(i), CouponTerms(g, cp, p));
    SplitProduct(g(n - 1), cp(n - 1), fp, p);
  }

  lemma SplitProduct(g: real, c: real, f: real, p: real)
    requires p != 0.0
    ensures g * ((c + f) / p) == g * (c / p) + g * (f / p)
  {
    AddQuotients(c, f, p);
  }

  lemma WeightsSplit(t: Terms, ytm: real, g: int -> real)
    requires Growth(ytm) != 0.0 && Price(t, ytm) != 0.0 && (t.periods == 0 ==> g(-1) == 0.0)
    ensures Dot(t.periods, g, Weights(t, ytm)) ==
            Sum(t.periods, CouponTerms(g, Coupons(t.Coupon(), Growth(ytm)), Price(t, ytm))) +
            g(t.periods - 1) * (Discounted(t.face, Growth(ytm), t.periods) / Price(t, ytm))
  {
    if t.periods == 0 { return; }
    var w, v := Weights(t, ytm), FlowValue(t, ytm);
    forall i ensures w(i) == v(i) / Price(t, ytm) {}
    var fp := Discounted(t.face, Growth(ytm), t.periods);
    SplitFace(t.periods, g, Coupons(t.Coupon(), Growth(ytm)), fp, Price(t, ytm), w);
  }

  lemma Reassociate(g: real, v: real, p: real)
    requires p != 0.0
    ensures g * v / p == g * (v / p)
  {}

  /** The loop's term for coupon k is that of the weighted sum. */
  lemma CouponTerm(g: int -> real, c: real, b: real, p: real, k: nat, time: real, pv: real)
    requires b != 0.0 && p != 0.0 && time == g(k) && pv == Discounted(c, b, k + 1)
    ensures CouponTerms(g, Coupons(c, b), p)(k) == time * pv / p
  {
    Reassociate(time, pv, p);
  }

  lemma DurationTotal(t: Terms, ytm: real, acc: real, pvFace: real)
    requires Growth(ytm) != 0.0 && Price(t, ytm) != 0.0 && pvFace == Discounted(t.face, Growth(ytm), t.periods)
    requires acc == Sum(t.periods, CouponTerms(Years(), Coupons(t.Coupon(), Growth(ytm)), Price(t, ytm)))
    ensures acc + (t.periods as real / 2.0) * pvFace / Price(t, ytm) == Duration(t, ytm)
  {
    WeightsSplit(t, ytm, Years());
    Reassociate(t.periods as real / 2.0, pvFace, Price(t, ytm));
  }

  method MacaulayDuration(t: Terms, ytm: real) returns (weightedTime: real)
    requires Growth(ytm) != 0.0 && Price(t, ytm) != 0.0
    ensures weightedTime == Duration(t, ytm)
  {
    var c, b := t.Coupon(), 1.0 + ytm / 2.0;
    var price := BondPrice(t, ytm);
    weightedTime := 0.0;
    ghost var f := CouponTerms(Years(), Coupons(c, b), price);
    for k := 0 to t.periods
      invariant weightedTime == Sum(k, f)
    {
      var pv := Discounted(c, b, k + 1);
      var years := (k + 1) as real / 2.0;
      CouponTerm(Years(), c, b, price, k, years, pv);
      weightedTime := weightedTime + years * pv / price;
    }
    var pvFace := Discounted(t.face, b, t.periods);
    DurationTotal(t, ytm, weightedTime, pvFace);
    weightedTime := weightedTime + (t.periods as real / 2.0) * pvFace / price;
  }

  method ModifiedDuration(t: Terms, ytm: real) returns (d: real)
    requires Growth(ytm) != 0.0 && Price(t, ytm) != 0.0
    ensures d == ModifiedDurationOf(t, ytm)
  {
    var mac := MacaulayDuration(t, ytm);
    d := mac / (1.0 + ytm / 2.0);
  }

  /** Dividing every term by the same positive s divides the sum. */
  lemma {:induction false} TermsOver(n: nat, g: int -> real, cp: int -> real, p: real, s: real, ps: real)
    requires p != 0.0 && s != 0.0 && ps == p * s && ps != 0.0
    ensures Sum(n, CouponTerms(g, cp, ps)) == Sum(n, CouponTerms(g, cp, p)) / s
  {
    if n > 0 {
      TermsOver(n - 1, g, cp, p, s, ps);
      QuotientOfQuotient(g(n - 1), cp(n - 1), p, s, ps);
      AddQuotients(Sum(n - 1, CouponTerms(g, cp, p)), g(n - 1) * (cp(n - 1) / p), s);
    }
  }

  lemma QuotientOfQuotient(g: real, v: real, p: real, s: real, ps: real)
    requires p != 0.0 && s != 0.0 && ps == p * s && ps != 0.0
    ensures g * (v / ps) == (g * (v / p)) / s
  {
    assert v / ps == (v / p) / s;
  }

  lemma ConvexityTotal(t: Terms, ytm: real, s: real, ps: real, acc: real, pvFace: real, last: real)
    requires Growth(ytm) != 0.0 && Price(t, ytm) != 0.0 && pvFace == Discounted(t.face, Growth(ytm), t.periods)
    requires s == Growth(ytm) * Growth(ytm) && s != 0.0 && ps == Price(t, ytm) * s && ps != 0.0
    requires acc == Sum(t.periods, CouponTerms(TimeSquares(), Coupons(t.Coupon(), Growth(ytm)), ps))
    requires last == TimeSquares()(t.periods - 1)
    ensures acc + last * pvFace / ps == Dot(t.periods, TimeSquares(), Weights(t, ytm)) / s
  {
    var p, cp := Price(t, ytm), Coupons(t.Coupon(), Growth(ytm));
    WeightsSplit(t, ytm, TimeSquares());
    TermsOver(t.periods, TimeSquares(), cp, p, s, ps);
    Reassociate(last, pvFace, ps);
    QuotientOfQuotient(last, pvFace, p, s, ps);
    AddQuotients(Sum(t.periods, CouponTerms(TimeSquares(), cp, p)), last * (pvFace / p), s);
  }

  /** The loop over the coupons, with ps = price * (1 + r)^2. */
  method CouponConvexity(c: real, b: real, ps: real, n: nat) returns (conv: real)
    requires b != 0.0 && ps != 0.0
    ensures conv == Sum(n, CouponTerms(TimeSquares(), Coupons(c, b), ps))
  {
    conv := 0.0;
    for k := 0 to n
      invariant conv == Sum(k, CouponTerms(TimeSquares(), Coupons(c, b), ps))
    {
      var pv := Discounted(c, b, k + 1);
      var tt := ((k + 1) * (k + 2)) as real;
      CouponTerm(TimeSquares(), c, b, ps, k, tt, pv);
      conv := conv + tt * pv / ps;
    }
  }

  method Convexity(t: Terms, ytm: real) returns (conv: real)
    requires Growth(ytm) != 0.0 && Price(t, ytm) != 0.0
    ensures conv == ConvexityOf(t, ytm)
  {
    var c, b := t.Coupon(), 1.0 + ytm / 2.0;
    var price := BondPrice(t, ytm);
    var s := b * b;
    ProductNonZero(b, b, s);
    var ps := price * s;
    ProductNonZero(price, s, ps);
    conv := CouponConvexity(c, b, ps, t.periods);
    var pvFace := Discounted(t.face, b, t.periods);
    var last := (t.periods * (t.periods + 1)) as real;
    ConvexityTotal(t, ytm, s, ps, conv, pvFace, last);
    conv := conv + last * pvFace / ps;
    conv := conv / 4.0;
  }
}
