/**
 The Wilson lower confidence bound over the reals. The square root and the normal quantile
 are parameters: a root is non-negative and squares back, the quantile is monotone with
 median zero.
 */
module Wilson {
  datatype Numerics = Numerics(quantile: real -> real, root: real -> real) {
    ghost predicate Sound() {
      && (forall x, y :: x <= y ==> quantile(x) <= quantile(y))
      && quantile(0.5) == 0.0
      && (forall x :: x >= 0.0 ==> root(x) >= 0.0 && root(x) * root(x) == x)
    }
  }

  function Clamp(x: real): real {
    if x < 0.0 then 0.0 else if x > 1.0 then 1.0 else x
  }

  function Radicand(p: real, n: real, z: real): real
    requires n > 0.0
  {
    p * (1.0 - p) / n + (z / n) * (z / n) / 4.0
  }

  lemma QuotientNonNegative(a: real, b: real)
    requires a >= 0.0 && b > 0.0
    ensures a / b >= 0.0
  {
  }

  function Unclamped(p: real, n: real, z: real, s: real): real
    requires n > 0.0
  {
    QuotientNonNegative(z * z, n);
    var center := p + z * z / n / 2.0;
    var margin := z * s;
    (center - margin) / (1.0 + z * z / n)
  }

  function LowerBound(m: Numerics, successes: nat, trials: nat, alpha: real): real {
    if trials == 0 then 0.0
    else
      var n := trials as real;
      var p := successes as real / n;
      var z := m.quantile(1.0 - alpha);
      Clamp(Unclamped(p, n, z, m.root(Radicand(p, n, z))))
  }

  // ---- the bound as the root of a quadratic ----
  // With w = z*z/n and d the signed margin, the bound is l with (1+w)*l == p + w/2 - d,
  // where d*d == w*p*(1-p) + w*w/4: a root of (p-l)^2 == w*l*(1-l).

  ghost predicate Bound(p: real, w: real, d: real, l: real) {
    && 0.0 <= p <= 1.0 && w >= 0.0
    && d * d == w * p * (1.0 - p) + w * w / 4.0
    && (1.0 + w) * l == p + w / 2.0 - d
  }

  lemma ProductNonNegative(a: real, b: real)
    requires a >= 0.0 && b >= 0.0
    ensures a * b >= 0.0
  {
  }

  lemma ProductPositive(a: real, b: real)
    requires a > 0.0 && b > 0.0
    ensures a * b > 0.0
  {
  }

  lemma ScaleOrder(a: real, b: real, c: real)
    requires a <= b && c >= 0.0
    ensures a * c <= b * c
  {
    ProductNonNegative(b - a, c);
  }

  lemma SquareStrict(a: real, b: real)
    requires 0.0 <= b < a
    ensures b * b < a * a
  {
    var e := a - b;
    assert e * e > 0.0;
    ProductNonNegative(e, b);
    assert a * a == b * b + 2.0 * (e * b) + e * e;
  }

  lemma SquareOrder(a: real, b: real)
    requires b >= 0.0 && a * a <= b * b
    ensures a <= b
  {
    if a > b {
      SquareStrict(a, b);
    }
  }

  lemma DivideBy(a: real, x: real, y: real)
    requires a > 0.0 && a * x <= a * y
    ensures x <= y
  {
    assert x > y ==> a * (x - y) > 0.0;
  }

  lemma BoundNonNegative(p: real, w: real, d: real, l: real)
    requires Bound(p, w, d, l) && d >= 0.0
    ensures 0.0 <= l
  {
    var b := p + w / 2.0;
    assert b * b - d * d == p * p * (1.0 + w);
    ProductNonNegative(p, p);
    ProductNonNegative(p * p, 1.0 + w);
    SquareOrder(d, b);
    DivideBy(1.0 + w, 0.0, l);
  }

  lemma BoundAtMostProportion(p: real, w: real, d: real, l: real)
    requires Bound(p, w, d, l) && d >= 0.0
    ensures l <= p
  {
    var e := w * (0.5 - p);
    assert d * d - e * e == p * (1.0 - p) * (w + w * w);
    ProductNonNegative(p, 1.0 - p);
    ProductNonNegative(w, w);
    ProductNonNegative(p * (1.0 - p), w + w * w);
    SquareOrder(e, d);
    assert (1.0 + w) * p == p + w / 2.0 - e;
    DivideBy(1.0 + w, l, p);
  }

  /** A non-negative margin puts the bound between 0 and the observed proportion. */
  lemma BoundBelow(p: real, w: real, d: real, l: real)
    requires Bound(p, w, d, l) && d >= 0.0
    ensures 0.0 <= l <= p
  {
    BoundNonNegative(p, w, d, l);
    BoundAtMostProportion(p, w, d, l);
  }

  /** Looking at failures instead of successes turns the bound around. */
  lemma Mirror(p: real, w: real, d: real, l: real)
    requires Bound(p, w, d, l)
    ensures Bound(1.0 - p, w, -d, 1.0 - l)
  {
  }

  lemma BoundIsRoot(p: real, w: real, d: real, l: real)
    requires Bound(p, w, d, l)
    ensures (p - l) * (p - l) == w * l * (1.0 - l)
  {
    var a, b := 1.0 + w, p + w / 2.0;
    var f := (p - l) * (p - l) - w * l * (1.0 - l);
    assert f == a * l * l - 2.0 * b * l + p * p;
    var al := a * l;
    assert a * f == al * al - 2.0 * b * al + a * p * p by {
      assert a * (a * l * l) == al * al;
      assert a * (2.0 * b * l) == 2.0 * b * al;
    }
    assert al == b - d;
    assert al * al - 2.0 * b * al == d * d - b * b;
    assert d * d - b * b + a * p * p == 0.0;
    assert a * f == 0.0;
  }

  lemma GapIsPositive(p: real, w: real, t: real)
    requires 0.0 <= p <= 1.0 && w >= 0.0
    requires 0.0 <= t < 1.0 && t <= p && (p - t) * (p - t) >= w * t * (1.0 - t)
    ensures p + w / 2.0 - (1.0 + w) * t >= 0.0
  {
    assert (p - t) * (1.0 - t) >= (p - t) * (p - t);
    assert (1.0 - t) * (w * t) == w * t * (1.0 - t);
    DivideBy(1.0 - t, w * t, p - t);
    assert p + w / 2.0 - (1.0 + w) * t == (p - t - w * t) + w / 2.0;
  }

  /** The bound reaches `t` as soon as the score test does not reject `t`. */
  lemma ReachedBy(p: real, w: real, d: real, l: real, t: real)
    requires Bound(p, w, d, l) && d >= 0.0
    requires 0.0 <= t < 1.0 && t <= p && (p - t) * (p - t) >= w * t * (1.0 - t)
    ensures t <= l
  {
    var a, b := 1.0 + w, p + w / 2.0;
    var gap := b - a * t;
    GapIsPositive(p, w, t);
    var f := (p - t) * (p - t) - w * t * (1.0 - t);
    var at := a * t;
    assert f == a * t * t - 2.0 * b * t + p * p;
    assert a * f == at * at - 2.0 * b * at + a * p * p by {
      assert a * (a * t * t) == at * at;
      assert a * (2.0 * b * t) == 2.0 * b * at;
    }
    assert gap * gap == at * at - 2.0 * b * at + b * b;
    assert b * b - d * d == a * p * p;
    assert gap * gap - d * d == a * f;
    assert a * f >= 0.0;
    SquareOrder(d, gap);
    DivideBy(a, t, l);
  }

  lemma SmallerRootPasses(p: real, w1: real, w2: real, d2: real, l2: real)
    requires Bound(p, w2, d2, l2) && 0.0 <= l2 <= 1.0 && w1 <= w2
    ensures (p - l2) * (p - l2) >= w1 * l2 * (1.0 - l2)
  {
    BoundIsRoot(p, w2, d2, l2);
    var q := l2 * (1.0 - l2);
    ProductNonNegative(l2, 1.0 - l2);
    ScaleOrder(w1, w2, q);
    assert w2 * q == w2 * l2 * (1.0 - l2) && w1 * q == w1 * l2 * (1.0 - l2);
  }

  /** Certainty is reached only by a zero margin over a perfect sample. */
  lemma CertaintyNeedsNoMargin(p: real, w: real, d: real, l: real)
    requires Bound(p, w, d, l) && d >= 0.0 && l >= 1.0 && l <= p
    ensures p == 1.0 && w == 0.0
  {
    assert l == 1.0 && p == 1.0;
    assert (1.0 + w) * l == 1.0 + w;
  }

  lemma NoMargin(p: real, w: real, d: real, l: real)
    requires Bound(p, w, d, l) && w == 0.0
    ensures l == p
  {
    assert w * p * (1.0 - p) == 0.0 && w * w == 0.0;
    SquareOrder(d, 0.0);
    SquareOrder(-d, 0.0);
  }

  lemma BoundTightens(p: real, w1: real, d1: real, l1: real, w2: real, d2: real, l2: real)
    requires Bound(p, w1, d1, l1) && Bound(p, w2, d2, l2)
    requires 0.0 <= d1 && 0.0 <= d2 && w1 <= w2
    ensures l2 <= l1
  {
    BoundBelow(p, w1, d1, l1);
    BoundBelow(p, w2, d2, l2);
    if l2 < 1.0 {
      SmallerRootPasses(p, w1, w2, d2, l2);
      ReachedBy(p, w1, d1, l1, l2);
    } else {
      CertaintyNeedsNoMargin(p, w2, d2, l2);
      NoMargin(p, w1, d1, l1);
    }
  }

  // ---- the code's bound ----

  lemma Proportion(k: nat, n: nat)
    requires k <= n && n > 0
    ensures 0.0 <= k as real / n as real <= 1.0
  {
    var p := k as real / n as real;
    assert p * n as real == k as real;
  }

  lemma InUnitInterval(p: real, w: real, d: real, l: real)
    requires 0.0 <= p <= 1.0 && w >= 0.0 && d * d == w * p * (1.0 - p) + w * w / 4.0
    requires l == (p + w / 2.0 - d) / (1.0 + w)
    ensures Bound(p, w, d, l) && 0.0 <= l <= 1.0
  {
    assert (1.0 + w) * l == p + w / 2.0 - d;
    if d >= 0.0 {
      BoundBelow(p, w, d, l);
    } else {
      Mirror(p, w, d, l);
      BoundBelow(1.0 - p, w, -d, 1.0 - l);
    }
  }

  lemma MarginSign(z: real, s: real)
    requires s >= 0.0
    ensures (z >= 0.0 ==> z * s >= 0.0) && (z <= 0.0 ==> z * s <= 0.0)
  {
  }

  lemma SquaredMargin(p: real, r: real, z: real, s: real, w: real)
    requires r > 0.0 && w * r == z * z
    requires s * s == Radicand(p, r, z)
    ensures (z * s) * (z * s) == w * p * (1.0 - p) + w * w / 4.0
  {
    var q := p * (1.0 - p);
    var x, y := q / r, z / r;
    assert r * x == q && r * y == z;
    assert r * (r * (y * y)) == r * w;
    assert r * (y * y) == w;
    assert (z * s) * (z * s) == (z * z) * (s * s) == (w * r) * (x + y * y / 4.0) == w * (r * x) + w * (r * (y * y)) / 4.0;
    assert w * p * (1.0 - p) == w * q;
  }

  lemma BoundFromParts(p: real, r: real, z: real, s: real) returns (w: real, d: real, l: real)
    requires 0.0 <= p <= 1.0 && r > 0.0 && s >= 0.0 && s * s == Radicand(p, r, z)
    ensures Bound(p, w, d, l) && l == Unclamped(p, r, z, s) && 0.0 <= l <= 1.0
    ensures (z >= 0.0 ==> d >= 0.0) && (z <= 0.0 ==> d <= 0.0) && w * r == z * z
  {
    w, d, l := z * z / r, z * s, Unclamped(p, r, z, s);
    QuotientNonNegative(z * z, r);
    MarginSign(z, s);
    SquaredMargin(p, r, z, s, w);
    InUnitInterval(p, w, d, l);
  }

  lemma RadicandNonNegative(p: real, r: real, z: real)
    requires 0.0 <= p <= 1.0 && r > 0.0
    ensures Radicand(p, r, z) >= 0.0
  {
    ProductNonNegative(p, 1.0 - p);
    QuotientNonNegative(p * (1.0 - p), r);
    var x := z / r;
    assert x * x >= 0.0;
  }

  /** What the code computes before clamping is the quadratic's root; clamping changes nothing. */
  lemma BoundOfSample(m: Numerics, k: nat, n: nat, alpha: real) returns (w: real, d: real, l: real)
    requires m.Sound() && k <= n && n > 0
    ensures Bound(k as real / n as real, w, d, l)
    ensures l == LowerBound(m, k, n, alpha) && 0.0 <= l <= 1.0
    ensures var z := m.quantile(1.0 - alpha); (z >= 0.0 ==> d >= 0.0) && (z <= 0.0 ==> d <= 0.0) && w * n as real == z * z
  {
    Proportion(k, n);
    var p, z := k as real / n as real, m.quantile(1.0 - alpha);
    RadicandNonNegative(p, n as real, z);
    w, d, l := BoundFromParts(p, n as real, z, m.root(Radicand(p, n as real, z)));
  }

  /** The bound never exceeds the sample's own proportion when alpha is at most one half. */
  lemma LowerBoundIsBelow(m: Numerics, k: nat, n: nat, alpha: real)
    requires m.Sound() && k <= n && n > 0 && alpha <= 0.5
    ensures 0.0 <= LowerBound(m, k, n, alpha) <= k as real / n as real
  {
    var w, d, l := BoundOfSample(m, k, n, alpha);
    assert m.quantile(0.5) <= m.quantile(1.0 - alpha);
    BoundBelow(k as real / n as real, w, d, l);
  }

  lemma LargerSquare(small: real, large: real, r: real, v: real, w: real)
    requires 0.0 <= small <= large && r > 0.0 && v * r == small * small && w * r == large * large
    ensures v <= w
  {
    ScaleOrder(small, large, small);
    ScaleOrder(small, large, large);
    DivideBy(r, v, w);
  }

  lemma MoreCaution(p: real, r: real, z1: real, w1: real, d1: real, l1: real, z2: real, w2: real, d2: real, l2: real)
    requires Bound(p, w1, d1, l1) && Bound(p, w2, d2, l2)
    requires r > 0.0 && w1 * r == z1 * z1 && w2 * r == z2 * z2 && z1 <= z2
    requires (z1 >= 0.0 ==> d1 >= 0.0) && (z1 <= 0.0 ==> d1 <= 0.0)
    requires (z2 >= 0.0 ==> d2 >= 0.0) && (z2 <= 0.0 ==> d2 <= 0.0)
    ensures l2 <= l1
  {
    if 0.0 <= z1 {
      LargerSquare(z1, z2, r, w1, w2);
      BoundTightens(p, w1, d1, l1, w2, d2, l2);
    } else {
      Mirror(p, w1, d1, l1);
      if z2 <= 0.0 {
        LargerSquare(-z2, -z1, r, w2, w1);
        Mirror(p, w2, d2, l2);
        BoundTightens(1.0 - p, w2, -d2, 1.0 - l2, w1, -d1, 1.0 - l1);
      } else {
        BoundBelow(p, w2, d2, l2);
        BoundBelow(1.0 - p, w1, -d1, 1.0 - l1);
      }
    }
  }

  lemma UnclampedMonotone(p: real, r: real, z1: real, s1: real, z2: real, s2: real)
    requires 0.0 <= p <= 1.0 && r > 0.0 && z1 <= z2 && s1 >= 0.0 && s2 >= 0.0
    requires s1 * s1 == Radicand(p, r, z1) && s2 * s2 == Radicand(p, r, z2)
    ensures Clamp(Unclamped(p, r, z2, s2)) <= Clamp(Unclamped(p, r, z1, s1))
  {
    var w1, d1, l1 := BoundFromParts(p, r, z1, s1);
    var w2, d2, l2 := BoundFromParts(p, r, z2, s2);
    MoreCaution(p, r, z1, w1, d1, l1, z2, w2, d2, l2);
  }

  /** Asking for a smaller alpha never raises the bound, for any sample and any alphas. */
  lemma LowerBoundMonotone(m: Numerics, k: nat, n: nat, small: real, large: real)
    requires m.Sound() && k <= n && small <= large
    ensures LowerBound(m, k, n, small) <= LowerBound(m, k, n, large)
  {
    if n > 0 {
      Proportion(k, n);
      var p, r := k as real / n as real, n as real;
      var z1, z2 := m.quantile(1.0 - large), m.quantile(1.0 - small);
      RadicandNonNegative(p, r, z1);
      RadicandNonNegative(p, r, z2);
      UnclampedMonotone(p, r, z1, m.root(Radicand(p, r, z1)), z2, m.root(Radicand(p, r, z2)));
    }
  }

  /** The one-sided score test: `p` lies at least `z` standard deviations above `t`. */
  ghost predicate Rejects(p: real, n: real, z: real, t: real) {
    t <= p && (p - t) * (p - t) * n >= z * z * (t * (1.0 - t))
  }

  lemma SameTest(z: real, r: real, w: real, t: real, g: real)
    requires r > 0.0 && w * r == z * z
    ensures g >= w * t * (1.0 - t) <==> g * r >= z * z * (t * (1.0 - t))
  {
    var q := t * (1.0 - t);
    assert w * t * (1.0 - t) == w * q;
    assert z * z * q == r * (w * q);
    if g * r >= z * z * q {
      DivideBy(r, w * q, g);
    }
    if g >= w * q {
      ScaleOrder(w * q, g, r);
    }
  }

  lemma ScoreTest(p: real, w: real, d: real, l: real, t: real)
    requires Bound(p, w, d, l) && d >= 0.0 && 0.0 <= t < 1.0
    ensures l >= t <==> t <= p && (p - t) * (p - t) >= w * t * (1.0 - t)
  {
    BoundBelow(p, w, d, l);
    if l >= t {
      BoundIsRoot(p, w, d, l);
      // The difference of the two sides is (l - t) times a non-negative factor.
      var g := (2.0 * p - l - t) + w * (1.0 - l - t);
      ScaleOrder(t, l, 1.0 + w);
      assert g == 2.0 * (p + w / 2.0) - (1.0 + w) * l - (1.0 + w) * t;
      assert g >= 2.0 * d >= 0.0;
      ProductNonNegative(l - t, g);
      assert (p - t) * (p - t) - (p - l) * (p - l) == (l - t) * (2.0 * p - l - t);
      assert w * l * (1.0 - l) - w * t * (1.0 - t) == (l - t) * (w * (1.0 - l - t));
    } else if t <= p && (p - t) * (p - t) >= w * t * (1.0 - t) {
      ReachedBy(p, w, d, l, t);
    }
  }

  lemma ScaledScoreTest(p: real, r: real, z: real, w: real, d: real, l: real, t: real)
    requires Bound(p, w, d, l) && d >= 0.0 && 0.0 <= t < 1.0 && r > 0.0 && w * r == z * z
    ensures l >= t <==> Rejects(p, r, z, t)
  {
    ScoreTest(p, w, d, l, t);
    SameTest(z, r, w, t, (p - t) * (p - t));
  }

  /** What the bound means: it clears `t` exactly when the sample's proportion is so far above
      `t` that the one-sided score test with quantile `z` rejects `t`. */
  lemma LowerBoundInvertsScoreTest(m: Numerics, k: nat, n: nat, alpha: real, t: real)
    requires m.Sound() && k <= n && n > 0 && alpha <= 0.5 && 0.0 <= t < 1.0
    ensures
      LowerBound(m, k, n, alpha) >= t <==> Rejects(k as real / n as real, n as real, m.quantile(1.0 - alpha), t)
  {
    var w, d, l := BoundOfSample(m, k, n, alpha);
    assert m.quantile(0.5) <= m.quantile(1.0 - alpha);
    ScaledScoreTest(k as real / n as real, n as real, m.quantile(1.0 - alpha), w, d, l, t);
  }
}
