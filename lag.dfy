/**
 * The arithmetic shared by both animation controllers: the first-order follower
 * `x += (target - x) * gain` (written out by hand in the cursor overlay,
 * `MathUtils.lerp` and `Vector.lerp` in the hero scene) and the clamp
 * `max(min(v, hi), lo)`. Everything is over `real`; floating-point rounding is
 * not modelled.
 */
module Lag {

  function Abs(x: real): real {
    if x < 0.0 then -x else x
  }

  /** A gain is the fraction of the remaining distance covered in one frame. */
  predicate IsGain(g: real) {
    0.0 < g <= 1.0
  }

  /** `v` lies on the closed segment between `a` and `b`, whichever way round they are. */
  predicate Between(a: real, v: real, b: real) {
    (a <= v <= b) || (b <= v <= a)
  }

  /** The part `d * g` of a signed distance `d` that one frame covers. */
  function Step(d: real, g: real): real {
    d * g
  }

  /** One frame of first-order lag toward `target`. */
  function Follow(current: real, target: real, gain: real): real {
    current + Step(target - current, gain)
  }

  /** A frame covers part of the distance, never more than all of it, and in its direction. */
  lemma StepBetween(d: real, g: real)
    requires IsGain(g)
    ensures Between(0.0, Step(d, g), d)
  {
    assert d - d * g == d * (1.0 - g);
    if d >= 0.0 {
      MulNonNeg(d, 1.0 - g);
      MulNonNeg(d, g);
    } else {
      MulNonNeg(-d, 1.0 - g);
      MulNonNeg(-d, g);
    }
  }

  /** The follower never overshoots and never moves away from its target. */
  lemma FollowBetween(current: real, target: real, gain: real)
    requires IsGain(gain)
    ensures Between(current, Follow(current, target, gain), target)
  {
    StepBetween(target - current, gain);
  }

  /** `MathUtils.lerp(x, y, t)`: the weighted mean `(1 - t) x + t y`. */
  function Lerp(x: real, y: real, t: real): real {
    (1.0 - t) * x + t * y
  }

  /** Over the reals the weighted mean is one frame of the follower. */
  lemma LerpIsFollow(x: real, y: real, t: real)
    ensures Lerp(x, y, t) == Follow(x, y, t)
  {
    assert (1.0 - t) * x + t * y == x + (y - x) * t;
  }

  /** A value already at its target stays there. */
  lemma FollowAtTarget(x: real, gain: real)
    ensures Follow(x, x, gain) == x
  {
  }

  /** One frame leaves exactly the fraction `1 - gain` of the signed distance to the target. */
  lemma FollowRemaining(current: real, target: real, gain: real)
    requires IsGain(gain)
    ensures target - Follow(current, target, gain) == (1.0 - gain) * (target - current)
  {
    var d := target - current;
    assert d - d * gain == (1.0 - gain) * d;
  }

  /** One frame multiplies the distance to the target by `1 - gain`. */
  lemma OneFrameDistance(current: real, target: real, gain: real)
    requires IsGain(gain)
    ensures Abs(target - Follow(current, target, gain)) == (1.0 - gain) * Abs(target - current)
  {
    FollowRemaining(current, target, gain);
    AbsScale(target - Follow(current, target, gain), 1.0 - gain, target - current);
  }

  /** Short of a gain of 1, a value away from its target gets strictly closer. */
  lemma FollowApproaches(current: real, target: real, gain: real)
    requires IsGain(gain) && gain < 1.0 && current != target
    ensures Abs(target - Follow(current, target, gain)) < Abs(target - current)
  {
    OneFrameDistance(current, target, gain);
    MulLt(1.0 - gain, 1.0, Abs(target - current));
  }

  /** `Math.max(Math.min(v, hi), lo)`, which is also `MathUtils.clamp(v, lo, hi)`. */
  function Clamp(v: real, lo: real, hi: real): real {
    var below := if v < hi then v else hi;
    if below < lo then lo else below
  }

  /**
   * With `lo <= hi` the clamp lands in [lo, hi], leaves values inside alone
   * and saturates at the nearer bound outside.
   */
  lemma ClampRange(v: real, lo: real, hi: real)
    requires lo <= hi
    ensures lo <= Clamp(v, lo, hi) <= hi
    ensures lo <= v <= hi ==> Clamp(v, lo, hi) == v
    ensures v < lo ==> Clamp(v, lo, hi) == lo
    ensures hi < v ==> Clamp(v, lo, hi) == hi
  {
  }

  /** A follower whose value and target both lie in [lo, hi] stays in [lo, hi]. */
  lemma FollowStaysWithin(lo: real, hi: real, current: real, target: real, gain: real)
    requires IsGain(gain)
    requires lo <= current <= hi && lo <= target <= hi
    ensures lo <= Follow(current, target, gain) <= hi
  {
    FollowBetween(current, target, gain);
  }

  function Pow(b: real, n: nat): real
    decreases n
  {
    if n == 0 then 1.0 else b * Pow(b, n - 1)
  }

  /** `n` frames of the follower toward a fixed target. */
  function FollowN(current: real, target: real, gain: real, n: nat): real
    requires IsGain(gain)
    decreases n
  {
    if n == 0 then current else FollowN(Follow(current, target, gain), target, gain, n - 1)
  }

  /** After `n` frames the remaining signed distance is exactly `(1 - gain)^n` times the initial one. */
  lemma {:induction false} FollowNDistance(current: real, target: real, gain: real, n: nat)
    requires IsGain(gain)
    ensures target - FollowN(current, target, gain, n) == Pow(1.0 - gain, n) * (target - current)
    decreases n
  {
    if n > 0 {
      FollowNDistance(Follow(current, target, gain), target, gain, n - 1);
      DistanceStep(current, target, gain, n);
    } else {
      assert FollowN(current, target, gain, n) == current;
      assert Pow(1.0 - gain, n) == 1.0;
    }
  }

  /** The inductive step of `FollowNDistance`: one more frame in front of `n - 1` frames. */
  lemma DistanceStep(current: real, target: real, gain: real, n: nat)
    requires IsGain(gain) && n > 0
    requires target - FollowN(Follow(current, target, gain), target, gain, n - 1)
          == Pow(1.0 - gain, n - 1) * (target - Follow(current, target, gain))
    ensures target - FollowN(current, target, gain, n) == Pow(1.0 - gain, n) * (target - current)
  {
    var next := Follow(current, target, gain);
    Unfold(current, target, gain, n);
    FollowRemaining(current, target, gain);
    PowStep(target - FollowN(current, target, gain, n), target - next, target - current, gain, n);
  }

  lemma Unfold(current: real, target: real, gain: real, n: nat)
    requires IsGain(gain) && n > 0
    ensures FollowN(current, target, gain, n) == FollowN(Follow(current, target, gain), target, gain, n - 1)
  {
  }

  /** The distance to a fixed target never grows from one frame to the next. */
  lemma {:induction false} FollowNMonotone(current: real, target: real, gain: real, n: nat)
    requires IsGain(gain)
    ensures Abs(target - FollowN(current, target, gain, n + 1)) <= Abs(target - FollowN(current, target, gain, n))
    decreases n
  {
    if n > 0 {
      FollowNMonotone(Follow(current, target, gain), target, gain, n - 1);
    } else {
      FollowBetween(current, target, gain);
    }
  }

  lemma {:induction false} PowBounds(b: real, n: nat)
    requires 0.0 <= b <= 1.0
    ensures 0.0 <= Pow(b, n) <= 1.0
    decreases n
  {
    if n > 0 {
      PowBounds(b, n - 1);
      MulAtMost(b, Pow(b, n - 1));
    }
  }

  /** Bernoulli's inequality in the form `(1 - g)^n * (1 + n g) <= 1`. */
  lemma {:induction false} PowDecay(g: real, n: nat)
    requires IsGain(g)
    ensures Pow(1.0 - g, n) * (1.0 + (n as real) * g) <= 1.0
    decreases n
  {
    if n > 0 {
      PowDecay(g, n - 1);
      PowBounds(1.0 - g, n - 1);
      BernoulliStep(Pow(1.0 - g, n - 1), g, (n - 1) as real);
    }
  }

  /** The inductive step of `PowDecay`, with the power abstracted to `p`. */
  lemma BernoulliStep(p: real, g: real, m: real)
    requires IsGain(g) && m >= 0.0 && p >= 0.0
    requires p * (1.0 + m * g) <= 1.0
    ensures ((1.0 - g) * p) * (1.0 + (m + 1.0) * g) <= 1.0
  {
    var f := (1.0 - g) * (1.0 + (m + 1.0) * g);
    assert f == 1.0 + m * g - (m + 1.0) * g * g;
    MulNonNeg(m + 1.0, g);
    MulNonNeg((m + 1.0) * g, g);
    assert f <= 1.0 + m * g;
    MulLe(f, 1.0 + m * g, p);
    Regroup(p, 1.0 - g, 1.0 + (m + 1.0) * g);
  }

  /**
   * Geometric convergence: for every tolerance there is a number of frames after
   * which the follower is within that tolerance of its (fixed) target.
   */
  lemma Converges(current: real, target: real, gain: real, eps: real) returns (n: nat)
    requires IsGain(gain) && eps > 0.0
    ensures Abs(target - FollowN(current, target, gain, n)) < eps
  {
    var d := Abs(target - current);
    MulPos(gain, eps);
    DivNonNeg(d, gain * eps);
    n := (d / (gain * eps)).Floor as nat + 1;
    EnoughFrames(d, gain, eps, n);
    ConvergesAfter(current, target, gain, eps, n);
  }

  /** `n` frames suffice once `n * gain * eps` exceeds the initial distance. */
  lemma ConvergesAfter(current: real, target: real, gain: real, eps: real, n: nat)
    requires IsGain(gain) && eps > 0.0
    requires ((n as real) * gain) * eps > Abs(target - current)
    ensures Abs(target - FollowN(current, target, gain, n)) < eps
  {
    DistanceAbs(current, target, gain, n);
    PowSmall(gain, n, Abs(target - current), eps);
  }

  /** `(1 - g)^n d < eps` once `n g eps` exceeds `d`. */
  lemma PowSmall(g: real, n: nat, d: real, eps: real)
    requires IsGain(g) && eps > 0.0 && d >= 0.0
    requires ((n as real) * g) * eps > d
    ensures Pow(1.0 - g, n) * d < eps
  {
    PowBounds(1.0 - g, n);
    PowDecay(g, n);
    MulNonNeg(n as real, g);
    DecayBelow(Pow(1.0 - g, n) * d, Pow(1.0 - g, n), d, (n as real) * g, eps);
  }

  /** The unsigned form of `FollowNDistance`. */
  lemma DistanceAbs(current: real, target: real, gain: real, n: nat)
    requires IsGain(gain)
    ensures Abs(target - FollowN(current, target, gain, n)) == Pow(1.0 - gain, n) * Abs(target - current)
  {
    FollowNDistance(current, target, gain, n);
    PowBounds(1.0 - gain, n);
    AbsScale(target - FollowN(current, target, gain, n), Pow(1.0 - gain, n), target - current);
  }

  lemma AbsScale(y: real, p: real, x: real)
    requires p >= 0.0 && y == p * x
    ensures Abs(y) == p * Abs(x)
  {
    if x < 0.0 {
      MulNonNeg(p, -x);
    } else {
      MulNonNeg(p, x);
    }
  }

  /** With `n > d / (g eps)` frames, `n g eps` exceeds the initial distance `d`. */
  lemma EnoughFrames(d: real, g: real, eps: real, n: nat)
    requires d >= 0.0 && IsGain(g) && eps > 0.0
    requires n == (d / (g * eps)).Floor as nat + 1
    ensures ((n as real) * g) * eps > d
  {
    var ge := g * eps;
    MulPos(g, eps);
    var q := d / ge;
    assert q * ge == d;
    MulLt(q, n as real, ge);
    Regroup2(n as real, g, eps);
  }

  lemma DecayBelow(r: real, p: real, d: real, k: real, eps: real)
    requires p >= 0.0 && d >= 0.0 && k >= 0.0 && eps > 0.0
    requires r == p * d
    requires p * (1.0 + k) <= 1.0
    requires k * eps > d
    ensures r < eps
  {
    var pk := p * (1.0 + k);
    MulLe(pk, 1.0, d);
    Regroup3(p, 1.0 + k, d);
    assert d < eps * (1.0 + k);
    var pd := p * d;
    assert pd * (1.0 + k) <= d;
    if pd >= eps {
      MulLe(eps, pd, 1.0 + k);
      assert false;
    }
  }

  /** `Math.hypot(vx, vy) > limit` for a non-negative limit, without the square root. */
  lemma HypotAbove(s: real, limit: real)
    requires s >= 0.0 && limit >= 0.0
    ensures s > limit <==> s * s > limit * limit
  {
    assert s * s - limit * limit == (s - limit) * (s + limit);
    if s > limit {
      MulPos(s - limit, s + limit);
    } else {
      MulNonNeg(limit - s, s + limit);
    }
  }

  // Steps of real arithmetic that the solver does not take on its own when the
  // factors are compound terms.

  lemma MulNonNeg(a: real, b: real)
    requires a >= 0.0 && b >= 0.0
    ensures a * b >= 0.0
  {
  }

  lemma DivNonNeg(a: real, b: real)
    requires a >= 0.0 && b > 0.0
    ensures a / b >= 0.0
  {
  }

  lemma MulPos(a: real, b: real)
    requires a > 0.0 && b > 0.0
    ensures a * b > 0.0
  {
  }

  lemma MulAtMost(b: real, p: real)
    requires 0.0 <= b <= 1.0 && 0.0 <= p <= 1.0
    ensures 0.0 <= b * p <= 1.0
  {
    assert p - b * p == (1.0 - b) * p;
    MulNonNeg(1.0 - b, p);
    MulNonNeg(b, p);
  }

  lemma MulLe(a: real, b: real, c: real)
    requires a <= b && c >= 0.0
    ensures a * c <= b * c
  {
    assert b * c - a * c == (b - a) * c;
    MulNonNeg(b - a, c);
  }

  lemma MulLt(a: real, b: real, c: real)
    requires a < b && c > 0.0
    ensures a * c < b * c
  {
    assert b * c - a * c == (b - a) * c;
    MulPos(b - a, c);
  }

  /** One more factor `1 - g` in front of a power of `1 - g`. */
  lemma PowStep(x: real, y: real, a: real, g: real, n: nat)
    requires n > 0
    requires x == Pow(1.0 - g, n - 1) * y
    requires y == (1.0 - g) * a
    ensures x == Pow(1.0 - g, n) * a
  {
    var p := Pow(1.0 - g, n - 1);
    assert Pow(1.0 - g, n) == (1.0 - g) * p;
    Rescale(x, p, 1.0 - g, a, y);
  }

  lemma Rescale(x: real, p: real, b: real, a: real, y: real)
    requires x == p * y && y == b * a
    ensures x == (b * p) * a
  {
  }

  lemma Regroup(p: real, b: real, d: real)
    ensures p * (b * d) == (b * p) * d
  {
  }

  lemma Regroup2(n: real, g: real, e: real)
    ensures n * (g * e) == (n * g) * e
  {
  }

  lemma Regroup3(p: real, k: real, d: real)
    ensures (p * k) * d == (p * d) * k
  {
  }
}
