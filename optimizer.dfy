/**
  One tick of the translation optimizer (`registration`) and of the rotation
  optimizer (`registrationRotation`), as pure specifications over poses.

  The step-size formulas are the source's empirical ones: the translation
  step is `max(int((score / WMAX)^2 * 15), 0.1) / divider`, and the rotation
  step is ratcheted to `min(max((score / WMAX)^2 * 15, 0.01), previous)`.
 */
module Optimizer {
  import opened Geometry
  import opened Objective
  import opened AxisSearch

  /**
    What a tick ends with: normally, with the exception the source raises, or
    (`NaNStep`, not an exception) at the point where the rotation step has
    become NaN, which is where the model stops that tick.
   */
  datatype Outcome = Completed | IndexError | OverflowError | ValueError | NaNStep

  /** `(score / wmax)^2 * 15`, the source's step heuristic before any clamping. */
  function StepRatio(score: int, wmax: int): (x: real)
    requires wmax != 0
    ensures x >= 0.0
  {
    var r := score as real / wmax as real;
    r * r * 15.0
  }

  lemma StepRatioAtMost15(score: int, wmax: int)
    requires wmax != 0
    ensures 0 <= score <= wmax ==> StepRatio(score, wmax) <= 15.0
  {
    if 0 <= score <= wmax {
      var r := score as real / wmax as real;
      assert 0.0 <= r <= 1.0;
      assert r * r <= r * 1.0;
    }
  }

  /**
    The translation step before division by the stagnation divider. `int()`
    truncates (the ratio is never negative, so truncation is the floor), and
    a truncated value of 0 is replaced by 0.1.
   */
  function AdaptiveStep(score: int, wmax: int): (s: real)
    requires wmax != 0
    ensures s >= 0.1
    ensures StepRatio(score, wmax) < 1.0 <==> s == 0.1
    ensures StepRatio(score, wmax) >= 1.0 ==>
              s == s.Floor as real && s <= StepRatio(score, wmax) < s + 1.0
    ensures 0 <= score <= wmax ==> s <= 15.0
  {
    var truncated := StepRatio(score, wmax).Floor;
    StepRatioAtMost15(score, wmax);
    if truncated as real > 0.1 then truncated as real else 0.1
  }

  /**
    The ratio `(score / float(wmax))**2 * 15` as numpy evaluates it on the
    scalar sums: finite for a nonzero weight; for a zero weight, infinity when
    the score is nonzero and NaN when it is zero too (numpy warns, it does not raise).
   */
  datatype Ratio = Finite(value: real) | Infinity | NaN

  function ScoreRatio(score: int, wmax: int): (q: Ratio)
    ensures q.Finite? <==> wmax != 0
    ensures q.Finite? ==> q.value >= 0.0
    ensures q == NaN <==> wmax == 0 && score == 0
  {
    if wmax != 0 then Finite(StepRatio(score, wmax))
    else if score != 0 then Infinity
    else NaN
  }

  /** A step size, or the exception computing it raises. */
  /** The two exceptions `int()` of a numpy ratio can raise. */
  type IntError = e: Outcome | e == OverflowError || e == ValueError witness OverflowError

  datatype StepOrError = Step(size: real) | Raises(error: IntError)

  /**
    The undivided translation step of lines 721, 724 and 727: `int()` of
    infinity raises OverflowError and `int()` of NaN raises ValueError.
   */
  function TranslationStep(score: int, wmax: int): (r: StepOrError)
    ensures r.Step? <==> wmax != 0
    ensures r.Step? ==> r.size == AdaptiveStep(score, wmax) && r.size >= 0.1
    ensures r.Raises? ==> r.error == (if score != 0 then OverflowError else ValueError)
  {
    match ScoreRatio(score, wmax)
    case Finite(_) => Step(AdaptiveStep(score, wmax))
    case Infinity => Raises(OverflowError)
    case NaN => Raises(ValueError)
  }

  /** The rotation step of the next tick: it never grows, and never drops below 0.01 from above it. */
  function RatchetStep(score: int, wmax: int, previous: real): (s: real)
    requires wmax != 0
    ensures s <= previous
    ensures previous >= 0.01 ==> s >= 0.01
    ensures s <= StepRatio(score, wmax) || s == 0.01 || s == previous
  {
    var x := StepRatio(score, wmax);
    var clamped := if x >= 0.01 then x else 0.01;
    if clamped <= previous then clamped else previous
  }

  /**
    The rotation step of line 737, `min([max([ratio, 0.01]), previous])`, on
    numpy's ratio. `max` keeps infinity, and `min` then keeps the previous
    step; `max` and `min` both keep a NaN that comes first, so the step
    becomes NaN.
   */
  function NextRotationStep(score: int, wmax: int, previous: real): (s: Ratio)
    ensures s.Finite? ==> s.value <= previous
    ensures s.Finite? && previous >= 0.01 ==> s.value >= 0.01
    ensures s == NaN <==> ScoreRatio(score, wmax) == NaN
    ensures ScoreRatio(score, wmax) == Infinity ==> s == Finite(previous)
    ensures wmax != 0 ==> s == Finite(RatchetStep(score, wmax, previous))
  {
    match ScoreRatio(score, wmax)
    case Finite(_) => Finite(RatchetStep(score, wmax, previous))
    case Infinity => Finite(previous)
    case NaN => NaN
  }

  /**
    The state a translation tick leaves behind, after `L` has received its
    score and the divider has been updated: the outcome, the pose, the value
    of `WMAX` and the translation last latched by `translateRegistration`.
   */
  datatype TickResult = TickResult(outcome: Outcome, pose: Pose, wmax: int, latched: Vec3)

  /**
    Three single-axis translation scans of 10 steps each side, x then y then z,
    each from the pose the previous one reached. Each step is computed from the
    current score and the `WMAX` left by the previous scan (the first two from
    the weight at the start), so the z step divides by the weight after the x
    scan. A zero weight makes `int()` raise before the scan it would size.
   */
  function TranslationTick(img: Images, p0: Pose, divider: real, latched: Vec3): (r: TickResult)
    requires divider > 0.0
    ensures r.outcome == Completed || r.outcome == OverflowError || r.outcome == ValueError
    ensures r.pose.turns == p0.turns
    ensures Tick(img, r.pose) <= Tick(img, p0)
    ensures Weight(img, p0) == 0 ==>
              r == TickResult(if Tick(img, p0) != 0 then OverflowError else ValueError, p0, 0, latched)
  {
    var w0 := Weight(img, p0);
    match TranslationStep(Tick(img, p0), w0)
    case Raises(e) => TickResult(e, p0, w0, latched)
    case Step(iStep) =>
      var p1 := TranslationScan(img, p0, 10, 0, 0, iStep / divider, 1.0, 1.0);
      var jStep := TranslationStep(Tick(img, p1), w0).size;
      var p2 := TranslationScan(img, p1, 0, 10, 0, 1.0, jStep / divider, 1.0);
      var w1 := Weight(img, p1);
      match TranslationStep(Tick(img, p2), w1)
      case Raises(e) => TickResult(e, p2, w1, p1.t)
      case Step(kStep) =>
        var p3 := TranslationScan(img, p2, 0, 0, 10, 1.0, 1.0, kStep / divider);
        TickResult(Completed, p3, Weight(img, p2), p2.t)
  }

  /** A sweep of 10 steps about `a` in the positive direction, then one in the negative direction from where it ended. */
  function BothWays(img: Images, p: Pose, a: Axis, step: real): (q: Pose)
    requires Normal(p.turns)
    ensures q.t == p.t && Normal(q.turns)
    ensures Tick(img, q) <= Tick(img, p)
  {
    RotationSweep(img, RotationSweep(img, p, a, step, 10), a, -step, 10)
  }

  /**
    Six rotation sweeps of 10 steps each, in the fixed order X+, X-, Y+, Y-,
    Z+, Z-, each from the pose the previous one reached.
   */
  function RotationTick(img: Images, p: Pose, step: real): (q: Pose)
    requires Normal(p.turns)
    ensures q.t == p.t && Normal(q.turns)
    ensures Tick(img, q) <= Tick(img, p)
  {
    BothWays(img, BothWays(img, BothWays(img, p, X, step), Y, step), Z, step)
  }
}
