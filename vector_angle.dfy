// The scalar tail of the vector-angle type of weightDriver: the angles and
// the distance are measured by the host and come in as plain numbers (in
// degrees for the angles); this module combines them into the weight.

module VectorAngle {
  import opened HostMath
  import opened Rbf

  /**
   * The cone settings compute reads: the cone angle and its center angle,
   * the twist switch and twist angle, the translate switch with its range
   * and the grow flag.
   */
  datatype Cone = Cone(
    useRotate: bool,
    angle: real,
    centerAngle: real,
    twist: bool,
    twistAngle: real,
    useTranslate: bool,
    translateMin: real,
    translateMax: real,
    grow: bool)

  /** The attribute minimums: the cone angle and the twist angle are at least 0.01. */
  predicate ConeValid(c: Cone) {
    0.01 <= c.angle && 0.01 <= c.twistAngle
  }

  lemma FractionInside(a: real, b: real)
    requires 0.0 < a < b
    ensures 0.0 < a / b < 1.0
  {
    var q := a / b;
    assert (1.0 - q) * b == b - a;
    if 1.0 - q <= 0.0 {
      NonPositiveProduct(1.0 - q, b);
      assert false;
    }
  }

  lemma DivideMonotone(a1: real, a2: real, b: real)
    requires a1 <= a2 && b > 0.0
    ensures a1 / b <= a2 / b
  {
    assert a2 / b - a1 / b == (a2 - a1) / b;
  }

  /**
   * The translate factor: 1 up to the minimum distance, 0 from the
   * maximum on, falling linearly between them; grow turns it around.
   */
  function TranslateFactor(distance: real, minVal: real, maxVal: real, grow: bool): (r: real)
    ensures 0.0 <= r <= 1.0
    ensures distance <= minVal ==> r == (if grow then 0.0 else 1.0)
    ensures minVal < distance && maxVal <= distance ==> r == (if grow then 1.0 else 0.0)
  {
    var falloff :=
      if distance <= minVal then 1.0
      else if distance >= maxVal then 0.0
      else
        (FractionInside(distance - minVal, maxVal - minVal);
         1.0 - (distance - minVal) / (maxVal - minVal));
    if grow then 1.0 - falloff else falloff
  }

  /** Without grow the translate factor never rises with the distance. */
  lemma TranslateFactorMonotone(d1: real, d2: real, minVal: real, maxVal: real)
    requires d1 <= d2
    ensures TranslateFactor(d2, minVal, maxVal, false) <= TranslateFactor(d1, minVal, maxVal, false)
  {
    if minVal < d1 && d2 < maxVal {
      DivideMonotone(d1 - minVal, d2 - minVal, maxVal - minVal);
    }
  }

  /** The center angle after the guard: one tenth of a degree below the cone angle when it is not smaller. */
  function GuardedCenter(angle: real, center: real): (r: real)
    ensures r < angle
    ensures center < angle ==> r == center
  {
    if angle <= center then angle - 0.1 else center
  }

  /** The widening factor of the center range, positive for every positive cone angle. */
  function CenterFactor(angle: real, center: real): (r: real)
    requires angle > 0.0
    ensures r > 0.0
    ensures 0.0 <= center < angle ==> r <= 1.0
  {
    var guarded := GuardedCenter(angle, center);
    assert angle - guarded > 0.0;
    assert 0.0 <= center < angle ==> (angle - guarded) / angle <= 1.0 by {
      if 0.0 <= center < angle {
        DivideMonotone(angle - guarded, angle, angle);
        assert angle / angle == 1.0;
      }
    }
    (angle - guarded) / angle
  }

  /** The twist factor as computed: 1 less the twist's share of the twist angle, below 0 beyond it. */
  function TwistFactorAsWritten(c: Cone, twistOffset: real): (r: real)
    requires ConeValid(c)
    ensures !c.twist ==> r == 1.0
    ensures c.twist && twistOffset > c.twistAngle ==> r < 0.0
  {
    if c.twist then
      assert twistOffset > c.twistAngle ==> twistOffset / c.twistAngle > 1.0;
      1.0 - twistOffset / c.twistAngle
    else 1.0
  }

  /** The rotate factor as computed: the angular falloff times the twist factor, widened by the center factor. */
  function RotateFactorAsWritten(c: Cone, offset: real, twistOffset: real): real
    requires ConeValid(c)
  {
    if c.useRotate then
      (1.0 - offset / c.angle) * TwistFactorAsWritten(c, twistOffset) / CenterFactor(c.angle, c.centerAngle)
    else 1.0
  }

  /** Clamp to [0, 1]: at most 0 gives 0, at least 1 gives 1. */
  function Clamp01(v: real): (r: real)
    ensures 0.0 <= r <= 1.0
    ensures 0.0 < v < 1.0 ==> r == v
  {
    if v <= 0.0 then 0.0 else if v >= 1.0 then 1.0 else v
  }

  /** The weight before interpolation, as compute's vector-angle branch computes it. */
  function ConeWeightAsWritten(c: Cone, offset: real, twistOffset: real, distance: real): (r: real)
    requires ConeValid(c)
    ensures 0.0 <= r <= 1.0
  {
    var translate := if c.useTranslate then TranslateFactor(distance, c.translateMin, c.translateMax, c.grow) else 1.0;
    Clamp01(RotateFactorAsWritten(c, offset, twistOffset) * translate)
  }

  /**
   * A driver pointing straight away from the target (180 degrees off a
   * 45 degree cone) and twisted 180 degrees against a 90 degree twist
   * angle: both factors are negative, their product is 3 and the weight
   * is the full 1.
   */
  lemma OppositeTwistedDriverWeighsOne()
    ensures ConeWeightAsWritten(Cone(true, 45.0, 0.0, true, 90.0, false, 0.0, 0.0, false), 180.0, 180.0, 0.0) == 1.0
  {
    var c := Cone(true, 45.0, 0.0, true, 90.0, false, 0.0, 0.0, false);
    assert TwistFactorAsWritten(c, 180.0) == -1.0;
    assert CenterFactor(45.0, 0.0) == 1.0;
    assert RotateFactorAsWritten(c, 180.0, 180.0) == 3.0;
  }

  /** The twist factor with twists beyond the twist angle counting as no match. */
  function TwistFactor(c: Cone, twistOffset: real): (r: real)
    requires ConeValid(c)
    ensures 0.0 <= r
    ensures !c.twist ==> r == 1.0
    ensures c.twist && 0.0 <= twistOffset <= c.twistAngle ==> r == TwistFactorAsWritten(c, twistOffset)
  {
    var raw := TwistFactorAsWritten(c, twistOffset);
    if c.twist && 0.0 <= twistOffset <= c.twistAngle then
      assert twistOffset / c.twistAngle <= 1.0 by {
        DivideMonotone(twistOffset, c.twistAngle, c.twistAngle);
      }
      raw
    else if raw < 0.0 then 0.0
    else raw
  }

  /** The rotate factor with the twist factor kept non-negative. */
  function RotateFactor(c: Cone, offset: real, twistOffset: real): real
    requires ConeValid(c)
  {
    if c.useRotate then
      (1.0 - offset / c.angle) * TwistFactor(c, twistOffset) / CenterFactor(c.angle, c.centerAngle)
    else 1.0
  }

  /** The weight before interpolation with the corrected twist factor. */
  function ConeWeight(c: Cone, offset: real, twistOffset: real, distance: real): (r: real)
    requires ConeValid(c)
    ensures 0.0 <= r <= 1.0
  {
    var translate := if c.useTranslate then TranslateFactor(distance, c.translateMin, c.translateMax, c.grow) else 1.0;
    Clamp01(RotateFactor(c, offset, twistOffset) * translate)
  }

  /** The correction only matters beyond the twist angle: within it both weights agree. */
  lemma ConeWeightWithinTwist(c: Cone, offset: real, twistOffset: real, distance: real)
    requires ConeValid(c) && (!c.twist || 0.0 <= twistOffset <= c.twistAngle)
    ensures ConeWeight(c, offset, twistOffset, distance) == ConeWeightAsWritten(c, offset, twistOffset, distance)
  {
    assert TwistFactor(c, twistOffset) == TwistFactorAsWritten(c, twistOffset);
  }

  lemma NonPositiveProduct(a: real, b: real)
    requires a <= 0.0 && b >= 0.0
    ensures a * b <= 0.0
  {
  }

  /** A driver at or beyond the cone angle gets weight 0, whatever its twist and distance. */
  lemma OutsideConeWeighsZero(c: Cone, offset: real, twistOffset: real, distance: real)
    requires ConeValid(c) && c.useRotate && offset >= c.angle
    ensures ConeWeight(c, offset, twistOffset, distance) == 0.0
  {
    DivideMonotone(c.angle, offset, c.angle);
    var falloff := 1.0 - offset / c.angle;
    var twist := TwistFactor(c, twistOffset);
    var center := CenterFactor(c.angle, c.centerAngle);
    NonPositiveProduct(falloff, twist);
    var product := falloff * twist;
    assert product / center <= 0.0 by {
      DivideMonotone(product, 0.0, center);
    }
    var translate := if c.useTranslate then TranslateFactor(distance, c.translateMin, c.translateMax, c.grow) else 1.0;
    NonPositiveProduct(product / center, translate);
  }

  /** A driver twisted beyond the twist angle gets weight 0, whatever its offset and distance. */
  lemma TwistedPastAngleWeighsZero(c: Cone, offset: real, twistOffset: real, distance: real)
    requires ConeValid(c) && c.useRotate && c.twist && twistOffset > c.twistAngle
    ensures ConeWeight(c, offset, twistOffset, distance) == 0.0
  {
    assert TwistFactorAsWritten(c, twistOffset) < 0.0;
    assert TwistFactor(c, twistOffset) == 0.0;
    assert RotateFactor(c, offset, twistOffset) == 0.0;
  }

  /**
   * The output of the vector-angle type as compute produces it: the cone
   * weight as written run through interpolateWeight. Without
   * interpolation and with the slow curve, smoothstep and smootherstep it
   * stays in [0, 1].
   */
  function VectorAngleWeightAsWritten(c: Cone, offset: real, twistOffset: real, distance: real,
                                      interpolation: int, m: Maths, curve: real -> real): (r: real)
    requires ConeValid(c)
    ensures interpolation < 1 || interpolation > 5 || interpolation == 1 || interpolation == 3 || interpolation == 4 ==>
      0.0 <= r <= 1.0
  {
    var w := ConeWeightAsWritten(c, offset, twistOffset, distance);
    SlowCurveBounded(w, m, curve);
    SmoothstepBounded(w, m, curve);
    SmootherstepBounded(w, m, curve);
    InterpolateWeight(w, interpolation, m, curve)
  }

  /**
   * The output of the vector-angle type with the corrected twist factor.
   * Without interpolation and with the slow curve, smoothstep and
   * smootherstep it stays in [0, 1].
   */
  function VectorAngleWeight(c: Cone, offset: real, twistOffset: real, distance: real,
                             interpolation: int, m: Maths, curve: real -> real): (r: real)
    requires ConeValid(c)
    ensures interpolation < 1 || interpolation > 5 || interpolation == 1 || interpolation == 3 || interpolation == 4 ==>
      0.0 <= r <= 1.0
  {
    var w := ConeWeight(c, offset, twistOffset, distance);
    SlowCurveBounded(w, m, curve);
    SmoothstepBounded(w, m, curve);
    SmootherstepBounded(w, m, curve);
    InterpolateWeight(w, interpolation, m, curve)
  }

  /** Within the twist angle, or without twist, the output as written and the corrected one agree. */
  lemma VectorAngleWeightWithinTwist(c: Cone, offset: real, twistOffset: real, distance: real,
                                     interpolation: int, m: Maths, curve: real -> real)
    requires ConeValid(c) && (!c.twist || 0.0 <= twistOffset <= c.twistAngle)
    ensures VectorAngleWeightAsWritten(c, offset, twistOffset, distance, interpolation, m, curve)
         == VectorAngleWeight(c, offset, twistOffset, distance, interpolation, m, curve)
  {
    ConeWeightWithinTwist(c, offset, twistOffset, distance);
  }

  /**
   * With the corrected twist factor a driver outside the cone, or twisted
   * beyond the twist angle, yields 0 for every built-in curve.
   */
  lemma VectorAngleWeightZero(c: Cone, offset: real, twistOffset: real, distance: real,
                              interpolation: int, m: Maths, curve: real -> real)
    requires ConeValid(c) && Lawful(m) && interpolation < 5
    requires c.useRotate && (offset >= c.angle || (c.twist && twistOffset > c.twistAngle))
    ensures VectorAngleWeight(c, offset, twistOffset, distance, interpolation, m, curve) == 0.0
  {
    if offset >= c.angle {
      OutsideConeWeighsZero(c, offset, twistOffset, distance);
    } else {
      TwistedPastAngleWeighsZero(c, offset, twistOffset, distance);
    }
  }
}
