/** Blower-door air tightness converted to the power-law infiltration inputs:
    a flow coefficient, and effective leakage areas shared out by surface. */
module Infiltration {
  import opened Values

  type Positive = x: real | x > 0.0 witness 1.0

  /** ACH_to_flowCoefficient: the flow at 50 Pa, Q50 = ach * volume / 3600 m3/s,
      equals c * 50^n for the whole building, split evenly over nZones.
      pow50n stands for 50 ** n (n = 0.67 by default). */
  function FlowCoefficient(ach: real, volume: real, nZones: int, pow50n: Positive): (c: real)
    requires nZones != 0
    ensures c * (nZones as real) * pow50n * 3600.0 == ach * volume
  {
    var q50 := ach * volume / 3600.0;
    var cBuilding := q50 / pow50n;
    cBuilding / nZones as real
  }

  /** The coefficient is linear in the air-change rate. */
  lemma FlowLinearInAch(a1: real, a2: real, k: real, volume: real, nZones: int, pow50n: Positive)
    requires nZones != 0
    ensures FlowCoefficient(a1 + a2, volume, nZones, pow50n)
         == FlowCoefficient(a1, volume, nZones, pow50n) + FlowCoefficient(a2, volume, nZones, pow50n)
    ensures FlowCoefficient(k * a1, volume, nZones, pow50n) == k * FlowCoefficient(a1, volume, nZones, pow50n)
  {
    var d := (nZones as real) * pow50n * 3600.0;
    assert d != 0.0;
    var c1, c2 := FlowCoefficient(a1, volume, nZones, pow50n), FlowCoefficient(a2, volume, nZones, pow50n);
    var c := FlowCoefficient(a1 + a2, volume, nZones, pow50n);
    assert c * d == (c1 + c2) * d;
    var ck := FlowCoefficient(k * a1, volume, nZones, pow50n);
    assert ck * d == (k * c1) * d;
  }

  /** The coefficient is linear in the building volume. */
  lemma FlowLinearInVolume(ach: real, v1: real, v2: real, k: real, nZones: int, pow50n: Positive)
    requires nZones != 0
    ensures FlowCoefficient(ach, v1 + v2, nZones, pow50n)
         == FlowCoefficient(ach, v1, nZones, pow50n) + FlowCoefficient(ach, v2, nZones, pow50n)
    ensures FlowCoefficient(ach, k * v1, nZones, pow50n) == k * FlowCoefficient(ach, v1, nZones, pow50n)
  {
    var d := (nZones as real) * pow50n * 3600.0;
    assert d != 0.0;
    var c1, c2 := FlowCoefficient(ach, v1, nZones, pow50n), FlowCoefficient(ach, v2, nZones, pow50n);
    var c := FlowCoefficient(ach, v1 + v2, nZones, pow50n);
    assert c * d == (c1 + c2) * d;
    var ck := FlowCoefficient(ach, k * v1, nZones, pow50n);
    assert ck * d == (k * c1) * d;
  }

  /** Each of nZones zones gets 1/nZones of the whole-building coefficient. */
  lemma FlowSplitAcrossZones(ach: real, volume: real, nZones: int, pow50n: Positive)
    requires nZones != 0
    ensures FlowCoefficient(ach, volume, nZones, pow50n) * (nZones as real)
         == FlowCoefficient(ach, volume, 1, pow50n)
  {
    var d := pow50n * 3600.0;
    var c := FlowCoefficient(ach, volume, nZones, pow50n);
    var c1 := FlowCoefficient(ach, volume, 1, pow50n);
    assert (c * (nZones as real)) * d == c1 * d;
  }

  /** The discharge coefficient C_D of the leakage formula. */
  const DischargeCoefficient: real := 0.611

  /** The whole-building effective leakage area at 10 Pa:
      c_r / C_D * (rho/2) ** 0.5 * 10 ** (n - 0.5), with rootHalfRho standing
      for (rho/2) ** 0.5 and tenPow for 10 ** (n - 0.5). */
  function EffectiveLeakageArea(cr: real, rootHalfRho: Positive, tenPow: Positive): (ela: real)
    ensures ela * DischargeCoefficient == cr * rootHalfRho * tenPow
  {
    cr / DischargeCoefficient * rootHalfRho * tenPow
  }

  /** The effective leakage area of each above-grade surface. */
  datatype Leakage = Leakage(north: real, south: real, east: real, west: real, roof: real)

  /** Four walls and the roof: the total envelope area the leakage is shared over. */
  function EnvelopeArea(height: real, width: real, length: real): real
  {
    width * height + width * height + length * height + length * height + length * width
  }

  /** flowCoefficient_to_effectiveLeakageArea_10's split: each surface gets
      the share of ela its area has of the envelope; an envelope of zero area
      is a ZeroDivisionError. */
  function LeakageShares(ela: real, height: real, width: real, length: real): (r: Result<Leakage>)
    ensures r.Err? <==> EnvelopeArea(height, width, length) == 0.0
    ensures r.Err? ==> r.error == ZeroDivisionError
    ensures r.Ok? ==> r.value.north + r.value.south + r.value.east + r.value.west + r.value.roof == ela
    ensures r.Ok? ==> r.value.north == r.value.south && r.value.east == r.value.west
    ensures r.Ok? ==>
      var total := EnvelopeArea(height, width, length);
      && r.value.north * total == width * height * ela
      && r.value.east * total == length * height * ela
      && r.value.roof * total == length * width * ela
  {
    var aNorth := width * height;
    var aSouth := width * height;
    var aEast := length * height;
    var aWest := length * height;
    var aRoof := length * width;
    var aTotal := aNorth + aSouth + aEast + aWest + aRoof;
    if aTotal == 0.0 then Err(ZeroDivisionError)
    else
      var l := Leakage(aNorth / aTotal * ela, aSouth / aTotal * ela, aEast / aTotal * ela,
                       aWest / aTotal * ela, aRoof / aTotal * ela);
      assert (l.north + l.south + l.east + l.west + l.roof) * aTotal == ela * aTotal;
      Ok(l)
  }
}
