/** The Kavach++ braking integrator and the distance it can never undercut. */
module Braking {
  import opened Collections
  import opened RealMath

  const GRAVITY := 9.81
  const DT := 0.1
  const RHO_AIR := 1.225

  datatype Train = Train(
    massTonnes: real,
    brakeWeightPct: real,
    frontalAreaM2: real,
    dragCoeff: real,
    rotationalInertia: real,
    reactionTimeS: real,
    propagationTimeS: real,
    lengthM: real)
  {
    /** A massless train, or one without inertia, divides by zero. */
    predicate Physical() {
      massTonnes != 0.0 && rotationalInertia != 0.0
    }
  }

  /** Gradient (as cosine and sine of its angle), curve and wind. */
  datatype Track = Track(cosTheta: real, sinTheta: real, curveRadiusM: real, headwindKmh: real)

  datatype Result = Result(
    totalM: real,
    reactionM: real,
    propagationM: real,
    brakingM: real,
    totalTimeS: real,
    peakDecel: real,
    finalFade: real)

  function Max(a: real, b: real): real { if a < b then b else a }

  function Min(a: real, b: real): real { if b < a then b else a }

  // ---- Forces ----

  /** `davis_resistance_N_per_tonne` */
  function DavisResistance(speedKmh: real, train: Train): real
    requires train.Physical()
  {
    var massPerM := train.massTonnes / Max(train.lengthM, 1.0);
    var c := 0.00014 * (train.frontalAreaM2 / massPerM);
    1.5 + 0.0075 * speedKmh + c * speedKmh * speedKmh
  }

  function AerodynamicDrag(speedKmh: real, train: Train): real {
    var v := speedKmh / 3.6;
    0.5 * RHO_AIR * train.dragCoeff * train.frontalAreaM2 * v * v
  }

  function CurveResistance(radiusM: real): real {
    if radiusM <= 0.0 then 0.0 else 700.0 / radiusM
  }

  function TotalForce(v: real, mu: real, track: Track, train: Train): real
    requires train.Physical()
  {
    var massKg := train.massTonnes * 1000.0;
    var vKmh := v * 3.6;
    var fBrake := mu * massKg * GRAVITY * track.cosTheta * (train.brakeWeightPct / 100.0);
    var fAero := AerodynamicDrag(vKmh + track.headwindKmh, train);
    var fResistance := DavisResistance(vKmh, train) * train.massTonnes;
    var fGravity := massKg * GRAVITY * track.sinTheta;
    var fCurve := CurveResistance(track.curveRadiusM) * train.massTonnes;
    fBrake + fAero + fResistance + fGravity + fCurve
  }

  /** `_instantaneous_deceleration`: whatever the forces, wheel-slide protection caps it at mu * g. */
  function InstantaneousDeceleration(v: real, mu: real, track: Track, train: Train): (a: real)
    requires train.Physical()
    ensures a <= mu * GRAVITY
  {
    var effectiveMass := train.massTonnes * 1000.0 * train.rotationalInertia;
    assert effectiveMass != 0.0 by {
      NonZeroProduct(train.massTonnes * 1000.0, train.rotationalInertia);
    }
    Min(TotalForce(v, mu, track, train) / effectiveMass, mu * GRAVITY)
  }

  lemma NonZeroProduct(a: real, b: real)
    requires a != 0.0 && b != 0.0
    ensures a * b != 0.0
  {
  }

  /** `brake_fade_factor` */
  function BrakeFade(speedKmh: real, durationS: real, ambientC: real, exp: real -> real): (fade: real)
    ensures 0.5 <= fade <= 1.0
  {
    if durationS <= 0.0 then 1.0
    else
      var v := speedKmh / 3.6;
      var energy := Times(Square(v), durationS);
      var tempFactor := 1.0 + Max(0.0, ambientC - 30.0) * 0.005;
      var fade := 1.0 - 0.15 * Times(tempFactor, 1.0 - exp(-energy / 50000.0));
      Max(0.5, Min(1.0, fade))
  }

  /** The largest deceleration the integrator can apply: the low-speed recovery adds five percent. */
  function DecelerationCap(mu: real): real {
    1.05 * mu * GRAVITY
  }

  function LowSpeedRecovery(v: real): real {
    1.0 + 0.05 * (5.0 - v) / 5.0
  }

  /** Adhesion in force while braking at speed v. */
  function EffectiveMu(mu: real, v: real, fade: real): real {
    if v < 5.0 then Times(Times(mu, fade), LowSpeedRecovery(v)) else Times(mu, fade)
  }

  lemma EffectiveMuCapped(mu: real, v: real, fade: real)
    requires mu > 0.0 && v >= 0.0 && 0.0 <= fade <= 1.0
    ensures EffectiveMu(mu, v, fade) * GRAVITY <= DecelerationCap(mu)
  {
    var p, f := Times(mu, fade), LowSpeedRecovery(v);
    assert v < 5.0 ==> 1.0 <= f <= 1.05;
    assert Times(mu, 1.05) == 1.05 * mu;
    hide Times, LowSpeedRecovery;
    TimesMonotone(fade, 1.0, mu);
    TimesOne(mu);
    if v < 5.0 {
      TimesMonotone(p, mu, f);
      TimesMonotone(f, 1.05, mu);
    }
  }

  lemma RampedMuCapped(mu: real, ramp: real)
    requires mu > 0.0 && 0.0 <= ramp <= 1.0
    ensures Times(mu, ramp) * GRAVITY <= DecelerationCap(mu)
  {
    ProductMonotone(ramp, 1.0, mu);
  }

  // ---- The energy argument ----

  /**
   * What the speed v still costs in distance when slowing by at most `cap`:
   * v^2 / (2 cap), less half a step at speed v for the integrator's rounding in the train's favour.
   */
  function Potential(v: real, cap: real): real
    requires cap > 0.0
  {
    v * v / (2.0 * cap) - DT * v / 2.0
  }

  /** The textbook distance from speed v to speed w at constant deceleration, less half a step of travel. */
  function ShortestBraking(v: real, w: real, cap: real): real
    requires cap > 0.0
  {
    (v * v - w * w) / (2.0 * cap) - DT * (v - w) / 2.0
  }

  /** One Euler step covers at least the potential it uses up. */
  lemma StepCoversPotential(v: real, a: real, cap: real)
    requires v >= 0.0 && cap > 0.0 && a <= cap
    ensures var w := Max(0.0, v - a * DT);
            w * DT >= Potential(v, cap) - Potential(w, cap)
  {
    var w := Max(0.0, v - a * DT);
    var drop, sum := v - w, v + w;
    assert drop <= cap * DT;
    ProductMonotone(drop, cap * DT, sum);
    Halve(drop * sum, DT * sum, cap);
    SquareDifference(v, w, cap);
  }

  lemma Halve(p: real, q: real, cap: real)
    requires cap > 0.0 && p <= cap * q
    ensures p / (2.0 * cap) <= q / 2.0
  {
    var r := p / (2.0 * cap);
    assert r * (2.0 * cap) == p;
    if r > q / 2.0 {
      StrictProduct(r - q / 2.0, 2.0 * cap);
    }
  }

  lemma SquareDifference(v: real, w: real, cap: real)
    requires cap > 0.0
    ensures (v - w) * (v + w) / (2.0 * cap) == v * v / (2.0 * cap) - w * w / (2.0 * cap)
  {
    var m := 2.0 * cap;
    var p, q := v * v / m, w * w / m;
    assert p * m == v * v && q * m == w * w;
    assert (p - q) * m == (v - w) * (v + w);
  }

  // ---- The integrator ----

  /** Everything that stays fixed while the train brakes; `exp` stands for `math.exp`. */
  datatype Setting = Setting(mu: real, track: Track, train: Train, ambientC: real, exp: real -> real)

  /** One Euler step of the speed. */
  function NextSpeed(v: real, a: real): (w: real)
    ensures w >= 0.0
  {
    Max(0.0, v - a * DT)
  }

  /** The share of the brakes in force while the pipe fills. */
  function Ramp(t: real, total: real): real {
    t / Max(total, 0.1)
  }

  function RampedDeceleration(s: Setting, v: real, t: real): real
    requires s.train.Physical()
  {
    InstantaneousDeceleration(v, Times(s.mu, Ramp(t, s.train.propagationTimeS)), s.track, s.train)
  }

  function BrakingDeceleration(s: Setting, v: real, t: real): real
    requires s.train.Physical()
  {
    InstantaneousDeceleration(v, EffectiveMu(s.mu, v, BrakeFade(v * 3.6, t, s.ambientC, s.exp)), s.track, s.train)
  }

  /** Distance covered, speed and time reached, and the largest deceleration met. */
  datatype Run = Run(distance: real, v: real, t: real, peak: real)

  /** The propagation phase from speed v at time t: the brakes ramp up until the pipe is filled. */
  function Propagate(s: Setting, v: real, t: real): Run
    requires s.train.Physical()
    decreases (s.train.propagationTimeS - t) * 10.0
  {
    if t < s.train.propagationTimeS && v > 0.0 then
      var w := NextSpeed(v, RampedDeceleration(s, v, t));
      var rest := Propagate(s, w, t + DT);
      rest.(distance := w * DT + rest.distance)
    else Run(0.0, v, t, 0.0)
  }

  const MAX_STEPS := 3001

  /** The braking phase from speed v after n steps: until standstill, or until five minutes are exceeded. */
  function Brake(s: Setting, v: real, n: nat): Run
    requires s.train.Physical() && n <= MAX_STEPS
    decreases MAX_STEPS - n
  {
    if v <= 0.01 || n as real * DT > 300.0 then Run(0.0, v, n as real * DT, 0.0)
    else
      var a := BrakingDeceleration(s, v, n as real * DT);
      var w := NextSpeed(v, a);
      var rest := Brake(s, w, n + 1);
      rest.(distance := w * DT + rest.distance, peak := Max(a, rest.peak))
  }

  lemma {:induction false} PropagateCoversPotential(s: Setting, v: real, t: real)
    requires s.train.Physical() && s.mu > 0.0 && v >= 0.0 && t >= 0.0
    ensures var r := Propagate(s, v, t);
            var cap := DecelerationCap(s.mu);
            r.v >= 0.0 && r.distance >= Potential(v, cap) - Potential(r.v, cap)
    decreases (s.train.propagationTimeS - t) * 10.0
  {
    hide Potential, InstantaneousDeceleration;
    CapPositive(s.mu);
    if t < s.train.propagationTimeS && v > 0.0 {
      var a := RampedDeceleration(s, v, t);
      RampBelowOne(t, s.train.propagationTimeS);
      RampedMuCapped(s.mu, Ramp(t, s.train.propagationTimeS));
      StepCoversPotential(v, a, DecelerationCap(s.mu));
      PropagateCoversPotential(s, NextSpeed(v, a), t + DT);
    }
  }

  lemma {:induction false} BrakeCoversPotential(s: Setting, v: real, n: nat)
    requires s.train.Physical() && s.mu > 0.0 && v >= 0.0 && n <= MAX_STEPS
    ensures var r := Brake(s, v, n);
            var cap := DecelerationCap(s.mu);
            && r.v >= 0.0 && 0.0 <= r.peak <= cap
            && r.distance >= Potential(v, cap) - Potential(r.v, cap)
    decreases MAX_STEPS - n
  {
    hide Potential, InstantaneousDeceleration, EffectiveMu, BrakeFade;
    CapPositive(s.mu);
    if v > 0.01 && n as real * DT <= 300.0 {
      var a := BrakingDeceleration(s, v, n as real * DT);
      EffectiveMuCapped(s.mu, v, BrakeFade(v * 3.6, n as real * DT, s.ambientC, s.exp));
      StepCoversPotential(v, a, DecelerationCap(s.mu));
      BrakeCoversPotential(s, NextSpeed(v, a), n + 1);
    }
  }

  /** The braking phase lasts at most 3001 steps, and ends at a standstill unless it is cut off. */
  lemma {:induction false} BrakeEnds(s: Setting, v: real, n: nat)
    requires s.train.Physical() && n <= MAX_STEPS
    ensures var r := Brake(s, v, n);
            n as real * DT <= r.t <= MAX_STEPS as real * DT && (r.v <= 0.01 || r.t == MAX_STEPS as real * DT)
    decreases MAX_STEPS - n
  {
    hide BrakingDeceleration, NextSpeed;
    if v > 0.01 && n as real * DT <= 300.0 {
      BrakeEnds(s, NextSpeed(v, BrakingDeceleration(s, v, n as real * DT)), n + 1);
    }
  }

  /** The whole computation: reaction, propagation, braking. */
  function StoppingRun(speedKmh: real, s: Setting): (r: Result)
    requires s.train.Physical()
  {
    var v0 := speedKmh / 3.6;
    if v0 <= 0.0 then Result(0.0, 0.0, 0.0, 0.0, 0.0, 0.0, BrakeFade(0.0, 0.0, s.ambientC, s.exp))
    else
      var reaction := v0 * s.train.reactionTimeS;
      var p := Propagate(s, v0, 0.0);
      var b := Brake(s, p.v, 0);
      Result(reaction + p.distance + b.distance, reaction, p.distance, b.distance,
             s.train.reactionTimeS + s.train.propagationTimeS + b.t, b.peak,
             BrakeFade(speedKmh, b.t, s.ambientC, s.exp))
  }

  /** The speed at which the integration stops. */
  function FinalSpeed(speedKmh: real, s: Setting): real
    requires s.train.Physical()
  {
    Brake(s, Propagate(s, speedKmh / 3.6, 0.0).v, 0).v
  }

  /** Phase 1 of `compute_braking_distance`. */
  method PropagationPhase(s: Setting, v0: real) returns (dPropagation: real, v: real)
    requires s.train.Physical()
    ensures var p := Propagate(s, v0, 0.0); dPropagation == p.distance && v == p.v
  {
    hide RampedDeceleration, NextSpeed;
    dPropagation, v := 0.0, v0;
    var tProp := 0.0;
    while tProp < s.train.propagationTimeS && v > 0.0
      invariant var rest := Propagate(s, v, tProp);
                Propagate(s, v0, 0.0) == rest.(distance := dPropagation + rest.distance)
      decreases (s.train.propagationTimeS - tProp) * 10.0
    {
      v := NextSpeed(v, RampedDeceleration(s, v, tProp));
      dPropagation := dPropagation + v * DT;
      tProp := tProp + DT;
    }
  }

  /** Phases 2 and 3 of `compute_braking_distance`. */
  method BrakingPhase(s: Setting, vFull: real) returns (dBraking: real, tBrake: real, peakDecel: real)
    requires s.train.Physical()
    ensures var b := Brake(s, vFull, 0); dBraking == b.distance && tBrake == b.t && peakDecel == b.peak
  {
    hide BrakingDeceleration, NextSpeed;
    var v := vFull;
    dBraking, tBrake, peakDecel := 0.0, 0.0, 0.0;
    ghost var n := 0;
    BrakePeak(s, v, 0);
    while v > 0.01
      invariant 0 <= n < MAX_STEPS && tBrake == n as real * DT && peakDecel >= 0.0
      invariant var rest := Brake(s, v, n);
                Brake(s, vFull, 0) == rest.(distance := dBraking + rest.distance, peak := Max(peakDecel, rest.peak))
      decreases MAX_STEPS - n
    {
      var a := BrakingDeceleration(s, v, tBrake);
      peakDecel := Max(peakDecel, a);
      v := NextSpeed(v, a);
      dBraking := dBraking + v * DT;
      tBrake := tBrake + DT;
      n := n + 1;
      BrakePeak(s, v, n);
      if tBrake > 300.0 {
        break;
      }
    }
  }

  /** `compute_braking_distance`: both loops end, and add up the phases step by step. */
  method ComputeBrakingDistance(speedKmh: real, s: Setting) returns (r: Result)
    requires s.train.Physical()
    ensures r == StoppingRun(speedKmh, s)
  {
    hide BrakeFade, Propagate, Brake;
    var v0 := speedKmh / 3.6;
    if v0 <= 0.0 {
      return Result(0.0, 0.0, 0.0, 0.0, 0.0, 0.0, BrakeFade(0.0, 0.0, s.ambientC, s.exp));
    }
    var dReaction := v0 * s.train.reactionTimeS;
    var dPropagation, v := PropagationPhase(s, v0);
    var dBraking, tBrake, peakDecel := BrakingPhase(s, v);
    r := Result(dReaction + dPropagation + dBraking, dReaction, dPropagation, dBraking,
                s.train.reactionTimeS + s.train.propagationTimeS + tBrake, peakDecel,
                BrakeFade(speedKmh, tBrake, s.ambientC, s.exp));
  }

  lemma {:induction false} BrakePeak(s: Setting, v: real, n: nat)
    requires s.train.Physical() && n <= MAX_STEPS
    ensures Brake(s, v, n).peak >= 0.0
    decreases MAX_STEPS - n
  {
    hide BrakingDeceleration, NextSpeed;
    if v > 0.01 && n as real * DT <= 300.0 {
      BrakePeak(s, NextSpeed(v, BrakingDeceleration(s, v, n as real * DT)), n + 1);
    }
  }

  /**
   * With any positive adhesion, on any track, the distance after the reaction phase is at least what the largest
   * possible deceleration needs, less half a step of travel.
   */
  lemma StoppingDistanceBound(speedKmh: real, s: Setting)
    requires s.train.Physical() && s.mu > 0.0 && speedKmh > 0.0
    ensures var r := StoppingRun(speedKmh, s);
            var v0, vEnd, cap := speedKmh / 3.6, FinalSpeed(speedKmh, s), DecelerationCap(s.mu);
            && cap > 0.0
            && r.totalM - r.reactionM >= ShortestBraking(v0, vEnd, cap)
            && 0.0 <= r.peakDecel <= cap
            && (vEnd <= 0.01 || r.totalTimeS == s.train.reactionTimeS + s.train.propagationTimeS + MAX_STEPS as real * DT)
  {
    hide Potential, ShortestBraking, Propagate, Brake, BrakeFade, DecelerationCap;
    var v0 := speedKmh / 3.6;
    CapPositive(s.mu);
    PropagateCoversPotential(s, v0, 0.0);
    var p := Propagate(s, v0, 0.0);
    BrakeCoversPotential(s, p.v, 0);
    BrakeEnds(s, p.v, 0);
    PotentialDrop(v0, FinalSpeed(speedKmh, s), DecelerationCap(s.mu));
  }

  lemma PotentialDrop(v: real, w: real, cap: real)
    requires cap > 0.0
    ensures Potential(v, cap) - Potential(w, cap) == ShortestBraking(v, w, cap)
  {
    SquareDifference(v, w, cap);
    assert (v - w) * (v + w) == v * v - w * w;
  }

  lemma CapPositive(mu: real)
    requires mu > 0.0
    ensures DecelerationCap(mu) > 0.0
  {
  }

  lemma RampBelowOne(t: real, total: real)
    requires 0.0 <= t < total
    ensures 0.0 <= Ramp(t, total) <= 1.0
  {
    var m := Max(total, 0.1);
    var r := t / m;
    assert r * m == t;
    if r > 1.0 {
      StrictProduct(r - 1.0, m);
    } else if r < 0.0 {
      StrictProduct(-r, m);
    }
  }

  // ---- The advisory ----

  /** Adhesion by the state of the rail; `slip` says how much of the fall with speed has taken place. */
  function RailAdhesion(vibration: real, humidityPct: real, leaf: bool, slip: real): real {
    var (ks, mu0) :=
      if leaf then (0.40, 0.08)
      else if vibration > 3.0 then (0.30, 0.12)
      else if vibration > 2.0 || humidityPct > 85.0 then (0.25, 0.18)
      else if humidityPct > 70.0 then (0.20, 0.25)
      else (0.15, 0.35);
    mu0 * (1.0 - ks * slip)
  }

  function VibrationPenalty(vibration: real): real {
    Max(0.0, 1.0 - 0.03 * Max(0.0, vibration - 1.0))
  }

  /** `polach_adhesion`: always between 0.02 and 0.40. */
  function PolachAdhesion(speedKmh: real, vibration: real, humidityPct: real, leaf: bool, exp: real -> real): (mu: real)
    ensures 0.02 <= mu <= 0.40
  {
    var v := Max(speedKmh / 3.6, 0.1);
    Max(0.02, Min(0.40, Times(RailAdhesion(vibration, humidityPct, leaf, 1.0 - exp(-v / 25.0)), VibrationPenalty(vibration))))
  }

  function EstimateAdhesion(vibration: real, speedKmh: real, humidityPct: real, exp: real -> real): (mu: real)
    ensures 0.02 <= mu <= 0.40
  {
    PolachAdhesion(speedKmh, vibration, humidityPct, vibration > 4.0, exp)
  }

  /** `kavach_certified_stopping_distance` */
  function CertifiedDistance(speedKmh: real): real {
    var v := speedKmh / 3.6;
    v * 3.0 + v * 7.0 * 0.9 + v * v * 1.04 / (2.0 * 0.08 * GRAVITY * (70.0 / 100.0))
  }

  /**
   * `advisory_stopping_distance`: unavailable without vibration data; otherwise never below the certified distance,
   * nor below what the best possible deceleration at the estimated adhesion allows after the reaction phase.
   */
  method AdvisoryStoppingDistance(speedKmh: real, vibration: Option<real>, humidityPct: real, track: Track,
                                  train: Train, ambientC: real, exp: real -> real)
    returns (distance: Option<real>)
    requires train.Physical()
    ensures distance == None <==> vibration == None
    ensures distance.Some? ==>
      var mu := EstimateAdhesion(vibration.value, speedKmh, humidityPct, exp);
      var total := StoppingRun(speedKmh, Setting(mu, track, train, ambientC, exp)).totalM;
      && distance.value >= CertifiedDistance(speedKmh)
      && distance.value >= total
      && (distance.value == CertifiedDistance(speedKmh) || distance.value == total)
    ensures distance.Some? && speedKmh > 0.0 ==>
      var mu := EstimateAdhesion(vibration.value, speedKmh, humidityPct, exp);
      var s := Setting(mu, track, train, ambientC, exp);
      var v0, vEnd := speedKmh / 3.6, FinalSpeed(speedKmh, s);
      DecelerationCap(mu) > 0.0
      && distance.value - v0 * train.reactionTimeS >= ShortestBraking(v0, vEnd, DecelerationCap(mu))
  {
    hide PolachAdhesion, CertifiedDistance, Propagate, Brake, BrakeFade, DecelerationCap, ShortestBraking;
    if vibration == None {
      return None;
    }
    var mu := EstimateAdhesion(vibration.value, speedKmh, humidityPct, exp);
    CapPositive(mu);
    var s := Setting(mu, track, train, ambientC, exp);
    var braking := ComputeBrakingDistance(speedKmh, s);
    distance := Some(Max(braking.totalM, CertifiedDistance(speedKmh)));
    if speedKmh > 0.0 {
      StoppingDistanceBound(speedKmh, s);
    }
  }
}
