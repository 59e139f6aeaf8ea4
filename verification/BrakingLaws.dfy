/** How each force and each condition bears on the deceleration, and the distance braking cannot exceed. */
module BrakingLaws {
  import opened RealMath
  import opened Braking

  // ---- One force at a time ----

  /** Two forces on the same inertia, under the same cap: below it, decelerations differ as the forces do. */
  lemma Capped(f: real, g: real, inertia: real, cap: real)
    requires inertia != 0.0 && f / inertia < cap
    ensures Min(g / inertia, cap) == Min(Min(f / inertia, cap) + (g - f) / inertia, cap)
  {
    QuotientDifference(f, g, inertia);
  }

  lemma QuotientDifference(f: real, g: real, m: real)
    requires m != 0.0
    ensures g / m - f / m == (g - f) / m
  {
    var p, q, r := f / m, g / m, (g - f) / m;
    assert p * m == f && q * m == g && r * m == g - f;
    assert (q - p - r) * m == 0.0;
    if q - p - r != 0.0 {
      NonZeroProduct(q - p - r, m);
    }
  }

  /** The force that `perKg` newtons on every kilogram amount to. */
  function Newtons(tonnes: real, perKg: real): real {
    tonnes * 1000.0 * perKg
  }

  /** A force of `perKg` on every kilogram decelerates by `perKg` over the factor for the rotating masses. */
  lemma PerKilogram(train: Train, perKg: real)
    requires train.Physical()
    ensures Inertia(train) != 0.0 && Newtons(train.massTonnes, perKg) / Inertia(train) == perKg / train.rotationalInertia
  {
    var m, inertia := train.massTonnes * 1000.0, train.rotationalInertia;
    NonZeroProduct(m, inertia);
    var q := perKg / inertia;
    assert q * inertia == perKg;
    assert q * (m * inertia) == m * perKg;
    QuotientOf(q, m * inertia, m * perKg);
  }

  lemma QuotientOf(q: real, d: real, n: real)
    requires d != 0.0 && q * d == n
    ensures n / d == q
  {
  }

  function Inertia(train: Train): real {
    train.massTonnes * 1000.0 * train.rotationalInertia
  }

  lemma DecelerationIs(v: real, mu: real, track: Track, train: Train)
    requires train.Physical()
    ensures Inertia(train) != 0.0
    ensures InstantaneousDeceleration(v, mu, track, train)
         == Min(TotalForce(v, mu, track, train) / Inertia(train), mu * GRAVITY)
  {
    hide TotalForce;
    NonZeroProduct(train.massTonnes * 1000.0, train.rotationalInertia);
  }

  /** Where the forces differ by so much on every kilogram, so do the decelerations below the slip limit. */
  lemma ForceLaw(v: real, mu: real, track: Track, train: Train, otherTrack: Track, otherTrain: Train, perKg: real)
    requires train.Physical() && otherTrain.Physical() && Inertia(otherTrain) == Inertia(train)
    requires InstantaneousDeceleration(v, mu, track, train) < mu * GRAVITY
    requires TotalForce(v, mu, otherTrack, otherTrain) - TotalForce(v, mu, track, train) == Newtons(train.massTonnes, perKg)
    ensures InstantaneousDeceleration(v, mu, otherTrack, otherTrain)
         == Min(InstantaneousDeceleration(v, mu, track, train) + perKg / train.rotationalInertia, mu * GRAVITY)
  {
    DecelerationIs(v, mu, track, train);
    DecelerationIs(v, mu, otherTrack, otherTrain);
    PerKilogram(train, perKg);
    hide TotalForce, InstantaneousDeceleration, Newtons, Inertia;
    Capped(TotalForce(v, mu, track, train), TotalForce(v, mu, otherTrack, otherTrain), Inertia(train), mu * GRAVITY);
  }

  /** Uphill brakes: below the slip limit, the sine of the gradient adds g times itself, less for rotating masses. */
  lemma GradientLaw(v: real, mu: real, track: Track, train: Train, sine: real)
    requires train.Physical() && InstantaneousDeceleration(v, mu, track, train) < mu * GRAVITY
    ensures InstantaneousDeceleration(v, mu, track.(sinTheta := sine), train)
         == Min(InstantaneousDeceleration(v, mu, track, train)
                + GRAVITY * (sine - track.sinTheta) / train.rotationalInertia, mu * GRAVITY)
  {
    GradientForce(v, mu, track, train, sine);
    hide TotalForce, InstantaneousDeceleration, Newtons;
    ForceLaw(v, mu, track, train, track.(sinTheta := sine), train, GRAVITY * (sine - track.sinTheta));
  }

  lemma GradientForce(v: real, mu: real, track: Track, train: Train, sine: real)
    requires train.Physical()
    ensures TotalForce(v, mu, track.(sinTheta := sine), train) - TotalForce(v, mu, track, train)
         == Newtons(train.massTonnes, GRAVITY * (sine - track.sinTheta))
  {
    hide DavisResistance, AerodynamicDrag, CurveResistance, Newtons;
    ForceSum(v, mu, track, train);
    ForceSum(v, mu, track.(sinTheta := sine), train);
    NewtonsDifference(train.massTonnes, GRAVITY * sine, GRAVITY * track.sinTheta);
  }

  /** The forces other than gravity and the curve. */
  function Rest(v: real, mu: real, track: Track, train: Train): real
    requires train.Physical()
  {
    TotalForce(v, mu, track.(sinTheta := 0.0, curveRadiusM := 0.0), train)
  }

  lemma ForceSum(v: real, mu: real, track: Track, train: Train)
    requires train.Physical()
    ensures TotalForce(v, mu, track, train)
         == Rest(v, mu, track, train) + Newtons(train.massTonnes, GRAVITY * track.sinTheta)
            + CurveResistance(track.curveRadiusM) * train.massTonnes
  {
    hide DavisResistance, AerodynamicDrag;
    var m := train.massTonnes * 1000.0;
    assert m * GRAVITY * track.sinTheta == m * (GRAVITY * track.sinTheta);
    assert m * GRAVITY * 0.0 == 0.0;
    assert CurveResistance(0.0) * train.massTonnes == 0.0;
  }

  lemma NewtonsDifference(tonnes: real, a: real, b: real)
    ensures Newtons(tonnes, a) - Newtons(tonnes, b) == Newtons(tonnes, a - b)
  {
  }

  /** The brakes: every percent of braked weight adds mu g cos(theta) / 100. */
  lemma BrakeLaw(v: real, mu: real, track: Track, train: Train, pct: real)
    requires train.Physical() && InstantaneousDeceleration(v, mu, track, train) < mu * GRAVITY
    ensures InstantaneousDeceleration(v, mu, track, train.(brakeWeightPct := pct))
         == Min(InstantaneousDeceleration(v, mu, track, train)
                + mu * GRAVITY * track.cosTheta * ((pct - train.brakeWeightPct) / 100.0) / train.rotationalInertia,
                mu * GRAVITY)
  {
    BrakeForce(v, mu, track, train, pct);
    hide TotalForce, InstantaneousDeceleration, Newtons;
    ForceLaw(v, mu, track, train, track, train.(brakeWeightPct := pct),
             mu * GRAVITY * track.cosTheta * ((pct - train.brakeWeightPct) / 100.0));
  }

  lemma BrakeForce(v: real, mu: real, track: Track, train: Train, pct: real)
    requires train.Physical()
    ensures TotalForce(v, mu, track, train.(brakeWeightPct := pct)) - TotalForce(v, mu, track, train)
         == Newtons(train.massTonnes, mu * GRAVITY * track.cosTheta * ((pct - train.brakeWeightPct) / 100.0))
  {
    var other := train.(brakeWeightPct := pct);
    var vKmh := v * 3.6;
    assert DavisResistance(vKmh, other) == DavisResistance(vKmh, train);
    assert AerodynamicDrag(vKmh + track.headwindKmh, other) == AerodynamicDrag(vKmh + track.headwindKmh, train);
    hide DavisResistance, AerodynamicDrag, CurveResistance;
    var m, c, p, q := train.massTonnes * 1000.0, track.cosTheta, train.brakeWeightPct / 100.0, pct / 100.0;
    var k := mu * m * GRAVITY * c;
    assert k * q - k * p == k * (q - p);
    assert k * (q - p) == m * (mu * GRAVITY * c * (q - p)) by { Reassociate(mu, m, c, q - p); }
  }

  lemma Reassociate(mu: real, m: real, c: real, d: real)
    ensures mu * m * GRAVITY * c * d == m * (mu * GRAVITY * c * d)
  {
    var x := mu * GRAVITY;
    assert mu * m * GRAVITY == m * x;
    assert m * x * c == m * (x * c);
    assert m * (x * c) * d == m * (x * c * d);
  }

  /** The wind: drag grows with the square of the speed through the air. */
  lemma HeadwindLaw(v: real, mu: real, track: Track, train: Train, wind: real)
    requires train.Physical() && InstantaneousDeceleration(v, mu, track, train) < mu * GRAVITY
    ensures Inertia(train) != 0.0
    ensures InstantaneousDeceleration(v, mu, track.(headwindKmh := wind), train)
         == Min(InstantaneousDeceleration(v, mu, track, train)
                + 0.5 * RHO_AIR * train.dragCoeff * train.frontalAreaM2
                  * (Square(v + wind / 3.6) - Square(v + track.headwindKmh / 3.6)) / Inertia(train),
                mu * GRAVITY)
  {
    var other := track.(headwindKmh := wind);
    DecelerationIs(v, mu, track, train);
    DecelerationIs(v, mu, other, train);
    HeadwindForce(v, mu, track, train, wind);
    hide TotalForce, InstantaneousDeceleration;
    Capped(TotalForce(v, mu, track, train), TotalForce(v, mu, other, train), Inertia(train), mu * GRAVITY);
  }

  lemma HeadwindForce(v: real, mu: real, track: Track, train: Train, wind: real)
    requires train.Physical()
    ensures TotalForce(v, mu, track.(headwindKmh := wind), train) - TotalForce(v, mu, track, train)
         == 0.5 * RHO_AIR * train.dragCoeff * train.frontalAreaM2
            * (Square(v + wind / 3.6) - Square(v + track.headwindKmh / 3.6))
  {
    DragIs(v, wind, train);
    DragIs(v, track.headwindKmh, train);
    hide DavisResistance, AerodynamicDrag, CurveResistance, Square;
    var k := 0.5 * RHO_AIR * train.dragCoeff * train.frontalAreaM2;
    var a, b := Square(v + wind / 3.6), Square(v + track.headwindKmh / 3.6);
    assert k * a - k * b == k * (a - b);
  }

  lemma DragIs(v: real, wind: real, train: Train)
    ensures AerodynamicDrag(v * 3.6 + wind, train)
         == 0.5 * RHO_AIR * train.dragCoeff * train.frontalAreaM2 * Square(v + wind / 3.6)
  {
    var u := v + wind / 3.6;
    assert (v * 3.6 + wind) / 3.6 == u;
    var k := 0.5 * RHO_AIR * train.dragCoeff * train.frontalAreaM2;
    assert k * u * u == k * (u * u);
  }

  /** One over the radius; none where the track is straight. */
  function Curvature(radiusM: real): real {
    if radiusM > 0.0 then 1.0 / radiusM else 0.0
  }

  /** The curve: 700 N per tonne over the radius in metres. */
  lemma CurveLaw(v: real, mu: real, track: Track, train: Train, radius: real)
    requires train.Physical() && InstantaneousDeceleration(v, mu, track, train) < mu * GRAVITY
    ensures InstantaneousDeceleration(v, mu, track.(curveRadiusM := radius), train)
         == Min(InstantaneousDeceleration(v, mu, track, train)
                + 0.7 * (Curvature(radius) - Curvature(track.curveRadiusM)) / train.rotationalInertia, mu * GRAVITY)
  {
    CurveForce(v, mu, track, train, radius);
    hide TotalForce, InstantaneousDeceleration, Newtons, Curvature;
    ForceLaw(v, mu, track, train, track.(curveRadiusM := radius), train,
             0.7 * (Curvature(radius) - Curvature(track.curveRadiusM)));
  }

  lemma CurveForce(v: real, mu: real, track: Track, train: Train, radius: real)
    requires train.Physical()
    ensures TotalForce(v, mu, track.(curveRadiusM := radius), train) - TotalForce(v, mu, track, train)
         == Newtons(train.massTonnes, 0.7 * (Curvature(radius) - Curvature(track.curveRadiusM)))
  {
    ForceSum(v, mu, track, train);
    ForceSum(v, mu, track.(curveRadiusM := radius), train);
    RestSame(v, mu, track, train, radius);
    hide TotalForce, Rest, CurveResistance, Curvature, Newtons;
    CurveIs(radius);
    CurveIs(track.curveRadiusM);
    CurveDifference(train.massTonnes, Curvature(radius), Curvature(track.curveRadiusM));
  }

  lemma RestSame(v: real, mu: real, track: Track, train: Train, radius: real)
    requires train.Physical()
    ensures Rest(v, mu, track.(curveRadiusM := radius), train) == Rest(v, mu, track, train)
  {
    hide TotalForce;
    assert track.(curveRadiusM := radius).(sinTheta := 0.0, curveRadiusM := 0.0)
        == track.(sinTheta := 0.0, curveRadiusM := 0.0);
  }

  lemma CurveDifference(m: real, a: real, b: real)
    ensures 700.0 * a * m - 700.0 * b * m == Newtons(m, 0.7 * (a - b))
  {
    assert 700.0 * a * m == 700.0 * (a * m) && 700.0 * b * m == 700.0 * (b * m);
  }

  lemma CurveIs(radius: real)
    ensures CurveResistance(radius) == 700.0 * Curvature(radius)
  {
    if radius > 0.0 {
      var q := 1.0 / radius;
      assert q * radius == 1.0;
      assert (700.0 * q) * radius == 700.0;
      QuotientOf(700.0 * q, radius, 700.0);
    }
  }

  /** Newtons per tonne at V km/h: 1.5 + 0.0075 V + 0.00014 A l / m V^2 for a train of m tonnes and l metres. */
  function PerTonne(V: real, train: Train): real
    requires train.massTonnes != 0.0
  {
    1.5 + 0.0075 * V + 0.00014 * (train.frontalAreaM2 * Max(train.lengthM, 1.0) / train.massTonnes) * Square(V)
  }

  /**
   * Running resistance and gradient alone: without braked weight, drag and curve the train is slowed by what every
   * tonne resists, and by the gradient.
   */
  lemma RollingLaw(v: real, mu: real, track: Track, train: Train)
    requires train.Physical() && train.brakeWeightPct == 0.0 && train.dragCoeff == 0.0 && track.curveRadiusM <= 0.0
    ensures InstantaneousDeceleration(v, mu, track, train)
         == Min((PerTonne(v * 3.6, train) / 1000.0 + GRAVITY * track.sinTheta) / train.rotationalInertia, mu * GRAVITY)
  {
    var perTonne := PerTonne(v * 3.6, train);
    DecelerationIs(v, mu, track, train);
    DavisIs(v * 3.6, train);
    RollingForce(v, mu, track, train, perTonne);
    hide TotalForce, InstantaneousDeceleration, PerTonne, Newtons;
    PerKilogram(train, perTonne / 1000.0 + GRAVITY * track.sinTheta);
  }

  lemma RollingForce(v: real, mu: real, track: Track, train: Train, perTonne: real)
    requires train.Physical() && train.brakeWeightPct == 0.0 && train.dragCoeff == 0.0 && track.curveRadiusM <= 0.0
    requires DavisResistance(v * 3.6, train) == perTonne
    ensures TotalForce(v, mu, track, train) == Newtons(train.massTonnes, perTonne / 1000.0 + GRAVITY * track.sinTheta)
  {
    hide DavisResistance;
    var m := train.massTonnes;
    var x := mu * (m * 1000.0) * GRAVITY * track.cosTheta;
    assert x * (0.0 / 100.0) == 0.0;
    NoDrag(v * 3.6 + track.headwindKmh, train);
    hide AerodynamicDrag;
    RollingSum(m, perTonne, track.sinTheta);
  }

  lemma RollingSum(m: real, perTonne: real, sine: real)
    ensures m * 1000.0 * (perTonne / 1000.0 + GRAVITY * sine) == perTonne * m + m * 1000.0 * GRAVITY * sine
  {
    assert m * 1000.0 * (perTonne / 1000.0) == m * perTonne;
    assert m * 1000.0 * (GRAVITY * sine) == m * 1000.0 * GRAVITY * sine;
  }

  lemma NoDrag(u: real, train: Train)
    requires train.dragCoeff == 0.0
    ensures AerodynamicDrag(u, train) == 0.0
  {
    var w := u / 3.6;
    assert 0.5 * RHO_AIR * train.dragCoeff * train.frontalAreaM2 == 0.0;
  }

  lemma DavisIs(V: real, train: Train)
    requires train.Physical()
    ensures DavisResistance(V, train) == PerTonne(V, train)
  {
    var l, m, a := Max(train.lengthM, 1.0), train.massTonnes, train.frontalAreaM2;
    AreaPerMass(a, m, l);
    var c := 0.00014 * (a / (m / l));
    assert c * V * V == c * (V * V);
  }

  lemma AreaPerMass(a: real, m: real, l: real)
    requires m != 0.0 && l >= 1.0
    ensures m / l != 0.0 && a / (m / l) == a * l / m
  {
    var perM, q := m / l, a * l / m;
    assert perM * l == m && q * m == a * l;
    assert (q * perM) * l == q * (perM * l);
    SameFactor(q * perM, a, l);
    QuotientOf(q, perM, a);
  }

  lemma SameFactor(a: real, b: real, l: real)
    requires l != 0.0 && a * l == b * l
    ensures a == b
  {
    assert (a - b) * l == 0.0;
    if a != b {
      NonZeroProduct(a - b, l);
    }
  }

  // ---- The distance braking cannot exceed ----

  /** A train as built: with mass, and no force that is turned round. */
  predicate Sensible(train: Train) {
    && train.massTonnes > 0.0 && train.rotationalInertia > 0.0
    && train.brakeWeightPct >= 0.0 && train.dragCoeff >= 0.0 && train.frontalAreaM2 >= 0.0
  }

  /** What brakes and gradient alone give at adhesion mu, never more than the wheels can hold. */
  function AtLeast(mu: real, track: Track, train: Train): real
    requires train.rotationalInertia != 0.0
  {
    Min(mu * GRAVITY,
        (mu * GRAVITY * track.cosTheta * (train.brakeWeightPct / 100.0) + GRAVITY * track.sinTheta) / train.rotationalInertia)
  }

  lemma ResistancesHelp(v: real, mu: real, track: Track, train: Train)
    requires Sensible(train) && v >= 0.0
    ensures TotalForce(v, mu, track, train)
         >= Newtons(train.massTonnes, mu * GRAVITY * track.cosTheta * (train.brakeWeightPct / 100.0) + GRAVITY * track.sinTheta)
  {
    var m := train.massTonnes;
    DavisPositive(v * 3.6, train);
    DragPositive(v * 3.6 + track.headwindKmh, train);
    CurvePositive(track.curveRadiusM);
    hide DavisResistance, AerodynamicDrag, CurveResistance;
    ProductNonNegative(DavisResistance(v * 3.6, train), m);
    ProductNonNegative(CurveResistance(track.curveRadiusM), m);
    Reassociate(mu, m * 1000.0, track.cosTheta, train.brakeWeightPct / 100.0);
    var x, y := mu * GRAVITY * track.cosTheta * (train.brakeWeightPct / 100.0), GRAVITY * track.sinTheta;
    assert m * 1000.0 * (x + y) == m * 1000.0 * x + m * 1000.0 * y;
    assert m * 1000.0 * GRAVITY * track.sinTheta == m * 1000.0 * y;
  }

  lemma CurvePositive(radius: real)
    ensures CurveResistance(radius) >= 0.0
  {
    if radius > 0.0 {
      QuotientNonNegative(700.0, radius);
    }
  }

  lemma QuotientNonNegative(a: real, b: real)
    requires a >= 0.0 && b > 0.0
    ensures a / b >= 0.0
  {
    var q := a / b;
    assert q * b == a;
    if q < 0.0 {
      StrictProduct(-q, b);
    }
  }

  lemma DragPositive(u: real, train: Train)
    requires Sensible(train)
    ensures AerodynamicDrag(u, train) >= 0.0
  {
    var w := u / 3.6;
    var k := 0.5 * RHO_AIR * train.dragCoeff;
    SquareNonNegative(w);
    ProductNonNegative(k, train.frontalAreaM2);
    ProductNonNegative(k * train.frontalAreaM2, w * w);
    assert k * train.frontalAreaM2 * w * w == (k * train.frontalAreaM2) * (w * w);
  }

  lemma DavisPositive(V: real, train: Train)
    requires Sensible(train) && V >= 0.0
    ensures DavisResistance(V, train) >= 0.0
  {
    DavisIs(V, train);
    hide DavisResistance;
    var l := Max(train.lengthM, 1.0);
    ProductNonNegative(train.frontalAreaM2, l);
    QuotientNonNegative(train.frontalAreaM2 * l, train.massTonnes);
    SquareNonNegative(V);
    ProductNonNegative(0.00014 * (train.frontalAreaM2 * l / train.massTonnes), Square(V));
  }

  lemma QuotientMonotone(a: real, b: real, m: real)
    requires a <= b && m > 0.0
    ensures a / m <= b / m
  {
    QuotientDifference(a, b, m);
    QuotientNonNegative(b - a, m);
  }

  lemma DecelerationAtLeast(v: real, mu: real, track: Track, train: Train)
    requires Sensible(train) && v >= 0.0
    ensures InstantaneousDeceleration(v, mu, track, train) >= AtLeast(mu, track, train)
  {
    DecelerationIs(v, mu, track, train);
    ResistancesHelp(v, mu, track, train);
    var perKg := mu * GRAVITY * track.cosTheta * (train.brakeWeightPct / 100.0) + GRAVITY * track.sinTheta;
    PerKilogram(train, perKg);
    StrictProduct(train.massTonnes * 1000.0, train.rotationalInertia);
    hide TotalForce, InstantaneousDeceleration, Newtons;
    QuotientMonotone(Newtons(train.massTonnes, perKg), TotalForce(v, mu, track, train), Inertia(train));
  }

  lemma AtLeastMonotone(mu: real, nu: real, track: Track, train: Train)
    requires Sensible(train) && track.cosTheta >= 0.0 && mu <= nu
    ensures AtLeast(mu, track, train) <= AtLeast(nu, track, train)
  {
    var c, p := track.cosTheta, train.brakeWeightPct / 100.0;
    ProductMonotone(mu * GRAVITY, nu * GRAVITY, c);
    ProductMonotone(mu * GRAVITY * c, nu * GRAVITY * c, p);
    QuotientMonotone(mu * GRAVITY * c * p + GRAVITY * track.sinTheta, nu * GRAVITY * c * p + GRAVITY * track.sinTheta,
                     train.rotationalInertia);
  }

  /** Faded to one half at worst, and never weakened by the low-speed recovery. */
  lemma HalfIsLeft(mu: real, v: real, fade: real)
    requires mu >= 0.0 && v >= 0.0 && fade >= 0.5
    ensures EffectiveMu(mu, v, fade) >= 0.5 * mu
  {
    var p := Times(mu, fade);
    TimesMonotone(0.5, fade, mu);
    assert p >= 0.5 * mu;
    if v < 5.0 {
      assert LowSpeedRecovery(v) >= 1.0;
      TimesMonotone(1.0, LowSpeedRecovery(v), p);
      TimesOne(p);
    }
  }

  /** Below 5 m/s the adhesion recovers in proportion to the speed lost, by five percent at a standstill. */
  lemma LowSpeedAdhesion(mu: real, v: real, fade: real)
    ensures v >= 5.0 ==> EffectiveMu(mu, v, fade) == mu * fade
    ensures v < 5.0 ==> EffectiveMu(mu, v, fade) - mu * fade == mu * fade * (5.0 - v) / 100.0
  {
    var p := mu * fade;
    assert v < 5.0 ==> p * (1.0 + 0.05 * (5.0 - v) / 5.0) == p + p * (5.0 - v) / 100.0;
  }

  /** While the pipe fills the brakes come on in proportion to the time, from nothing to all. */
  lemma RampIsLinear(t: real, total: real)
    ensures Ramp(t, total) * Max(total, 0.1) == t
  {
  }

  /** The deceleration the brakes guarantee throughout, however hot they get. */
  function Guaranteed(mu: real, track: Track, train: Train): real
    requires train.rotationalInertia != 0.0
  {
    AtLeast(0.5 * mu, track, train)
  }

  lemma EveryStepBrakes(s: Setting, v: real, t: real)
    requires Sensible(s.train) && s.track.cosTheta >= 0.0 && s.mu >= 0.0 && v >= 0.0
    ensures BrakingDeceleration(s, v, t) >= Guaranteed(s.mu, s.track, s.train)
  {
    hide InstantaneousDeceleration, EffectiveMu, BrakeFade, AtLeast;
    var fade := BrakeFade(v * 3.6, t, s.ambientC, s.exp);
    HalfIsLeft(s.mu, v, fade);
    DecelerationAtLeast(v, EffectiveMu(s.mu, v, fade), s.track, s.train);
    AtLeastMonotone(0.5 * s.mu, EffectiveMu(s.mu, v, fade), s.track, s.train);
  }

  /** The textbook distance to a standstill at constant deceleration. */
  function Textbook(v: real, least: real): real
    requires least > 0.0
  {
    v * v / (2.0 * least)
  }

  /** One Euler step covers no more than constant deceleration would. */
  lemma StepWithin(v: real, a: real, least: real)
    requires v >= 0.0 && least > 0.0 && a >= least
    ensures var w := NextSpeed(v, a);
            && w <= v && w * DT <= Textbook(v, least) - Textbook(w, least)
            && (w > 0.0 ==> v - w >= least * DT)
  {
    var w := NextSpeed(v, a);
    assert w > 0.0 ==> v - w >= least * DT;
    assert w <= v;
    if w > 0.0 {
      ProductMonotone(least * DT, v - w, v + w);
      ProductMonotone(2.0 * w, v + w, least * DT);
      assert (v - w) * (v + w) == v * v - w * w;
    } else {
      SquareNonNegative(v);
    }
    HalfQuotient(w * DT, v * v - w * w, least);
    QuotientDifference(w * w, v * v, 2.0 * least);
  }

  lemma HalfQuotient(d: real, e: real, least: real)
    requires least > 0.0 && d * (2.0 * least) <= e
    ensures d <= e / (2.0 * least)
  {
    var m, q := 2.0 * least, e / (2.0 * least);
    assert q * m == e;
    if d > q {
      StrictProduct(d - q, m);
    }
  }

  /** The braking phase within the textbook distance and time of the guaranteed deceleration. */
  lemma {:induction false} BrakeWithin(s: Setting, v: real, n: nat, least: real)
    requires Sensible(s.train) && s.track.cosTheta >= 0.0 && s.mu >= 0.0 && v >= 0.0 && n <= MAX_STEPS
    requires 0.0 < least <= Guaranteed(s.mu, s.track, s.train)
    ensures var r := Brake(s, v, n);
            && 0.0 <= r.v <= v && r.distance <= Textbook(v, least) - Textbook(r.v, least)
            && Times(r.t - Clock(n + 1), least) <= v
    decreases MAX_STEPS - n
  {
    hide BrakingDeceleration, NextSpeed, Guaranteed, Textbook, Times;
    if v > 0.01 && n as real * DT <= 300.0 {
      var a := BrakingDeceleration(s, v, n as real * DT);
      var w := NextSpeed(v, a);
      EveryStepBrakes(s, v, n as real * DT);
      StepWithin(v, a, least);
      BrakeWithin(s, w, n + 1, least);
      var rest := Brake(s, w, n + 1);
      if w == 0.0 {
        assert rest == Run(0.0, 0.0, Clock(n + 1), 0.0);
        TimesOne(least);
      } else {
        TimeStep(rest.t, Clock(n + 1), v, w, least);
      }
    } else {
      TimeNegative(least);
    }
  }

  /** Time at the beginning of a step. */
  function Clock(n: nat): real {
    n as real * DT
  }

  lemma TimeStep(t: real, clock: real, v: real, w: real, least: real)
    requires Times(t - (clock + DT), least) <= w && v - w >= least * DT
    ensures Times(t - clock, least) <= v
  {
    assert (t - clock) * least == (t - (clock + DT)) * least + DT * least;
  }

  lemma TimeNegative(least: real)
    requires least > 0.0
    ensures Times(-DT, least) <= 0.0
  {
    ProductNonNegative(DT, least);
  }

  /** The peak is no less than the mean: the speed lost is at most the peak deceleration times the braking time. */
  lemma {:induction false} PeakCoversMean(s: Setting, v: real, n: nat)
    requires s.train.Physical() && v >= 0.0 && n <= MAX_STEPS
    ensures var r := Brake(s, v, n); v - r.v <= Times(r.peak, r.t - Clock(n)) && r.peak >= 0.0 && r.t >= Clock(n)
    decreases MAX_STEPS - n
  {
    hide BrakingDeceleration, Times;
    if v > 0.01 && n as real * DT <= 300.0 {
      var a := BrakingDeceleration(s, v, n as real * DT);
      var w := NextSpeed(v, a);
      PeakCoversMean(s, w, n + 1);
      var r, rest := Brake(s, v, n), Brake(s, w, n + 1);
      TimesMonotone(rest.peak, r.peak, rest.t - Clock(n + 1));
      assert v - w <= r.peak * DT;
      PeakStep(r.peak, rest.t, Clock(n));
    } else {
      TimesOne(0.0);
    }
  }

  lemma PeakStep(peak: real, t: real, clock: real)
    ensures Times(peak, t - clock) == Times(peak, t - (clock + DT)) + peak * DT
  {
  }

  /** What a downhill gradient adds to the speed in a second, before the brakes bite. */
  function DownhillGain(track: Track, train: Train): real
    requires train.rotationalInertia != 0.0
  {
    Max(0.0, -(GRAVITY * track.sinTheta)) / train.rotationalInertia
  }

  lemma RampHolds(s: Setting, v: real, t: real)
    requires Sensible(s.train) && s.track.cosTheta >= 0.0 && s.mu >= 0.0 && v >= 0.0 && t >= 0.0
    ensures DownhillGain(s.track, s.train) >= 0.0
    ensures NextSpeed(v, RampedDeceleration(s, v, t)) <= v + DownhillGain(s.track, s.train) * DT
  {
    hide InstantaneousDeceleration;
    var ramp := Ramp(t, s.train.propagationTimeS);
    QuotientNonNegative(t, Max(s.train.propagationTimeS, 0.1));
    var mu := Times(s.mu, ramp);
    ProductNonNegative(s.mu, ramp);
    hide Times, Ramp;
    DecelerationAtLeast(v, mu, s.track, s.train);
    AtLeastMonotone(0.0, mu, s.track, s.train);
    CoastingAtLeast(s.track, s.train);
    hide AtLeast, DownhillGain;
    assert InstantaneousDeceleration(v, mu, s.track, s.train) >= -DownhillGain(s.track, s.train);
  }

  lemma CoastingAtLeast(track: Track, train: Train)
    requires Sensible(train)
    ensures DownhillGain(track, train) >= 0.0 && AtLeast(0.0, track, train) >= -DownhillGain(track, train)
  {
    var l, g := train.rotationalInertia, GRAVITY * track.sinTheta;
    QuotientNonNegative(Max(0.0, -g), l);
    QuotientMonotone(-Max(0.0, -g), g, l);
    NegatedQuotient(Max(0.0, -g), l);
    assert 0.0 * GRAVITY * track.cosTheta * (train.brakeWeightPct / 100.0) == 0.0;
  }

  lemma NegatedQuotient(a: real, b: real)
    requires b != 0.0
    ensures -a / b == -(a / b)
  {
    var q := a / b;
    assert q * b == a;
    QuotientOf(-q, b, -a);
  }

  /** The time left for the brake pipe to fill, counted to the end of the last step. */
  function PipeTime(train: Train, t: real): real {
    Max(0.0, train.propagationTimeS + DT - t)
  }

  lemma {:induction false} PropagateWithin(s: Setting, v: real, t: real)
    requires Sensible(s.train) && s.track.cosTheta >= 0.0 && s.mu >= 0.0 && v >= 0.0 && t >= 0.0
    ensures var r, left := Propagate(s, v, t), PipeTime(s.train, t);
            var top := v + DownhillGain(s.track, s.train) * left;
            0.0 <= r.v <= top && r.distance <= top * left
    decreases (s.train.propagationTimeS - t) * 10.0
  {
    hide RampedDeceleration, NextSpeed, DownhillGain;
    var left, gain := PipeTime(s.train, t), DownhillGain(s.track, s.train);
    RampHolds(s, v, t);
    ProductNonNegative(gain, left);
    ProductNonNegative(v + gain * left, left);
    if t < s.train.propagationTimeS && v > 0.0 {
      var w := NextSpeed(v, RampedDeceleration(s, v, t));
      PropagateWithin(s, w, t + DT);
      PipeStep(v, w, gain, left, Propagate(s, w, t + DT).distance);
    }
  }

  /** The bound carries over from the rest of the filling time to one more step. */
  lemma PipeStep(v: real, w: real, gain: real, left: real, distance: real)
    requires gain >= 0.0 && left >= DT && 0.0 <= w <= v + gain * DT
    requires distance <= (w + gain * (left - DT)) * (left - DT)
    ensures w + gain * (left - DT) <= v + gain * left
    ensures w * DT + distance <= (v + gain * left) * left
  {
    var rest := left - DT;
    assert gain * left == gain * rest + gain * DT;
    ProductNonNegative(gain, rest);
    var top, next := v + gain * left, w + gain * rest;
    ProductMonotone(next, top, rest);
    assert top * left == top * rest + top * DT;
  }

  /**
   * Where half the adhesion still slows the train by some `least` > 0, the computed distance is at most the reaction
   * distance, the pipe's filling time at the highest speed a downhill gradient can give it, and v^2 / (2 least) from
   * there; and the train stands within five minutes if that speed is below 300 least.
   */
  lemma StoppingDistanceCeiling(speedKmh: real, s: Setting)
    requires Sensible(s.train) && s.track.cosTheta >= 0.0 && s.mu >= 0.0 && speedKmh > 0.0
    requires Guaranteed(s.mu, s.track, s.train) > 0.0
    ensures var r, v0, least := StoppingRun(speedKmh, s), speedKmh / 3.6, Guaranteed(s.mu, s.track, s.train);
            var pipe := PipeTime(s.train, 0.0);
            var top := v0 + DownhillGain(s.track, s.train) * pipe;
            && r.totalM == r.reactionM + r.propagationM + r.brakingM
            && r.reactionM == v0 * s.train.reactionTimeS
            && r.propagationM <= top * pipe
            && r.brakingM <= Textbook(top, least)
            && Times(r.totalTimeS - s.train.reactionTimeS - s.train.propagationTimeS - DT, least) <= top
            && (top < 300.0 * least ==> FinalSpeed(speedKmh, s) <= 0.01)
  {
    hide Propagate, Brake, BrakeFade, Guaranteed, DownhillGain, Textbook, Times;
    var v0, least := speedKmh / 3.6, Guaranteed(s.mu, s.track, s.train);
    var top := v0 + DownhillGain(s.track, s.train) * PipeTime(s.train, 0.0);
    PropagateWithin(s, v0, 0.0);
    BrakingCeiling(s, Propagate(s, v0, 0.0).v, top, least);
  }

  /** The braking phase from any speed up to `top`. */
  lemma BrakingCeiling(s: Setting, v: real, top: real, least: real)
    requires Sensible(s.train) && s.track.cosTheta >= 0.0 && s.mu >= 0.0 && 0.0 <= v <= top
    requires 0.0 < least <= Guaranteed(s.mu, s.track, s.train)
    ensures var b := Brake(s, v, 0);
            && b.distance <= Textbook(top, least)
            && Times(b.t - DT, least) <= top
            && (top < 300.0 * least ==> b.v <= 0.01)
  {
    hide Brake, Guaranteed, Textbook, Times;
    BrakeWithin(s, v, 0, least);
    BrakeEnds(s, v, 0);
    TextbookGrows(v, top, least);
    var b := Brake(s, v, 0);
    TextbookGrows(0.0, b.v, least);
    TextbookAtRest(least);
    if b.v > 0.01 {
      ThreeHundred(b.t - DT, least);
    }
  }

  lemma TextbookGrows(v: real, w: real, least: real)
    requires 0.0 <= v <= w && least > 0.0
    ensures Textbook(v, least) <= Textbook(w, least)
  {
    SquareGrows(v, w);
    QuotientMonotone(v * v, w * w, 2.0 * least);
  }

  lemma TextbookAtRest(least: real)
    requires least > 0.0
    ensures Textbook(0.0, least) == 0.0
  {
  }

  lemma ThreeHundred(t: real, least: real)
    requires t == 300.0
    ensures Times(t, least) == 300.0 * least
  {
  }

  lemma SquareGrows(a: real, b: real)
    requires 0.0 <= a <= b
    ensures a * a <= b * b
  {
    ProductMonotone(a, b, a);
    ProductMonotone(a, b, b);
  }

  /** The sufficient condition: half the braked adhesion outweighs the slope. */
  lemma GuaranteedWhen(mu: real, track: Track, train: Train)
    requires train.rotationalInertia > 0.0
    ensures Guaranteed(mu, track, train) > 0.0
       <==> mu > 0.0 && 0.5 * mu * track.cosTheta * (train.brakeWeightPct / 100.0) > -track.sinTheta
  {
    var l, x := train.rotationalInertia, 0.5 * mu * track.cosTheta * (train.brakeWeightPct / 100.0);
    var perKg := 0.5 * mu * GRAVITY * track.cosTheta * (train.brakeWeightPct / 100.0) + GRAVITY * track.sinTheta;
    assert perKg == GRAVITY * (x + track.sinTheta) by { GravityOut(mu, track.cosTheta, train.brakeWeightPct / 100.0, track.sinTheta); }
    var q := perKg / l;
    assert q * l == perKg;
    if q > 0.0 {
      StrictProduct(q, l);
    } else {
      ProductNonNegative(-q, l);
    }
  }

  lemma GravityOut(mu: real, c: real, p: real, sine: real)
    ensures 0.5 * mu * GRAVITY * c * p + GRAVITY * sine == GRAVITY * (0.5 * mu * c * p + sine)
  {
    var h := 0.5 * mu;
    assert h * GRAVITY * c == GRAVITY * (h * c);
    assert GRAVITY * (h * c) * p == GRAVITY * (h * c * p);
  }

  /** The certified distance: 9.3 s at full speed, then constant deceleration at adhesion 0.08 on 70 % of the weight. */
  lemma CertifiedIsTextbook(speedKmh: real)
    ensures CertifiedDistance(speedKmh)
         == 9.3 * (speedKmh / 3.6) + Textbook(speedKmh / 3.6, 0.08 * GRAVITY * 0.7 / 1.04)
  {
    var v := speedKmh / 3.6;
    var square := v * v;
    assert v * v * 1.04 / (2.0 * 0.08 * GRAVITY * (70.0 / 100.0)) == square / (2.0 * (0.08 * GRAVITY * 0.7 / 1.04));
  }

  // ---- Adhesion and fade ----

  /** `math.exp` below zero: between zero and one, and growing. */
  ghost predicate IsDecay(exp: real -> real) {
    && (forall x: real :: x <= 0.0 ==> 0.0 < exp(x) <= 1.0)
    && (forall x: real, y: real :: x <= y ==> exp(x) <= exp(y))
  }

  lemma ExpOrder(exp: real -> real, x: real, y: real)
    requires IsDecay(exp) && 0.0 <= x <= y
    ensures 0.0 <= 1.0 - exp(-x) <= 1.0 - exp(-y) <= 1.0
  {
    assert exp(-y) <= exp(-x);
  }

  /** From dry rail to leaf film every state has less adhesion than the one before, at any speed. */
  lemma WorseRail(vibration: real, humidityPct: real, leaf: bool, slip: real,
                  worseVibration: real, worseHumidityPct: real, worseLeaf: bool, worseSlip: real)
    requires vibration <= worseVibration && humidityPct <= worseHumidityPct && (leaf ==> worseLeaf)
    requires 0.0 <= slip <= worseSlip <= 1.0
    ensures 0.0 <= RailAdhesion(worseVibration, worseHumidityPct, worseLeaf, worseSlip)
              <= RailAdhesion(vibration, humidityPct, leaf, slip)
  {
  }

  /** More vibration, more humidity, more leaves or more speed never give more adhesion. */
  lemma AdhesionFalls(speedKmh: real, vibration: real, humidityPct: real, leaf: bool,
                      worseSpeedKmh: real, worseVibration: real, worseHumidityPct: real, worseLeaf: bool, exp: real -> real)
    requires IsDecay(exp) && speedKmh <= worseSpeedKmh && vibration <= worseVibration
    requires humidityPct <= worseHumidityPct && (leaf ==> worseLeaf)
    ensures PolachAdhesion(worseSpeedKmh, worseVibration, worseHumidityPct, worseLeaf, exp)
         <= PolachAdhesion(speedKmh, vibration, humidityPct, leaf, exp)
  {
    hide IsDecay, RailAdhesion, Times;
    var x, y := Max(speedKmh / 3.6, 0.1) / 25.0, Max(worseSpeedKmh / 3.6, 0.1) / 25.0;
    ExpOrder(exp, x, y);
    var slip, worseSlip := 1.0 - exp(-x), 1.0 - exp(-y);
    assert -x == -Max(speedKmh / 3.6, 0.1) / 25.0 && -y == -Max(worseSpeedKmh / 3.6, 0.1) / 25.0;
    WorseRail(vibration, humidityPct, leaf, slip, worseVibration, worseHumidityPct, worseLeaf, worseSlip);
    var a, b := RailAdhesion(vibration, humidityPct, leaf, slip),
                RailAdhesion(worseVibration, worseHumidityPct, worseLeaf, worseSlip);
    TimesMonotone(b, a, VibrationPenalty(worseVibration));
    TimesMonotone(VibrationPenalty(worseVibration), VibrationPenalty(vibration), a);
  }

  /** Brakes fade more the faster, the longer and the hotter, and not at all before they are applied. */
  lemma FadeGrows(speedKmh: real, durationS: real, ambientC: real,
                  worseSpeedKmh: real, worseDurationS: real, worseAmbientC: real, exp: real -> real)
    requires IsDecay(exp) && 0.0 <= speedKmh <= worseSpeedKmh && durationS <= worseDurationS && ambientC <= worseAmbientC
    ensures BrakeFade(worseSpeedKmh, worseDurationS, worseAmbientC, exp) <= BrakeFade(speedKmh, durationS, ambientC, exp)
    ensures BrakeFade(speedKmh, 0.0, ambientC, exp) == 1.0
  {
    hide IsDecay, Times, Square;
    if durationS > 0.0 {
      var u, v := speedKmh / 3.6, worseSpeedKmh / 3.6;
      SquareOrder(u, v);
      TimesMonotone(Square(u), Square(v), durationS);
      TimesMonotone(durationS, worseDurationS, Square(v));
      TimesMonotone(0.0, durationS, Square(u));
      TimesOne(Square(u));
      var x, y := Times(Square(u), durationS) / 50000.0, Times(Square(v), worseDurationS) / 50000.0;
      ExpOrder(exp, x, y);
      assert -x == -Times(Square(u), durationS) / 50000.0 && -y == -Times(Square(v), worseDurationS) / 50000.0;
      var p, q := 1.0 + Max(0.0, ambientC - 30.0) * 0.005, 1.0 + Max(0.0, worseAmbientC - 30.0) * 0.005;
      TimesMonotone(p, q, 1.0 - exp(-x));
      TimesMonotone(1.0 - exp(-x), 1.0 - exp(-y), q);
    }
  }

  lemma SquareOrder(a: real, b: real)
    requires 0.0 <= a <= b
    ensures 0.0 <= Square(a) <= Square(b)
  {
    SquareGrows(a, b);
    SquareNonNegative(a);
  }
}
