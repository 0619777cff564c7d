/**
 * The type factory: a registry from (rewritten) keyword to a construction
 * rule, and the rules themselves. Each rule turns one table row and the
 * current magnetic rigidity brho (T m) into zero, one or two components.
 */
module TypeFactory {
  import opened Wrappers
  import opened MadTable
  import opened Components
  import PC = PhysicalConstants

  /** Multipole coefficient columns, normal and skew, by order 0..4. */
  const NormalNames: seq<string> := ["K0L", "K1L", "K2L", "K3L", "K4L"]
  const SkewNames: seq<string> := ["KSL", "K1S", "K2S", "K3S", "K4S"]

  /** The normal coefficient columns of orders 0..n-1 are present. */
  predicate NormalsUpTo(r: Row, n: nat)
    requires n <= 5
  {
    forall j :: 0 <= j < n ==> HasCol(r, NormalNames[j])
  }

  // ---------------------------------------------------------------- factorial

  /** n!, over the reals the library computes it in. */
  function Fact(n: nat): (f: real)
    ensures f >= 1.0
  {
    if n == 0 then 1.0
    else
      var g := Fact(n - 1);
      assert n as real * g >= g;
      n as real * g
  }

  /** (m+1) * (m+2) * ... * n: the product the loop has built when its counter is at m. */
  function Falling(n: nat, m: nat): real
    decreases n - m
  {
    if m >= n then 1.0 else Falling(n, m + 1) * (m + 1) as real
  }

  lemma FactUnfold(m: nat)
    ensures Fact(m + 1) == (m + 1) as real * Fact(m)
  {
  }

  lemma FallingUnfold(n: nat, m: nat)
    requires m < n
    ensures Falling(n, m) == Falling(n, m + 1) * (m + 1) as real
  {
  }

  lemma Associate(a: real, k: real, g: real)
    ensures (a * k) * g == a * (k * g)
  {
  }

  /** Completing the loop's product with m! gives n!. */
  lemma {:induction false} FallingTimesFact(n: nat, m: nat)
    requires m <= n
    decreases n - m
    ensures Falling(n, m) * Fact(m) == Fact(n)
  {
    if m < n {
      FallingTimesFact(n, m + 1);
      FactUnfold(m);
      FallingUnfold(n, m);
      Associate(Falling(n, m + 1), (m + 1) as real, Fact(m));
    } else {
      assert Falling(n, m) == 1.0;
    }
  }

  /**
   * The library's factorial over doubles: n! for n >= 0 (0! = 1 through the
   * final zero test), and n itself for a negative n.
   */
  method Factorial(n: int) returns (f: real)
    ensures n >= 0 ==> f == Fact(n)
    ensures n < 0 ==> f == n as real
  {
    f := n as real;
    var m := n - 1;
    while m > 1
      invariant n >= 2 ==> 1 <= m < n && f == Falling(n, m)
      invariant n < 2 ==> m == n - 1 && f == n as real
    {
      f := f * m as real;
      m := m - 1;
    }
    if n >= 1 {
      FallingTimesFact(n, 0);
    }
    if f == 0.0 {
      f := 1.0;
    }
  }

  // ---------------------------------------------------------------- rules

  /** A drift of length L, or nothing when L is zero. */
  function DriftInstance(r: Row): (cs: Outcome<seq<Component>>)
    ensures cs.Ok? <==> HasCol(r, "L")
    ensures cs.Ok? ==> SumLengths(cs.value) == r.values["L"]
    ensures cs.Ok? ==> (cs.value == [] <==> r.values["L"] == 0.0)
    ensures cs.Ok? ==> forall c :: c in cs.value ==> c.Drift? && c.name == r.name
  {
    var length :- GetD(r, "L");
    if length != 0.0 then Ok([Drift(r.name, length)]) else Ok([])
  }

  function PoleFaceOf(e: real): Option<PoleFace> {
    if e != 0.0 then Some(PoleFace(e)) else None
  }

  /**
   * A sector bend of curvature h = ANGLE/L and dipole field brho*h, with a
   * quadrupole term from K1L when it is non-zero and pole faces for the
   * non-zero ones of E1, E2; the tilt is always applied.
   */
  function RBendInstance(r: Row, brho: real): (cs: Outcome<seq<Component>>)
    ensures cs.Ok? <==> (HasCol(r, "L") && HasCol(r, "ANGLE") && HasCol(r, "K1L") && HasCol(r, "TILT") && HasCol(r, "E1") && HasCol(r, "E2")) && r.values["L"] != 0.0
    ensures cs.Ok? ==> |cs.value| == 1 && cs.value[0].SectorBend? && cs.value[0].b2.None?
    ensures cs.Ok? ==> BendFieldsMatch(cs.value[0], r, brho)
    ensures cs.Ok? ==> cs.value[0].tilt == r.values["TILT"]
  {
    var length :- GetD(r, "L");
    var angle :- GetD(r, "ANGLE");
    var k1l :- GetD(r, "K1L");
    var tilt :- GetD(r, "TILT");
    var e1 :- GetD(r, "E1");
    var e2 :- GetD(r, "E2");
    if length == 0.0 then Err(NonFiniteField(r.name))
    else
      Ok([Bend(r.name, length, angle, k1l, None, e1, e2, tilt, brho)])
  }

  /**
   * As RBendInstance, plus a sextupole term brho*K2L/L/2 when K2L is
   * non-zero; the tilt is set only when TILT is non-zero.
   */
  function SBendInstance(r: Row, brho: real): (cs: Outcome<seq<Component>>)
    ensures cs.Ok? <==> (HasCol(r, "L") && HasCol(r, "ANGLE") && HasCol(r, "K1L") && HasCol(r, "K2L") && HasCol(r, "TILT") && HasCol(r, "E1") && HasCol(r, "E2")) && r.values["L"] != 0.0
    ensures cs.Ok? ==> |cs.value| == 1 && cs.value[0].SectorBend?
    ensures cs.Ok? ==> BendFieldsMatch(cs.value[0], r, brho)
    ensures cs.Ok? ==> (cs.value[0].b2.Some? <==> r.values["K2L"] != 0.0)
    ensures cs.Ok? && cs.value[0].b2.Some? ==>
              cs.value[0].b2.value * 2.0 * r.values["L"] == brho * r.values["K2L"]
    ensures cs.Ok? ==> cs.value[0].tilt == r.values["TILT"]
  {
    var length :- GetD(r, "L");
    var angle :- GetD(r, "ANGLE");
    var k1l :- GetD(r, "K1L");
    var k2l :- GetD(r, "K2L");
    var tilt :- GetD(r, "TILT");
    var e1 :- GetD(r, "E1");
    var e2 :- GetD(r, "E2");
    if length == 0.0 then Err(NonFiniteField(r.name))
    else
      // The tilt is set only when non-zero; an unset tilt is 0, so the bend carries TILT either way.
      Ok([Bend(r.name, length, angle, k1l, SextupoleTerm(length, k2l, brho), e1, e2, tilt, brho)])
  }

  /**
   * The sector bend both bend rules build: curvature ANGLE/L, dipole field
   * brho times that, a quadrupole term brho*K1L/L when K1L is non-zero, the
   * given sextupole term, and pole faces for the non-zero ones of E1, E2.
   */
  function Bend(name: string, length: real, angle: real, k1l: real, b2: Option<real>,
                e1: real, e2: real, tilt: real, brho: real): (b: Component)
    requires length != 0.0
    ensures b.SectorBend? && b.name == name && b.length == length && b.b2 == b2 && b.tilt == tilt
    ensures b.h * length == angle && b.b0 * length == brho * angle
    ensures brho != 0.0 ==> b.b0 * length / brho == angle
    ensures (b.b1.Some? <==> k1l != 0.0) && (b.b1.Some? ==> b.b1.value * length == brho * k1l)
    ensures b.entrance == PoleFaceOf(e1) && b.exit == PoleFaceOf(e2)
  {
    var h := angle / length;
    BendArithmetic(length, angle, k1l, brho);
    SectorBend(name, length, h, brho * h, if k1l != 0.0 then Some(brho * k1l / length) else None, b2,
               PoleFaceOf(e1), PoleFaceOf(e2), tilt)
  }

  /**
   * What both bend rules promise: the bend keeps the row's name and length,
   * bends by ANGLE (h*L == ANGLE, and B0*L/brho == ANGLE when brho is not
   * zero), carries a quadrupole term exactly when K1L is non-zero with
   * B1*L == brho*K1L, and a pole face exactly where E1 or E2 is non-zero.
   */
  ghost predicate BendFieldsMatch(b: Component, r: Row, brho: real)
    requires b.SectorBend?
  {
    && (HasCol(r, "L") && HasCol(r, "ANGLE") && HasCol(r, "K1L") && HasCol(r, "E1") && HasCol(r, "E2"))
    && b.name == r.name && b.length == r.values["L"]
    && b.h * b.length == r.values["ANGLE"]
    && b.b0 * b.length == brho * r.values["ANGLE"]
    && (brho != 0.0 ==> b.b0 * b.length / brho == r.values["ANGLE"])
    && (b.b1.Some? <==> r.values["K1L"] != 0.0)
    && (b.b1.Some? ==> b.b1.value * b.length == brho * r.values["K1L"])
    && b.entrance == PoleFaceOf(r.values["E1"])
    && b.exit == PoleFaceOf(r.values["E2"])
  }

  /** The bend's curvature, dipole and quadrupole terms scale back by L to ANGLE and K1L. */
  lemma BendArithmetic(length: real, angle: real, k1l: real, brho: real)
    requires length != 0.0
    ensures (angle / length) * length == angle
    ensures brho * (angle / length) * length == brho * angle
    ensures brho != 0.0 ==> brho * (angle / length) * length / brho == angle
    ensures brho * k1l / length * length == brho * k1l
  {
    assert brho * (angle / length) * length == brho * ((angle / length) * length);
  }

  /** The sextupole term brho*K2L/L/2, present when K2L is non-zero. */
  function SextupoleTerm(length: real, k2l: real, brho: real): (b2: Option<real>)
    requires length != 0.0
    ensures b2.Some? <==> k2l != 0.0
    ensures b2.Some? ==> b2.value * 2.0 * length == brho * k2l
  {
    SextupoleArithmetic(length, k2l, brho);
    if k2l != 0.0 then Some(brho * k2l / length / 2.0) else None
  }

  /** The sextupole term scales back by 2L to brho*K2L. */
  lemma SextupoleArithmetic(length: real, k2l: real, brho: real)
    requires length != 0.0
    ensures brho * k2l / length / 2.0 * 2.0 * length == brho * k2l
  {
    var q := brho * k2l / length;
    assert q * length == brho * k2l;
    assert q / 2.0 * 2.0 == q;
  }

  /** The thick single-order magnets and the coefficient column each reads. */
  datatype ThickKind = Quad | SkewQuad | Sext | SkewSext | Oct

  function CoefficientColumn(k: ThickKind): string {
    match k
    case Quad => "K1L"
    case SkewQuad => "K1L"
    case Sext => "K2L"
    case SkewSext => "K2L"
    case Oct => "K3L"
  }

  function MakeThick(k: ThickKind, name: string, length: real, strength: real): Component {
    match k
    case Quad => Quadrupole(name, length, strength)
    case SkewQuad => SkewQuadrupole(name, length, strength)
    case Sext => Sextupole(name, length, strength)
    case SkewSext => SkewSextupole(name, length, strength)
    case Oct => Octupole(name, length, strength)
  }

  /** A magnet of length L whose field is brho * (its coefficient column) / L. */
  function ThickInstance(k: ThickKind, r: Row, brho: real): (cs: Outcome<seq<Component>>)
    ensures cs.Ok? <==> (HasCol(r, "L") && HasCol(r, CoefficientColumn(k))) && r.values["L"] != 0.0
    ensures cs.Ok? ==> |cs.value| == 1 && cs.value[0].name == r.name
    ensures cs.Ok? ==> Length(cs.value[0]) == r.values["L"]
    ensures cs.Ok? ==> exists s :: cs.value[0] == MakeThick(k, r.name, r.values["L"], s)
                                 && s * r.values["L"] == brho * r.values[CoefficientColumn(k)]
  {
    var length :- GetD(r, "L");
    var kl :- GetD(r, CoefficientColumn(k));
    if length == 0.0 then Err(NonFiniteField(r.name))
    else Ok([MakeThick(k, r.name, length, brho * kl / length)])
  }

  /** A solenoid of length L and field brho*KS/L. */
  function SolenoidInstance(r: Row, brho: real): (cs: Outcome<seq<Component>>)
    ensures cs.Ok? <==> (HasCol(r, "L") && HasCol(r, "KS")) && r.values["L"] != 0.0
    ensures cs.Ok? ==> |cs.value| == 1 && cs.value[0].Solenoid? && cs.value[0].name == r.name
    ensures cs.Ok? ==> cs.value[0].length == r.values["L"]
    ensures cs.Ok? ==> cs.value[0].bz * r.values["L"] == brho * r.values["KS"]
  {
    var length :- GetD(r, "L");
    var ks :- GetD(r, "KS");
    if length == 0.0 then Err(NonFiniteField(r.name))
    else Ok([Solenoid(r.name, length, brho * ks / length)])
  }

  /** Coefficient of order n of a generic multipole: k*brho/L/n!, or zero when k is zero. */
  function MultipoleCoefficient(k: real, brho: real, scaleLength: real, n: nat): real
    requires scaleLength != 0.0
  {
    if k != 0.0 then k * brho / scaleLength / Fact(n) else 0.0
  }

  /** Scaling a coefficient back by L and n! recovers k*brho. */
  lemma CoefficientScales(k: real, brho: real, scaleLength: real, n: nat)
    requires scaleLength != 0.0
    ensures MultipoleCoefficient(k, brho, scaleLength, n) * scaleLength * Fact(n) == k * brho
  {
    if k != 0.0 {
      DivideTwiceCancels(k * brho, scaleLength, Fact(n));
    }
  }

  lemma DivideTwiceCancels(x: real, a: real, b: real)
    requires a != 0.0 && b != 0.0
    ensures x / a / b * a * b == x
  {
    var q := x / a;
    assert q * a == x;
    var p := q / b;
    assert p * b == q;
    calc {
      p * a * b;
      p * b * a;
      q * a;
    }
  }

  /**
   * The coefficients of orders 0..n-1, read in increasing order; reading
   * stops at the first missing column.
   */
  function CoefficientsUpTo(r: Row, brho: real, scaleLength: real, n: nat): (cs: Outcome<seq<real>>)
    requires scaleLength != 0.0 && n <= 5
    ensures cs.Ok? <==> NormalsUpTo(r, n)
    ensures cs.Err? ==> cs.error.MissingColumn?
    ensures cs.Ok? ==> |cs.value| == n
    ensures cs.Ok? ==> forall j :: 0 <= j < n ==>
              cs.value[j] == MultipoleCoefficient(r.values[NormalNames[j]], brho, scaleLength, j)
  {
    if n == 0 then Ok([])
    else
      var prev :- CoefficientsUpTo(r, brho, scaleLength, n - 1);
      var k :- GetD(r, NormalNames[n - 1]);
      Ok(prev + [MultipoleCoefficient(k, brho, scaleLength, n - 1)])
  }

  /**
   * What a coefficient means: it scales back by L and n! to K<n>L * brho,
   * and a zero K<n>L gives a zero coefficient.
   */
  lemma CoefficientScalesBack(r: Row, brho: real, scaleLength: real, n: nat)
    requires scaleLength != 0.0 && n < 5 && CoefficientsUpTo(r, brho, scaleLength, 5).Ok?
    ensures Scaled(r, brho, scaleLength, CoefficientsUpTo(r, brho, scaleLength, 5).value, n)
  {
    var k := r.values[NormalNames[n]];
    CoefficientScales(k, brho, scaleLength, n);
  }

  /** Coefficient n scales back to K<n>L * brho, and is zero when K<n>L is. */
  ghost predicate Scaled(r: Row, brho: real, scaleLength: real, cs: seq<real>, n: nat)
    requires n < |cs| && n < 5
  {
    NormalNames[n] in r.values &&
    (r.values[NormalNames[n]] == 0.0 ==> cs[n] == 0.0) &&
    cs[n] * scaleLength * Fact(n) == r.values[NormalNames[n]] * brho
  }

  /** Once order n is missing, every longer read fails on that column. */
  lemma {:induction false} CoefficientsFailAt(r: Row, brho: real, scaleLength: real, n: nat, m: nat)
    requires scaleLength != 0.0 && n < m <= 5
    requires CoefficientsUpTo(r, brho, scaleLength, n).Ok? && !HasCol(r, NormalNames[n])
    ensures CoefficientsUpTo(r, brho, scaleLength, m) == Err(MissingColumn(NormalNames[n]))
  {
    if m > n + 1 {
      CoefficientsFailAt(r, brho, scaleLength, n, m - 1);
    }
  }

  /**
   * A generic multipole: coefficient n is K<n>L * brho / L / n!, scaled by 1
   * in place of a zero L, and zero where K<n>L is zero (the constructor's
   * implicit dipole term is cleared). The component keeps the row's length.
   */
  function MultipoleInstance(r: Row, brho: real): (cs: Outcome<seq<Component>>)
    ensures cs.Ok? <==> HasCol(r, "L") && NormalsUpTo(r, 5)
    ensures cs.Ok? ==> |cs.value| == 1 && cs.value[0].RectMultipole? && cs.value[0].name == r.name
    ensures cs.Ok? ==> cs.value[0].length == r.values["L"] && |cs.value[0].coefficients| == 5
    ensures cs.Ok? ==>
              var scale := if r.values["L"] == 0.0 then 1.0 else r.values["L"];
              forall n :: 0 <= n < 5 ==> Scaled(r, brho, scale, cs.value[0].coefficients, n)
  {
    var length :- GetD(r, "L");
    var coefficients :- CoefficientsUpTo(r, brho, if length == 0.0 then 1.0 else length, 5);
    var scale := if length == 0.0 then 1.0 else length;
    CoefficientScalesBack(r, brho, scale, 0);
    CoefficientScalesBack(r, brho, scale, 1);
    CoefficientScalesBack(r, brho, scale, 2);
    CoefficientScalesBack(r, brho, scale, 3);
    CoefficientScalesBack(r, brho, scale, 4);
    Ok([RectMultipole(r.name, length, coefficients)])
  }

  lemma CoefficientByFactorial(k: real, brho: real, scaleLength: real, n: nat, f: real)
    requires scaleLength != 0.0 && k != 0.0 && f == Fact(n)
    ensures k * brho / scaleLength / f == MultipoleCoefficient(k, brho, scaleLength, n)
  {
  }

  /**
   * The imperative coefficient loop: a field whose only term, the dipole,
   * is cleared, then one SetComponent per non-zero normal coefficient.
   */
  method MultipoleField(r: Row, brho: real, length: real) returns (field: Outcome<seq<real>>)
    ensures field == CoefficientsUpTo(r, brho, if length == 0.0 then 1.0 else length, 5)
  {
    var a := new real[5] [1.0, 0.0, 0.0, 0.0, 0.0];
    a[0] := 0.0;
    var scale := if length == 0.0 then 1.0 else length;
    for n := 0 to 5
      invariant NormalsUpTo(r, n)
      invariant forall j :: 0 <= j < n ==> a[j] == MultipoleCoefficient(r.values[NormalNames[j]], brho, scale, j)
      invariant forall j :: n <= j < 5 ==> a[j] == 0.0
    {
      if NormalNames[n] !in r.values {
        CoefficientsFailAt(r, brho, scale, n, 5);
        return Err(MissingColumn(NormalNames[n]));
      }
      var k := r.values[NormalNames[n]];
      if k != 0.0 {
        var f := Factorial(n);
        CoefficientByFactorial(k, brho, scale, n, f);
        a[n] := k * brho / scale / f;
      }
    }
    var expected := CoefficientsUpTo(r, brho, scale, 5);
    assert a[..] == expected.value;
    field := Ok(a[..]);
  }

  /** Zero-strength correctors of length L. */
  function YCorInstance(r: Row): (cs: Outcome<seq<Component>>)
    ensures cs.Ok? <==> HasCol(r, "L")
    ensures cs.Ok? ==> cs.value == [YCor(r.name, r.values["L"], 0.0)]
  {
    var length :- GetD(r, "L");
    Ok([YCor(r.name, length, 0.0)])
  }

  function XCorInstance(r: Row): (cs: Outcome<seq<Component>>)
    ensures cs.Ok? <==> HasCol(r, "L")
    ensures cs.Ok? ==> cs.value == [XCor(r.name, r.values["L"], 0.0)]
  {
    var length :- GetD(r, "L");
    Ok([XCor(r.name, length, 0.0)])
  }

  /** brho/L for a positive length, brho otherwise. */
  function KickScale(brho: real, length: real): (s: real)
    ensures s * (if length > 0.0 then length else 1.0) == brho
  {
    if length > 0.0 then brho / length else brho
  }

  /** A vertical corrector whose strength times L (1 when L <= 0) is brho*VKICK. */
  function VKickerInstance(r: Row, brho: real): (cs: Outcome<seq<Component>>)
    ensures cs.Ok? <==> (HasCol(r, "L") && HasCol(r, "VKICK"))
    ensures cs.Ok? ==> |cs.value| == 1 && cs.value[0].YCor? && cs.value[0].name == r.name
    ensures cs.Ok? ==> cs.value[0].length == r.values["L"]
    ensures cs.Ok? ==> cs.value[0].strength * (if r.values["L"] > 0.0 then r.values["L"] else 1.0)
                       == brho * r.values["VKICK"]
  {
    var length :- GetD(r, "L");
    var kick :- GetD(r, "VKICK");
    Ok([YCor(r.name, length, KickScale(brho, length) * kick)])
  }

  /** A horizontal corrector: as the vertical one on HKICK, with the sign negated. */
  function HKickerInstance(r: Row, brho: real): (cs: Outcome<seq<Component>>)
    ensures cs.Ok? <==> (HasCol(r, "L") && HasCol(r, "HKICK"))
    ensures cs.Ok? ==> |cs.value| == 1 && cs.value[0].XCor? && cs.value[0].name == r.name
    ensures cs.Ok? ==> cs.value[0].length == r.values["L"]
    ensures cs.Ok? ==> cs.value[0].strength * (if r.values["L"] > 0.0 then r.values["L"] else 1.0)
                       == -(brho * r.values["HKICK"])
  {
    var length :- GetD(r, "L");
    var kick :- GetD(r, "HKICK");
    Ok([XCor(r.name, length, -KickScale(brho, length) * kick)])
  }

  // ---------------------------------------------------------------- RF cavities

  /** Half the RF wavelength at a frequency given in MHz. */
  function HalfWavelength(freqMHz: real): real
    requires freqMHz != 0.0
  {
    PC.SpeedOfLight / (freqMHz * PC.MHz) / 2.0
  }

  /** The LAG (in turns) as a phase in radians, shifted back a quarter turn for a cosine-like field. */
  function CosinePhase(lag: real): (p: real)
    ensures p == PC.TwoPi * lag - PC.TwoPi / 4.0
  {
    PC.TwoPi * (lag - 0.25)
  }

  /**
   * A standing-wave cavity of Round(L / (lambda/2)) cells at FREQ MHz, its
   * voltage spread over the nominal length L. Its reported length is a whole
   * number of half-wavelengths within half a half-wavelength of L.
   */
  function RFCavityInstance(r: Row): (cs: Outcome<seq<Component>>)
    ensures cs.Ok? <==> (HasCol(r, "L") && HasCol(r, "FREQ") && HasCol(r, "LAG") && HasCol(r, "VOLT")) && r.values["FREQ"] != 0.0 && r.values["L"] != 0.0
    ensures cs.Ok? ==> cs.value == [Cavity(r.name, r.values["L"], r.values["FREQ"], r.values["LAG"], r.values["VOLT"])]
  {
    var length :- GetD(r, "L");
    var freq :- GetD(r, "FREQ");
    var lag :- GetD(r, "LAG");
    var volts :- GetD(r, "VOLT");
    if freq == 0.0 || length == 0.0 then Err(NonFiniteField(r.name))
    else Ok([Cavity(r.name, length, freq, lag, volts)])
  }

  /** The multi-cell structure for a cavity of nominal length L at FREQ MHz. */
  function Cavity(name: string, length: real, freq: real, lag: real, volts: real): (c: Component)
    requires freq != 0.0 && length != 0.0
    ensures c.SWRFStructure? && c.name == name
    ensures c.ncells == PC.Round(length / HalfWavelength(freq))
    ensures Length(c) == c.ncells as real * HalfWavelength(freq)
    ensures WithinHalfCell(Length(c), length, HalfWavelength(freq))
    ensures c.frequency == freq * PC.MHz && c.phase == CosinePhase(lag)
    ensures c.gradient * length == volts * PC.MV
  {
    var half := HalfWavelength(freq);
    var ncells := PC.Round(length / half);
    RoundedCavityLength(length, half, ncells);
    var cavity := SWRFStructure(name, ncells, freq * PC.MHz, volts * PC.MV / length, CosinePhase(lag));
    StructureLength(cavity, freq);
    GradientSpread(volts * PC.MV, length);
    cavity
  }

  /** A structure at FREQ MHz spans its cells' half-wavelengths. */
  lemma StructureLength(c: Component, freqMHz: real)
    requires c.SWRFStructure? && freqMHz != 0.0 && c.frequency == freqMHz * PC.MHz
    ensures Length(c) == c.ncells as real * HalfWavelength(freqMHz)
  {
    assert c.frequency != 0.0;
  }

  /** A voltage spread over a length gives back the voltage over that length. */
  lemma GradientSpread(v: real, length: real)
    requires length != 0.0
    ensures v / length * length == v
  {
  }

  /**
   * A span differs from the nominal length by at most half a cell of length
   * |half| (the bound is scaled by half to stay free of division).
   */
  predicate WithinHalfCell(span: real, length: real, half: real) {
    -(half * half) / 2.0 <= (span - length) * half <= half * half / 2.0
  }

  /** Rounding L/half to n cells moves the length by at most half a cell (scaled by half). */
  lemma RoundedCavityLength(length: real, half: real, n: int)
    requires half != 0.0 && n == PC.Round(length / half)
    ensures WithinHalfCell(n as real * half, length, half)
  {
    var d := n as real - length / half;
    assert -1.0 / 2.0 <= d <= 1.0 / 2.0;
    assert (n as real * half - length) * half == d * (half * half);
    assert half * half > 0.0;
  }

  /**
   * The cavity length diagnostic: a structure length exceeds the nominal
   * length by more than 0.1%. For L = 0 the quotient is an infinity of the
   * structure length's sign (or a NaN for 0), so only a positive length warns.
   */
  function CavityLengthWarning(cellLength: real, length: real): bool {
    if length == 0.0 then cellLength > 0.0 else cellLength / length - 1.0 > 0.001
  }

  /** The RFCAVITY rule's check: the rounded cells' total length against L. */
  predicate RFCavityWarns(length: real, freq: real)
    requires freq != 0.0
  {
    CavityLengthWarning(PC.Round(length / HalfWavelength(freq)) as real * HalfWavelength(freq), length)
  }

  /** The single-cell rule's check: one half-wavelength against L. */
  predicate SingleCellWarns(length: real, freq: real)
    requires freq != 0.0
  {
    CavityLengthWarning(HalfWavelength(freq), length)
  }

  /**
   * Rounding to whole cells moves the length by at most half a cell, so the
   * RFCAVITY check can only fire on an element shorter than 500 half-wavelengths.
   */
  lemma CavityWarnsOnlyWhenShort(length: real, freq: real)
    requires freq != 0.0 && length > 0.0
    ensures RFCavityWarns(length, freq) ==> length < 500.0 * HalfWavelength(freq) || length < -500.0 * HalfWavelength(freq)
  {
    var half := HalfWavelength(freq);
    var n := PC.Round(length / half);
    var span := n as real * half;
    assert RFCavityWarns(length, freq) <==> CavityLengthWarning(PC.Round(length / HalfWavelength(freq)) as real * HalfWavelength(freq), length);
    assert span == PC.Round(length / HalfWavelength(freq)) as real * HalfWavelength(freq);
    assert RFCavityWarns(length, freq) == CavityLengthWarning(span, length);
    RoundedCavityLength(length, half, n);
    if RFCavityWarns(length, freq) {
      CavityWarningOneSided(span, length);
      assert span > 1.001 * length;
      if half > 0.0 {
        assert (span - length) * half <= half * half / 2.0;
        assert span - length <= half / 2.0;
      } else {
        assert -(half * half) / 2.0 <= (span - length) * half;
        assert span - length <= -half / 2.0;
      }
    }
  }

  /** The RFCAVITY check compares the length of the structure the rule builds with L. */
  lemma CavityWarnsOnItsLength(name: string, length: real, freq: real, lag: real, volts: real)
    requires freq != 0.0 && length != 0.0
    ensures RFCavityWarns(length, freq) <==> CavityLengthWarning(Length(Cavity(name, length, freq, lag, volts)), length)
  {
    var c := Cavity(name, length, freq, lag, volts);
    assert Length(c) == PC.Round(length / HalfWavelength(freq)) as real * HalfWavelength(freq);
  }

  /** The single-cell check fires exactly when L is more than 0.1% short of a half-wavelength. */
  lemma SingleCellWarnsWhenShort(length: real, freq: real)
    requires freq != 0.0 && length > 0.0
    ensures SingleCellWarns(length, freq) <==> HalfWavelength(freq) > 1.001 * length
  {
    CavityWarningOneSided(HalfWavelength(freq), length);
  }

  /** The check is one-sided: for a positive nominal length it fires only on lengthening. */
  lemma CavityWarningOneSided(cellLength: real, length: real)
    requires length > 0.0
    ensures CavityLengthWarning(cellLength, length) <==> cellLength > 1.001 * length
  {
    if cellLength / length - 1.0 > 0.001 {
      assert cellLength == (cellLength / length) * length;
    } else {
      assert cellLength == (cellLength / length) * length;
    }
  }

  lemma PairLength(a: Component, b: Component)
    ensures SumLengths([a, b]) == Length(a) + Length(b)
  {
    assert [a, b][..1] == [a];
    assert [a][..0] == [];
    assert SumLengths([a]) == SumLengths([]) + Length(a);
    assert SumLengths([a, b]) == SumLengths([a]) + Length(b);
  }

  /**
   * A one-cell standing-wave cavity at FREQ MHz, its voltage spread over the
   * half-wavelength, followed by a drift "Drift_<NAME>" taking up the rest
   * of L (negative when L is shorter than a half-wavelength). Together they
   * span exactly L.
   */
  function RFCavitySingleCellInstance(r: Row): (cs: Outcome<seq<Component>>)
    ensures cs.Ok? <==> (HasCol(r, "L") && HasCol(r, "FREQ") && HasCol(r, "LAG") && HasCol(r, "VOLT")) && r.values["FREQ"] != 0.0
    ensures cs.Ok? ==> cs.value == SingleCell(r.name, r.values["L"], r.values["FREQ"], r.values["LAG"], r.values["VOLT"])
  {
    var length :- GetD(r, "L");
    var freq :- GetD(r, "FREQ");
    var lag :- GetD(r, "LAG");
    var volts :- GetD(r, "VOLT");
    if freq == 0.0 then Err(NonFiniteField(r.name))
    else Ok(SingleCell(r.name, length, freq, lag, volts))
  }

  /**
   * The single-cell structure, one half-wavelength long with the voltage
   * spread over that half-wavelength, and the drift taking up the rest of L.
   */
  function SingleCell(name: string, length: real, freq: real, lag: real, volts: real): (cs: seq<Component>)
    requires freq != 0.0
    ensures |cs| == 2 && cs[0].SWRFStructure? && cs[0].name == name && cs[0].ncells == 1
    ensures cs[0].frequency == freq * PC.MHz && cs[0].phase == CosinePhase(lag)
    ensures Length(cs[0]) == HalfWavelength(freq)
    ensures cs[0].gradient * HalfWavelength(freq) == volts * PC.MV
    ensures cs[1] == Drift("Drift_" + name, length - HalfWavelength(freq))
    ensures SumLengths(cs) == length
    ensures SingleCellWarns(length, freq) <==> CavityLengthWarning(Length(cs[0]), length)
  {
    var half := HalfWavelength(freq);
    assert half != 0.0 && half / half == 1.0;
    var ncells := PC.Round(half / half);
    PC.RoundOfInteger(1);
    var cavity := SWRFStructure(name, ncells, freq * PC.MHz, volts * PC.MV / half, CosinePhase(lag));
    var rest := Drift("Drift_" + name, length - half);
    StructureLength(cavity, freq);
    GradientSpread(volts * PC.MV, half);
    PairLength(cavity, rest);
    [cavity, rest]
  }

  // ---------------------------------------------------------------- remaining rules

  function CrabMarkerInstance(r: Row): (cs: Outcome<seq<Component>>)
    ensures cs.Ok? <==> (HasCol(r, "MUX") && HasCol(r, "MUY") && HasCol(r, "L"))
    ensures cs.Ok? ==> cs.value == [CrabMarker(r.name, r.values["L"], r.values["MUX"], r.values["MUY"])]
  {
    var mux :- GetD(r, "MUX");
    var muy :- GetD(r, "MUY");
    var length :- GetD(r, "L");
    Ok([CrabMarker(r.name, length, mux, muy)])
  }

  function CrabRFInstance(r: Row): (cs: Outcome<seq<Component>>)
    ensures cs.Ok? <==> HasCol(r, "L")
    ensures cs.Ok? ==> cs.value == [TransverseRFStructure(r.name, r.values["L"])]
  {
    var length :- GetD(r, "L");
    Ok([TransverseRFStructure(r.name, length)])
  }

  function CollimatorInstance(r: Row): (cs: Outcome<seq<Component>>)
    ensures cs.Ok? <==> HasCol(r, "L")
    ensures cs.Ok? ==> cs.value == [Collimator(r.name, r.values["L"])]
  {
    var length :- GetD(r, "L");
    Ok([Collimator(r.name, length)])
  }

  function HELInstance(r: Row): (cs: Outcome<seq<Component>>)
    ensures cs.Ok? <==> HasCol(r, "L")
    ensures cs.Ok? ==> cs.value == [HollowElectronLens(r.name, r.values["L"])]
  {
    var length :- GetD(r, "L");
    Ok([HollowElectronLens(r.name, length)])
  }

  predicate StartsWithWS(name: string) {
    |name| >= 2 && name[..2] == "WS"
  }

  /** A wire scanner (a name starting "WS") is a profile monitor; any other monitor is a BPM. */
  function MonitorInstance(r: Row): (cs: Outcome<seq<Component>>)
    ensures cs.Ok? <==> HasCol(r, "L")
    ensures cs.Ok? ==> |cs.value| == 1 && cs.value[0].name == r.name && Length(cs.value[0]) == r.values["L"]
    ensures cs.Ok? ==> (cs.value[0].RMSProfileMonitor? <==> StartsWithWS(r.name))
    ensures cs.Ok? ==> (cs.value[0].BPM? <==> !StartsWithWS(r.name))
  {
    var length :- GetD(r, "L");
    if r.name[..if |r.name| < 2 then |r.name| else 2] == "WS" then Ok([RMSProfileMonitor(r.name, length)])
    else Ok([BPM(r.name, length)])
  }

  function MarkerInstance(r: Row): (cs: Outcome<seq<Component>>)
    ensures cs == Ok([Marker(r.name)])
  {
    Ok([Marker(r.name)])
  }

  // ---------------------------------------------------------------- registry

  datatype Rule =
    | DriftRule | RBendRule | SBendRule | ThickRule(kind: ThickKind) | MultipoleRule
    | YCorRule | XCorRule | VKickerRule | HKickerRule | SolenoidRule
    | RFCavityRule | RFCavitySingleCellRule | CrabMarkerRule | CrabRFRule
    | CollimatorRule | HELRule | MonitorRule | MarkerRule

  const Registry: map<string, Rule> := map[
    "DRIFT" := DriftRule,
    "RBEND" := RBendRule,
    "SBEND" := SBendRule,
    "QUADRUPOLE" := ThickRule(Quad),
    "SKEWQUAD" := ThickRule(SkewQuad),
    "SEXTUPOLE" := ThickRule(Sext),
    "SKEWSEXT" := ThickRule(SkewSext),
    "OCTUPOLE" := ThickRule(Oct),
    "MULTIPOLE" := MultipoleRule,
    "YCOR" := YCorRule,
    "XCOR" := XCorRule,
    "VKICKER" := VKickerRule,
    "HKICKER" := HKickerRule,
    "SOLENOID" := SolenoidRule,
    "RFCAVITY" := RFCavityRule,
    "RFCAVITY_SingleCell" := RFCavitySingleCellRule,
    "CRABMARKER" := CrabMarkerRule,
    "CRABRF" := CrabRFRule,
    "COLLIMATOR" := CollimatorRule,
    "HEL" := HELRule,
    "MONITOR" := MonitorRule,
    "MARKER" := MarkerRule
  ]

  /** A rule fails only on a missing column or a zero divisor. */
  predicate RuleError(e: BuildError) {
    e.MissingColumn? || e.NonFiniteField?
  }

  function Apply(rule: Rule, r: Row, brho: real): (cs: Outcome<seq<Component>>)
    ensures cs.Err? ==> RuleError(cs.error)
  {
    match rule
    case DriftRule => DriftInstance(r)
    case RBendRule => RBendInstance(r, brho)
    case SBendRule => SBendInstance(r, brho)
    case ThickRule(k) => ThickInstance(k, r, brho)
    case MultipoleRule => MultipoleInstance(r, brho)
    case YCorRule => YCorInstance(r)
    case XCorRule => XCorInstance(r)
    case VKickerRule => VKickerInstance(r, brho)
    case HKickerRule => HKickerInstance(r, brho)
    case SolenoidRule => SolenoidInstance(r, brho)
    case RFCavityRule => RFCavityInstance(r)
    case RFCavitySingleCellRule => RFCavitySingleCellInstance(r)
    case CrabMarkerRule => CrabMarkerInstance(r)
    case CrabRFRule => CrabRFInstance(r)
    case CollimatorRule => CollimatorInstance(r)
    case HELRule => HELInstance(r)
    case MonitorRule => MonitorInstance(r)
    case MarkerRule => MarkerInstance(r)
  }

  /** The components for a row, by its current keyword; an unregistered keyword yields none. */
  function Instance(r: Row, brho: real): (cs: Outcome<seq<Component>>)
    ensures r.keyword !in Registry ==> cs == Ok([])
    ensures r.keyword in Registry ==> cs == Apply(Registry[r.keyword], r, brho)
    ensures cs.Err? ==> RuleError(cs.error)
  {
    if r.keyword in Registry then Apply(Registry[r.keyword], r, brho) else Ok([])
  }

  /** Dispatch as the builder performs it, through the imperative multipole loop. */
  method GetInstance(t: DataTable, brho: real, id: nat) returns (cs: Outcome<seq<Component>>)
    requires id < |t.rows|
    ensures cs == Instance(t.rows[id], brho)
  {
    var r := t.rows[id];
    if r.keyword !in Registry {
      return Ok([]);
    }
    var rule := Registry[r.keyword];
    if rule == MultipoleRule {
      if "L" !in r.values {
        return Err(MissingColumn("L"));
      }
      var length := r.values["L"];
      var field := MultipoleField(r, brho, length);
      if field.Err? {
        return Err(field.error);
      }
      cs := Ok([RectMultipole(r.name, length, field.value)]);
    } else {
      cs := Apply(rule, r, brho);
    }
  }

  /** The registry holds exactly these keywords. */
  lemma RegisteredKeywords()
    ensures Registry.Keys == {"DRIFT", "RBEND", "SBEND", "QUADRUPOLE", "SKEWQUAD", "SEXTUPOLE",
                              "SKEWSEXT", "OCTUPOLE", "MULTIPOLE", "YCOR", "XCOR", "VKICKER",
                              "HKICKER", "SOLENOID", "RFCAVITY", "RFCAVITY_SingleCell", "CRABMARKER",
                              "CRABRF", "COLLIMATOR", "HEL", "MONITOR", "MARKER"}
  {
  }

  /** Unresolvable multipoles and decapoles have no rule, so they build nothing. */
  lemma UnregisteredBuildsNothing(r: Row, brho: real)
    requires r.keyword == "NOTIMPLEMENTED" || r.keyword == "DECAPOLE"
    ensures Instance(r, brho) == Ok([])
  {
  }

  /** A horizontal and a vertical kicker with the same L and kick have opposite strengths. */
  lemma KickerSigns(v: Row, h: Row, brho: real)
    requires (HasCol(v, "L") && HasCol(v, "VKICK")) && (HasCol(h, "L") && HasCol(h, "HKICK"))
    requires v.values["L"] == h.values["L"] && v.values["VKICK"] == h.values["HKICK"]
    ensures HKickerInstance(h, brho).value[0].strength == -VKickerInstance(v, brho).value[0].strength
  {
  }
}
