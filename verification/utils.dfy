/** The mode-dictionary transforms of the post-processing pipeline and the
    stage driver that chains them (surrogates/common_utils/utils.py; the file
    surrogates/model_utils/BHPTNRSur1dq1e4/utils.py repeats geo_to_SI,
    phase_rotation, evaluate_on_sphere, sum_modes and generate_negative_m_mode
    line for line and is modelled by the same members).

    Each loop that fills a fresh dict is a method with a `while` loop, proved
    equal to the function that states what the loop computes; the lemmas state
    the properties of those functions. */
module Utils {
  import opened Errors
  import opened Complex
  import opened Numerics
  import opened Modes
  import opened Composition
  import NrCalibration

  // ---------------------------------------------------------------------------
  // coorbital_to_inertial

  /** The loop state of coorbital_to_inertial: the dict filled so far and the
      orbital phase, unbound until the (2,2) mode has been seen. */
  datatype FrameState = FrameState(out: ModeDict, phase: Option<seq<real>>)

  /** The loop of coorbital_to_inertial run over the entries of `d`: (2,2) is
      copied and sets the orbital phase; every other mode is rotated by
      exp(i m phi) with the phase of the last (2,2) seen, and raises while the
      phase is unbound. */
  function CoorbitalFrom(nx: Numerics, d: ModeDict): Result<FrameState> {
    if |d| == 0 then Ok(FrameState([], None))
    else
      var st :- CoorbitalFrom(nx, d[..|d| - 1]);
      var e := d[|d| - 1];
      if e.mode == Mode22 then
        Ok(FrameState(Put(st.out, e.mode, e.h), Some(OrbitalPhase(nx, e.h))))
      else if st.phase.None? then Err(UnboundName)
      else
        var h :- Rotate(nx, e.h, e.mode.m, st.phase.value);
        Ok(FrameState(Put(st.out, e.mode, h), st.phase))
  }

  /** What coorbital_to_inertial returns. */
  function InertialModes(nx: Numerics, d: ModeDict): Result<ModeDict> {
    var st :- CoorbitalFrom(nx, d);
    Ok(st.out)
  }

  method CoorbitalToInertial(nx: Numerics, d: ModeDict) returns (r: Result<ModeDict>)
    ensures r == InertialModes(nx, d)
  {
    var out: ModeDict := [];
    var phase: Option<seq<real>> := None;
    var i := 0;
    while i < |d|
      invariant 0 <= i <= |d|
      invariant CoorbitalFrom(nx, d[..i]) == Ok(FrameState(out, phase))
    {
      var e := d[i];
      assert d[..i + 1][..i] == d[..i];
      if e.mode == Mode22 {
        phase := Some(OrbitalPhase(nx, e.h));
        out := Put(out, e.mode, e.h);
      } else {
        if phase.None? {
          CoorbitalPrefixError(nx, d, i + 1);
          return Err(UnboundName);
        }
        var h := Rotate(nx, e.h, e.mode.m, phase.value);
        if h.Err? {
          CoorbitalPrefixError(nx, d, i + 1);
          return Err(h.error);
        }
        out := Put(out, e.mode, h.value);
      }
      i := i + 1;
    }
    assert d[..|d|] == d;
    return Ok(out);
  }

  /** Once a prefix of the loop fails, the whole loop fails with the same error. */
  lemma {:induction false} CoorbitalPrefixError(nx: Numerics, d: ModeDict, n: nat)
    requires n <= |d| && CoorbitalFrom(nx, d[..n]).Err?
    ensures CoorbitalFrom(nx, d) == Err(CoorbitalFrom(nx, d[..n]).error)
    decreases |d| - n
  {
    if n < |d| {
      assert d[..n + 1][..n] == d[..n];
      CoorbitalPrefixError(nx, d, n + 1);
    } else {
      assert d[..n] == d;
    }
  }

  /** A dict whose first key is not (2,2) fails at its first entry: the
      orbital phase is read before it is bound. */
  lemma CoorbitalNeedsTwoTwoFirst(nx: Numerics, d: ModeDict)
    requires |d| > 0 && d[0].mode != Mode22
    ensures InertialModes(nx, d) == Err(UnboundName)
  {
    assert d[..1][..0] == [];
    assert CoorbitalFrom(nx, d[..1]) == Err(UnboundName);
    CoorbitalPrefixError(nx, d, 1);
  }

  /** The closed form of the loop on a dict whose modes all have the length of
      `phi`: (2,2) kept, every other mode rotated by `phi`. */
  function InertialClosedForm(nx: Numerics, d: ModeDict, phi: seq<real>): (r: ModeDict)
    requires forall i :: 0 <= i < |d| ==> |d[i].h| == |phi|
    ensures |r| == |d| && Keys(r) == Keys(d)
  {
    seq(|d|, i requires 0 <= i < |d| => Turned(nx, d[i], phi))
  }

  /** One entry of the closed form: (2,2) kept, any other mode rotated. */
  function Turned(nx: Numerics, e: Entry, phi: seq<real>): (r: Entry)
    requires |e.h| == |phi|
    ensures r.mode == e.mode
  {
    if e.mode == Mode22 then e else Entry(e.mode, Rotate(nx, e.h, e.mode.m, phi).value)
  }

  lemma ClosedFormAppend(nx: Numerics, q: ModeDict, e: Entry, phi: seq<real>)
    requires forall i :: 0 <= i < |q| ==> |q[i].h| == |phi|
    requires |e.h| == |phi|
    ensures InertialClosedForm(nx, q + [e], phi) == InertialClosedForm(nx, q, phi) + [Turned(nx, e, phi)]
  {
    var p := q + [e];
    assert forall i :: 0 <= i < |q| ==> p[i] == q[i];
  }

  /** One step of the loop after (2,2): a fresh mode is rotated and appended. */
  lemma CoorbitalStep(nx: Numerics, q: ModeDict, e: Entry, phi: seq<real>)
    requires e.mode != Mode22 && e.mode !in Keys(q)
    requires forall i :: 0 <= i < |q| ==> |q[i].h| == |phi|
    requires |e.h| == |phi|
    requires CoorbitalFrom(nx, q) == Ok(FrameState(InertialClosedForm(nx, q, phi), Some(phi)))
    ensures CoorbitalFrom(nx, q + [e]) == Ok(FrameState(InertialClosedForm(nx, q + [e], phi), Some(phi)))
  {
    var p := q + [e];
    assert p[..|p| - 1] == q;
    var out := InertialClosedForm(nx, q, phi);
    var h := Rotate(nx, e.h, e.mode.m, phi);
    assert CoorbitalFrom(nx, p) == Ok(FrameState(Put(out, e.mode, h.value), Some(phi)));
    PutFresh(out, e.mode, h.value);
    ClosedFormAppend(nx, q, e, phi);
  }

  /** The first step: (2,2) is copied and binds the orbital phase. */
  lemma CoorbitalFirst(nx: Numerics, e: Entry)
    requires e.mode == Mode22
    ensures var phi := OrbitalPhase(nx, e.h);
      CoorbitalFrom(nx, [e]) == Ok(FrameState(InertialClosedForm(nx, [e], phi), Some(phi)))
  {
    var phi := OrbitalPhase(nx, e.h);
    assert [e][..0] == [];
    assert Put([], Mode22, e.h) == [e];
    assert InertialClosedForm(nx, [e], phi)[0] == Turned(nx, e, phi) == e;
    assert InertialClosedForm(nx, [e], phi) == [e];
    assert [e][|[e]| - 1] == e;
    assert CoorbitalFrom(nx, [e][..0]) == Ok(FrameState([], None));
  }

  /** With (2,2) first and all modes of its length, every prefix of the loop
      has the closed form, with the orbital phase of (2,2) bound. */
  lemma {:induction false} CoorbitalPrefix(nx: Numerics, d: ModeDict, n: nat)
    requires Distinct(d) && 1 <= n <= |d| && d[0].mode == Mode22
    requires forall i :: 0 <= i < |d| ==> |d[i].h| == |d[0].h|
    ensures var phi := OrbitalPhase(nx, d[0].h);
      CoorbitalFrom(nx, d[..n]) == Ok(FrameState(InertialClosedForm(nx, d[..n], phi), Some(phi)))
  {
    var phi := OrbitalPhase(nx, d[0].h);
    if n == 1 {
      assert d[..1] == [d[0]];
      CoorbitalFirst(nx, d[0]);
    } else {
      CoorbitalPrefix(nx, d, n - 1);
      PrefixFacts(d, n, d[..n - 1]);
      CoorbitalStep(nx, d[..n - 1], d[n - 1], phi);
    }
  }

  /** The facts about a prefix that one step of CoorbitalPrefix needs. */
  lemma PrefixFacts(d: ModeDict, n: nat, p: ModeDict)
    requires Distinct(d) && 2 <= n <= |d| && d[0].mode == Mode22
    requires forall i :: 0 <= i < |d| ==> |d[i].h| == |d[0].h|
    requires p == d[..n - 1]
    ensures d[n - 1].mode != Mode22 && d[n - 1].mode !in Keys(p)
    ensures forall i :: 0 <= i < |p| ==> |p[i].h| == |d[0].h|
    ensures d[..n] == p + [d[n - 1]]
  {
    assert d[0].mode != d[n - 1].mode;
    forall j | 0 <= j < |p| ensures Keys(p)[j] != d[n - 1].mode {
      assert p[j] == d[j];
    }
  }

  /** coorbital_to_inertial on a dict that starts with (2,2), all modes of one
      length: the keys and their order are kept, (2,2) is unchanged, and every
      other mode (l, m) is multiplied sample by sample by exp(i m phi), with
      phi = unwrap(angle(h22)) / 2. */
  lemma CoorbitalToInertialShape(nx: Numerics, d: ModeDict)
    requires Distinct(d) && |d| >= 1 && d[0].mode == Mode22
    requires forall i :: 0 <= i < |d| ==> |d[i].h| == |d[0].h|
    ensures var r := InertialModes(nx, d);
      var phi := OrbitalPhase(nx, d[0].h);
      r.Ok? && |r.value| == |d| && Keys(r.value) == Keys(d) && r.value[0] == d[0] &&
      forall i :: 1 <= i < |d| ==> (|r.value[i].h| == |d[i].h| &&
        forall t :: 0 <= t < |d[i].h| ==> r.value[i].h[t] == Mul(d[i].h[t], nx.cis(Angle(d[i].mode.m, phi[t]))))
  {
    CoorbitalPrefix(nx, d, |d|);
    assert d[..|d|] == d;
    var phi := OrbitalPhase(nx, d[0].h);
    var r := InertialClosedForm(nx, d, phi);
    forall i | 1 <= i < |d| ensures d[i].mode != Mode22 {
      assert d[0].mode != d[i].mode;
    }
  }

  // ---------------------------------------------------------------------------
  // geo_to_SI

  /** The time factor G M / c**3 and the strain factor (G M / c**3) / dL of
      geo_to_SI, with M = M_tot * MSUN_SI and dL = dist_mpc * PC_SI; each
      division raises on a zero divisor. */
  function GeoFactors(nx: Numerics, mTot: real, distMpc: real): (r: Result<(real, real)>)
    ensures r.Ok? <==> Pow(nx.cSI, 3) != 0.0 && distMpc * nx.pcSI != 0.0
    ensures r.Err? ==> r.error == DivisionByZero
    ensures r.Ok? ==> r.value.0 == nx.gSI * (mTot * nx.msunSI) / Pow(nx.cSI, 3)
    ensures r.Ok? ==> r.value.1 * (distMpc * nx.pcSI) == r.value.0
  {
    var m := mTot * nx.msunSI;
    var dL := distMpc * nx.pcSI;
    var c3 := Pow(nx.cSI, 3);
    if c3 == 0.0 then Err(DivisionByZero)
    else
      var timeFactor := nx.gSI * m / c3;
      if dL == 0.0 then Err(DivisionByZero)
      else Ok((timeFactor, timeFactor / dL))
  }

  function StrainStep(factor: real): Entry -> Result<Series> {
    (e: Entry) => Ok(ScaleSeries(e.h, factor))
  }

  /** What geo_to_SI returns: the rescaled time and every mode rescaled by one factor. */
  function SIWaveform(nx: Numerics, tGeo: seq<real>, d: ModeDict, mTot: real, distMpc: real)
    : Result<(seq<real>, ModeDict)>
  {
    var factors :- GeoFactors(nx, mTot, distMpc);
    var h :- FillFrom(d, StrainStep(factors.1));
    Ok((ScaleReals(tGeo, factors.0), h))
  }

  method GeoToSI(nx: Numerics, tGeo: seq<real>, d: ModeDict, mTot: real, distMpc: real)
    returns (r: Result<(seq<real>, ModeDict)>)
    ensures r == SIWaveform(nx, tGeo, d, mTot, distMpc)
  {
    var factors := GeoFactors(nx, mTot, distMpc);
    if factors.Err? {
      return Err(factors.error);
    }
    var tSI := ScaleReals(tGeo, factors.value.0);
    var strain := factors.value.1;
    var hSI: ModeDict := [];
    var i := 0;
    while i < |d|
      invariant 0 <= i <= |d|
      invariant FillFrom(d[..i], StrainStep(strain)) == Ok(hSI)
    {
      FillFromStep(d, i, StrainStep(strain), hSI);
      hSI := Put(hSI, d[i].mode, ScaleSeries(d[i].h, strain));
      i := i + 1;
    }
    assert d[..|d|] == d;
    return Ok((tSI, hSI));
  }

  /** geo_to_SI keeps the keys and their order, scales time by G M / c**3 and
      every mode by the one factor (G M / c**3) / dL. */
  lemma GeoToSIShape(nx: Numerics, tGeo: seq<real>, d: ModeDict, mTot: real, distMpc: real)
    requires Distinct(d)
    ensures var r := SIWaveform(nx, tGeo, d, mTot, distMpc);
      var f := GeoFactors(nx, mTot, distMpc);
      (r.Ok? <==> f.Ok?) &&
      (r.Ok? ==> (r.value.0 == ScaleReals(tGeo, f.value.0) && |r.value.1| == |d| && Keys(r.value.1) == Keys(d) &&
        forall i :: 0 <= i < |d| ==> r.value.1[i].h == ScaleSeries(d[i].h, f.value.1)))
  {
    var f := GeoFactors(nx, mTot, distMpc);
    if f.Ok? {
      FillFromOk(d, StrainStep(f.value.1));
      FillFromDistinct(d, StrainStep(f.value.1));
    }
  }

  /** Multiplying by the reciprocal undoes a nonzero rescale. */
  lemma ScaleSeriesInverse(h: Series, k: real)
    requires k != 0.0
    ensures ScaleSeries(ScaleSeries(h, k), 1.0 / k) == h
  {
    forall i | 0 <= i < |h| ensures ScaleSeries(ScaleSeries(h, k), 1.0 / k)[i] == h[i] {
      var c := h[i];
      assert c.re * k * (1.0 / k) == c.re;
      assert c.im * k * (1.0 / k) == c.im;
    }
  }

  /** Multiplying by the reciprocal undoes a nonzero rescale of a time axis. */
  lemma ScaleRealsInverse(t: seq<real>, k: real)
    requires k != 0.0
    ensures ScaleReals(ScaleReals(t, k), 1.0 / k) == t
  {
    forall i | 0 <= i < |t| ensures ScaleReals(ScaleReals(t, k), 1.0 / k)[i] == t[i] {
      assert t[i] * k * (1.0 / k) == t[i];
    }
  }

  /** Converting back: dividing the SI time axis by G M / c**3 recovers the
      geometric one, and multiplying every SI mode by dL over that factor
      recovers its geometric mode, whenever the factor is nonzero. */
  lemma GeoToSIRoundTrip(nx: Numerics, tGeo: seq<real>, d: ModeDict, mTot: real, distMpc: real)
    requires Distinct(d)
    requires GeoFactors(nx, mTot, distMpc).Ok? && GeoFactors(nx, mTot, distMpc).value.0 != 0.0
    ensures var r := SIWaveform(nx, tGeo, d, mTot, distMpc);
      var f := GeoFactors(nx, mTot, distMpc).value;
      r.Ok? && ScaleReals(r.value.0, 1.0 / f.0) == tGeo &&
      |r.value.1| == |d| && Keys(r.value.1) == Keys(d) &&
      forall i :: 0 <= i < |d| ==> ScaleSeries(r.value.1[i].h, (distMpc * nx.pcSI) / f.0) == d[i].h
  {
    GeoToSIShape(nx, tGeo, d, mTot, distMpc);
    var f := GeoFactors(nx, mTot, distMpc).value;
    var dL := distMpc * nx.pcSI;
    assert f.1 != 0.0;
    assert f.1 * (dL / f.0) == 1.0;
    assert dL / f.0 == 1.0 / f.1;
    ScaleRealsInverse(tGeo, f.0);
    forall i | 0 <= i < |d|
      ensures ScaleSeries(SIWaveform(nx, tGeo, d, mTot, distMpc).value.1[i].h, dL / f.0) == d[i].h
    {
      ScaleSeriesInverse(d[i].h, f.1);
    }
  }

  // ---------------------------------------------------------------------------
  // phase_rotation

  /** One entry of phase_rotation: mode (l, m) times exp(i m delta). */
  function PhaseEntry(nx: Numerics, e: Entry, delta: real): Entry {
    Entry(e.mode, MulSeries(e.h, nx.cis(Angle(e.mode.m, delta))))
  }

  function PhaseStep(nx: Numerics, delta: real): Entry -> Result<Series> {
    (e: Entry) => Ok(PhaseEntry(nx, e, delta).h)
  }

  /** What phase_rotation returns: each mode (l, m) times exp(i m delta). */
  function RotatedModes(nx: Numerics, d: ModeDict, delta: real): Result<ModeDict> {
    FillFrom(d, PhaseStep(nx, delta))
  }

  method PhaseRotation(nx: Numerics, d: ModeDict, delta: real) returns (r: ModeDict)
    ensures RotatedModes(nx, d, delta) == Ok(r)
  {
    r := [];
    var i := 0;
    while i < |d|
      invariant 0 <= i <= |d|
      invariant FillFrom(d[..i], PhaseStep(nx, delta)) == Ok(r)
    {
      FillFromStep(d, i, PhaseStep(nx, delta), r);
      var phaseRot := Angle(d[i].mode.m, delta);
      r := Put(r, d[i].mode, MulSeries(d[i].h, nx.cis(phaseRot)));
      i := i + 1;
    }
    assert d[..|d|] == d;
  }

  /** phase_rotation keeps the keys and their order and multiplies mode (l, m) by exp(i m delta). */
  lemma PhaseRotationShape(nx: Numerics, d: ModeDict, delta: real)
    requires Distinct(d)
    ensures var r := RotatedModes(nx, d, delta);
      r.Ok? && |r.value| == |d| && Keys(r.value) == Keys(d) &&
      forall i :: 0 <= i < |d| ==> r.value[i] == PhaseEntry(nx, d[i], delta)
  {
    FillFromOk(d, PhaseStep(nx, delta));
    FillFromDistinct(d, PhaseStep(nx, delta));
  }

  /** exp(i a) exp(i b) = exp(i (a + b)), a property of the exponential that
      the model leaves uninterpreted. */
  ghost predicate CisAdditive(nx: Numerics) {
    forall a, b :: Mul(nx.cis(a), nx.cis(b)) == nx.cis(a + b)
  }

  lemma MulAssoc(a: Complex, b: Complex, c: Complex)
    ensures Mul(Mul(a, b), c) == Mul(a, Mul(b, c))
  {
    assert (a.re * b.re - a.im * b.im) * c.re - (a.re * b.im + a.im * b.re) * c.im
        == a.re * (b.re * c.re - b.im * c.im) - a.im * (b.re * c.im + b.im * c.re);
    assert (a.re * b.re - a.im * b.im) * c.im + (a.re * b.im + a.im * b.re) * c.re
        == a.re * (b.re * c.im + b.im * c.re) + a.im * (b.re * c.re - b.im * c.im);
  }

  lemma RotateTwice(nx: Numerics, e: Entry, delta1: real, delta2: real, delta: real)
    requires CisAdditive(nx) && delta == delta1 + delta2
    ensures PhaseEntry(nx, PhaseEntry(nx, e, delta1), delta2) == PhaseEntry(nx, e, delta)
  {
    var h := e.h;
    var m := e.mode.m;
    assert Angle(m, delta1) + Angle(m, delta2) == Angle(m, delta);
    forall t | 0 <= t < |h|
      ensures Mul(Mul(h[t], nx.cis(Angle(m, delta1))), nx.cis(Angle(m, delta2))) == Mul(h[t], nx.cis(Angle(m, delta)))
    {
      MulAssoc(h[t], nx.cis(Angle(m, delta1)), nx.cis(Angle(m, delta2)));
    }
  }

  /** Two orbital phase rotations compose into one by the sum of the angles. */
  lemma PhaseRotationCompose(nx: Numerics, d: ModeDict, delta1: real, delta2: real, delta: real)
    requires Distinct(d) && CisAdditive(nx) && delta == delta1 + delta2
    ensures RotatedModes(nx, d, delta1).Ok?
    ensures RotatedModes(nx, RotatedModes(nx, d, delta1).value, delta2) == RotatedModes(nx, d, delta)
  {
    PhaseRotationShape(nx, d, delta1);
    var d1 := RotatedModes(nx, d, delta1).value;
    DistinctSameKeys(d, d1);
    PhaseRotationShape(nx, d1, delta2);
    PhaseRotationShape(nx, d, delta);
    RotatedTwiceEntries(nx, d, d1, RotatedModes(nx, d1, delta2).value, RotatedModes(nx, d, delta).value,
                        delta1, delta2, delta);
  }

  lemma RotatedTwiceEntries(nx: Numerics, d: ModeDict, d1: ModeDict, r2: ModeDict, r: ModeDict,
                            delta1: real, delta2: real, delta: real)
    requires CisAdditive(nx) && delta == delta1 + delta2
    requires |d1| == |d| && |r2| == |d| && |r| == |d|
    requires forall i :: 0 <= i < |d| ==> d1[i] == PhaseEntry(nx, d[i], delta1)
    requires forall i :: 0 <= i < |d| ==> r2[i] == PhaseEntry(nx, d1[i], delta2)
    requires forall i :: 0 <= i < |d| ==> r[i] == PhaseEntry(nx, d[i], delta)
    ensures r2 == r
  {
    forall i | 0 <= i < |d| ensures r2[i] == r[i] {
      RotateTwice(nx, d[i], delta1, delta2, delta);
    }
  }

  // ---------------------------------------------------------------------------
  // evaluate_on_sphere

  function SphereStep(nx: Numerics, theta: real, phi: real): Entry -> Result<Series> {
    (e: Entry) => Ok(ScalarMulSeries(nx.sYlm(-2, e.mode.l, e.mode.m, theta, phi), e.h))
  }

  /** What evaluate_on_sphere returns: with theta given and phi missing it
      raises; with theta missing the result variable is never bound; otherwise
      each mode is multiplied by its spin-weight -2 spherical harmonic. */
  function SphereModes(nx: Numerics, theta: Option<real>, phi: Option<real>, d: ModeDict): (r: Result<ModeDict>)
    ensures theta.None? ==> r == Err(UnboundName)
    ensures theta.Some? && phi.None? ==> r == Err(PhiMissing)
  {
    if theta.None? then Err(UnboundName)
    else if phi.None? then Err(PhiMissing)
    else FillFrom(d, SphereStep(nx, theta.value, phi.value))
  }

  method EvaluateOnSphere(nx: Numerics, theta: Option<real>, phi: Option<real>, d: ModeDict)
    returns (r: Result<ModeDict>)
    ensures r == SphereModes(nx, theta, phi, d)
  {
    if theta.None? {
      return Err(UnboundName);
    }
    if phi.None? {
      return Err(PhiMissing);
    }
    var sphere: ModeDict := [];
    var i := 0;
    while i < |d|
      invariant 0 <= i <= |d|
      invariant FillFrom(d[..i], SphereStep(nx, theta.value, phi.value)) == Ok(sphere)
    {
      FillFromStep(d, i, SphereStep(nx, theta.value, phi.value), sphere);
      var y := nx.sYlm(-2, d[i].mode.l, d[i].mode.m, theta.value, phi.value);
      sphere := Put(sphere, d[i].mode, ScalarMulSeries(y, d[i].h));
      i := i + 1;
    }
    assert d[..|d|] == d;
    return Ok(sphere);
  }

  /** With both angles, evaluate_on_sphere keeps the keys and their order and
      multiplies mode (l, m) by sYlm(-2, l, m, theta, phi). */
  lemma EvaluateOnSphereShape(nx: Numerics, theta: real, phi: real, d: ModeDict)
    requires Distinct(d)
    ensures var r := SphereModes(nx, Some(theta), Some(phi), d);
      r.Ok? && Keys(r.value) == Keys(d) &&
      forall i :: 0 <= i < |d| ==>
        r.value[i].h == ScalarMulSeries(nx.sYlm(-2, d[i].mode.l, d[i].mode.m, theta, phi), d[i].h)
  {
    FillFromOk(d, SphereStep(nx, theta, phi));
    FillFromDistinct(d, SphereStep(nx, theta, phi));
  }

  // ---------------------------------------------------------------------------
  // sum_modes

  /** The loop `h = h + h_dict[mode]` of sum_modes, from the start value `h0`. */
  function Accumulate(d: ModeDict, h0: Series): Result<Series> {
    if |d| == 0 then Ok(h0)
    else
      var acc :- Accumulate(d[..|d| - 1], h0);
      ZipWith(acc, d[|d| - 1].h, Add)
  }

  /** What sum_modes returns: zeros of the length of the (2,2) mode plus every mode. */
  function ModeSum(d: ModeDict): (r: Result<Series>)
    ensures Mode22 !in Keys(d) ==> r == Err(KeyMissing)
  {
    match Get(d, Mode22)
    case None => Err(KeyMissing)
    case Some(h22) => Accumulate(d, Zeros(|h22|))
  }

  method SumModes(d: ModeDict) returns (r: Result<Series>)
    ensures r == ModeSum(d)
  {
    var h22 := Get(d, Mode22);
    if h22.None? {
      return Err(KeyMissing);
    }
    var h := Zeros(|h22.value|);
    var i := 0;
    while i < |d|
      invariant 0 <= i <= |d|
      invariant Accumulate(d[..i], Zeros(|h22.value|)) == Ok(h)
    {
      assert d[..i + 1][..i] == d[..i];
      var next := ZipWith(h, d[i].h, Add);
      if next.Err? {
        AccumulatePrefixError(d, i + 1, Zeros(|h22.value|));
        return Err(next.error);
      }
      h := next.value;
      i := i + 1;
    }
    assert d[..|d|] == d;
    return Ok(h);
  }

  lemma {:induction false} AccumulatePrefixError(d: ModeDict, n: nat, h0: Series)
    requires n <= |d| && Accumulate(d[..n], h0).Err?
    ensures Accumulate(d, h0) == Err(Accumulate(d[..n], h0).error)
    decreases |d| - n
  {
    if n < |d| {
      assert d[..n + 1][..n] == d[..n];
      AccumulatePrefixError(d, n + 1, h0);
    } else {
      assert d[..n] == d;
    }
  }

  /** Sample t of the sum of the first n modes, starting from zero. */
  function SampleSum(d: ModeDict, t: nat, n: nat): Complex
    requires n <= |d| && forall i :: 0 <= i < n ==> t < |d[i].h|
  {
    if n == 0 then Zero else Add(SampleSum(d, t, n - 1), d[n - 1].h[t])
  }

  lemma {:induction false} AccumulateSamples(d: ModeDict, len: nat, n: nat)
    requires n <= |d| && forall i :: 0 <= i < |d| ==> |d[i].h| == len
    ensures var r := Accumulate(d[..n], Zeros(len));
      r.Ok? && |r.value| == len && forall t :: 0 <= t < len ==> r.value[t] == SampleSum(d, t, n)
  {
    if n == 0 {
      assert d[..0] == [];
    } else {
      AccumulateSamples(d, len, n - 1);
      assert d[..n][..n - 1] == d[..n - 1];
      assert d[..n][n - 1] == d[n - 1];
    }
  }

  /** sum_modes on a dict holding (2,2), all modes of one length: the result
      has that length and is the elementwise sum of all modes. */
  lemma SumModesIsElementwiseSum(d: ModeDict, len: nat)
    requires Mode22 in Keys(d) && forall i :: 0 <= i < |d| ==> |d[i].h| == len
    ensures var r := ModeSum(d);
      r.Ok? && |r.value| == len && forall t :: 0 <= t < len ==> r.value[t] == SampleSum(d, t, |d|)
  {
    GetFinds(d, Mode22);
    AccumulateSamples(d, len, |d|);
    assert d[..|d|] == d;
  }

  // ---------------------------------------------------------------------------
  // generate_negative_m_mode

  lemma {:induction false} MinusOnePower(l: nat)
    ensures Pow(-1.0, l) == if l % 2 == 0 then 1.0 else -1.0
  {
    if l > 0 {
      MinusOnePower(l - 1);
    }
  }

  /** The mode (l, -m) obtained from (l, m) by h(l, -m) = (-1)^l conj(h(l, m))
      (Eq. 78 of Kidder, Phys. Rev. D 77, 044016 (2008)). */
  function Mirror(e: Entry): Entry
    requires e.mode.l >= 0
  {
    Entry(Mode(e.mode.l, -e.mode.m), ScaleSeries(ConjSeries(e.h), Pow(-1.0, e.mode.l)))
  }

  /** The loop of generate_negative_m_mode: each (l, m) is copied, then m is
      checked (m <= 0 raises), then (l, -m) is assigned, where np.power(-1, l)
      raises on a negative l. */
  function NegativeMFrom(d: ModeDict): (r: Result<ModeDict>)
    ensures r.Err? ==> r.error == NonPositiveM || r.error == NegativePower
  {
    if |d| == 0 then Ok([])
    else
      match NegativeMFrom(d[..|d| - 1])
      case Err(err) => Err(err)
      case Ok(acc) => WithMirrorOf(acc, d[|d| - 1])
  }

  /** One iteration of generate_negative_m_mode on the dict `acc` built so far. */
  function WithMirrorOf(acc: ModeDict, e: Entry): (r: Result<ModeDict>)
    ensures r.Ok? <==> e.mode.m > 0 && e.mode.l >= 0
    ensures e.mode.m <= 0 ==> r == Err(NonPositiveM)
    ensures e.mode.m > 0 && e.mode.l < 0 ==> r == Err(NegativePower)
  {
    if e.mode.m <= 0 then Err(NonPositiveM)
    else if e.mode.l < 0 then Err(NegativePower)
    else Ok(Put(Put(acc, e.mode, e.h), Mode(e.mode.l, -e.mode.m), Mirror(e).h))
  }

  method GenerateNegativeMMode(d: ModeDict) returns (r: Result<ModeDict>)
    ensures r == NegativeMFrom(d)
  {
    var all: ModeDict := [];
    var i := 0;
    while i < |d|
      invariant 0 <= i <= |d|
      invariant NegativeMFrom(d[..i]) == Ok(all)
    {
      var e := d[i];
      assert d[..i + 1][..i] == d[..i];
      all := Put(all, e.mode, e.h);
      if e.mode.m == 0 {
        NegativeMPrefixError(d, i + 1);
        return Err(NonPositiveM);
      } else if e.mode.m < 0 {
        NegativeMPrefixError(d, i + 1);
        return Err(NonPositiveM);
      }
      if e.mode.l < 0 {
        NegativeMPrefixError(d, i + 1);
        return Err(NegativePower);
      }
      all := Put(all, Mode(e.mode.l, -e.mode.m), Mirror(e).h);
      i := i + 1;
    }
    assert d[..|d|] == d;
    return Ok(all);
  }

  lemma {:induction false} NegativeMPrefixError(d: ModeDict, n: nat)
    requires n <= |d| && NegativeMFrom(d[..n]).Err?
    ensures NegativeMFrom(d) == Err(NegativeMFrom(d[..n]).error)
    decreases |d| - n
  {
    if n < |d| {
      assert d[..n + 1][..n] == d[..n];
      NegativeMPrefixError(d, n + 1);
    } else {
      assert d[..n] == d;
    }
  }

  /** generate_negative_m_mode succeeds exactly when every mode has m > 0 and
      l >= 0; when every m is positive the only failure is a negative l, and
      when every l is nonnegative the only failure is m <= 0. */
  lemma {:induction false} NegativeMOk(d: ModeDict)
    ensures NegativeMFrom(d).Ok? <==> forall i :: 0 <= i < |d| ==> d[i].mode.m > 0 && d[i].mode.l >= 0
    ensures (forall i :: 0 <= i < |d| ==> d[i].mode.m > 0) && NegativeMFrom(d).Err? ==>
      NegativeMFrom(d).error == NegativePower
    ensures (forall i :: 0 <= i < |d| ==> d[i].mode.l >= 0) && NegativeMFrom(d).Err? ==>
      NegativeMFrom(d).error == NonPositiveM
  {
    if |d| > 0 {
      var q := d[..|d| - 1];
      var e := d[|d| - 1];
      NegativeMOk(q);
      assert d == q + [e];
      AppendConditions(q, e);
    }
  }

  /** The conditions of NegativeMOk on `q + [e]` are those on `q` and on `e`. */
  lemma AppendConditions(q: ModeDict, e: Entry)
    ensures (forall i :: 0 <= i < |q + [e]| ==> (q + [e])[i].mode.m > 0 && (q + [e])[i].mode.l >= 0) <==>
      (forall i :: 0 <= i < |q| ==> q[i].mode.m > 0 && q[i].mode.l >= 0) && e.mode.m > 0 && e.mode.l >= 0
    ensures (forall i :: 0 <= i < |q + [e]| ==> (q + [e])[i].mode.m > 0) <==>
      (forall i :: 0 <= i < |q| ==> q[i].mode.m > 0) && e.mode.m > 0
    ensures (forall i :: 0 <= i < |q + [e]| ==> (q + [e])[i].mode.l >= 0) <==>
      (forall i :: 0 <= i < |q| ==> q[i].mode.l >= 0) && e.mode.l >= 0
  {
    assert forall i :: 0 <= i < |q| ==> (q + [e])[i] == q[i];
    assert (q + [e])[|q|] == e;
  }

  /** The closed form of generate_negative_m_mode: each mode followed by its mirror. */
  function WithMirrors(d: ModeDict): (r: ModeDict)
    requires forall i :: 0 <= i < |d| ==> d[i].mode.l >= 0
    ensures |r| == 2 * |d|
  {
    if |d| == 0 then []
    else WithMirrors(d[..|d| - 1]) + [d[|d| - 1], Mirror(d[|d| - 1])]
  }

  /** Every key of the closed form is a key of `d` or the mirror of one. */
  lemma {:induction false} WithMirrorsKeys(d: ModeDict, k: Mode)
    requires forall i :: 0 <= i < |d| ==> d[i].mode.l >= 0
    ensures k in Keys(WithMirrors(d)) ==> k in Keys(d) || Mode(k.l, -k.m) in Keys(d)
  {
    if |d| > 0 {
      var q := d[..|d| - 1];
      var e := d[|d| - 1];
      WithMirrorsKeys(q, k);
      assert Keys(WithMirrors(d)) == Keys(WithMirrors(q)) + [e.mode, Mirror(e).mode];
      assert Keys(d) == Keys(q) + [e.mode];
    }
  }

  /** With distinct positive-m keys the modes and their mirrors are all distinct. */
  lemma {:induction false} WithMirrorsDistinct(d: ModeDict)
    requires Distinct(d) && forall i :: 0 <= i < |d| ==> d[i].mode.m > 0 && d[i].mode.l >= 0
    ensures Distinct(WithMirrors(d))
  {
    if |d| > 0 {
      var q := d[..|d| - 1];
      var e := d[|d| - 1];
      assert Distinct(q);
      WithMirrorsDistinct(q);
      var w := WithMirrors(q);
      LastFresh(q, e);
      assert d == q + [e];
      WithMirrorsKeys(q, e.mode);
      WithMirrorsKeys(q, Mirror(e).mode);
      assert Mode(e.mode.l, -e.mode.m) !in Keys(q);
      AppendFreshDistinct(w, e);
      assert Keys(w + [e]) == Keys(w) + [e.mode];
      assert Mode(e.mode.l, -e.mode.m) !in Keys(w);
      AppendFreshDistinct(w + [e], Mirror(e));
      assert WithMirrors(d) == (w + [e]) + [Mirror(e)];
    }
  }

  /** The i-th mode and its mirror sit at positions 2i and 2i + 1. */
  lemma {:induction false} WithMirrorsAt(d: ModeDict, i: nat)
    requires forall j :: 0 <= j < |d| ==> d[j].mode.l >= 0
    requires i < |d|
    ensures WithMirrors(d)[2 * i] == d[i] && WithMirrors(d)[2 * i + 1] == Mirror(d[i])
  {
    var q := d[..|d| - 1];
    if i < |d| - 1 {
      WithMirrorsAt(q, i);
    }
  }

  /** The last key of a dict is not among the keys before it. */
  lemma {:induction false} LastFresh(q: ModeDict, e: Entry)
    requires Distinct(q + [e])
    ensures e.mode !in Keys(q)
  {
    forall j | 0 <= j < |q| ensures Keys(q)[j] != e.mode {
      assert (q + [e])[j] == q[j] && (q + [e])[|q|] == e;
      assert (q + [e])[j].mode != (q + [e])[|q|].mode;
    }
  }

  /** One step of the loop: a fresh positive-m mode appends itself and its mirror. */
  lemma {:induction false} NegativeMStep(q: ModeDict, e: Entry)
    requires e.mode.m > 0 && e.mode.l >= 0 && e.mode !in Keys(q)
    requires forall i :: 0 <= i < |q| ==> q[i].mode.m > 0 && q[i].mode.l >= 0
    requires NegativeMFrom(q) == Ok(WithMirrors(q))
    ensures NegativeMFrom(q + [e]) == Ok(WithMirrors(q + [e]))
  {
    var p := q + [e];
    assert p[..|p| - 1] == q && p[|p| - 1] == e;
    var w := WithMirrors(q);
    var k := Mode(e.mode.l, -e.mode.m);
    NegativeKeysAbsent(q, e.mode.l, -e.mode.m);
    WithMirrorsKeys(q, e.mode);
    WithMirrorsKeys(q, k);
    assert Mode(k.l, -k.m) == e.mode;
    MirrorOfFresh(w, e);
    assert WithMirrors(p) == w + [e, Mirror(e)];
  }

  /** On a dict holding neither key, the iteration appends the mode and its mirror. */
  lemma {:induction false} MirrorOfFresh(w: ModeDict, e: Entry)
    requires e.mode.m > 0 && e.mode.l >= 0
    requires e.mode !in Keys(w) && Mode(e.mode.l, -e.mode.m) !in Keys(w)
    ensures WithMirrorOf(w, e) == Ok(w + [e, Mirror(e)])
  {
    var me := Mirror(e);
    PutTwoFresh(w, e, me);
  }

  /** Two assignments of fresh, different keys append two entries. */
  lemma {:induction false} PutTwoFresh(w: ModeDict, a: Entry, b: Entry)
    requires a.mode !in Keys(w) && b.mode !in Keys(w) && a.mode != b.mode
    ensures Put(Put(w, a.mode, a.h), b.mode, b.h) == w + [a, b]
  {
    PutFresh(w, a.mode, a.h);
    assert Keys(w + [a]) == Keys(w) + [a.mode];
    PutFresh(w + [a], b.mode, b.h);
    assert (w + [a]) + [Entry(b.mode, b.h)] == w + [a, b];
  }

  /** A dict whose every m is positive holds no key with m <= 0. */
  lemma NegativeKeysAbsent(q: ModeDict, l: int, m: int)
    requires m <= 0 && forall i :: 0 <= i < |q| ==> q[i].mode.m > 0
    ensures Mode(l, m) !in Keys(q)
  {
    forall j | 0 <= j < |q| ensures Keys(q)[j] != Mode(l, m) {
      assert Keys(q)[j] == q[j].mode;
    }
  }

  lemma {:induction false} NegativeMPrefix(d: ModeDict, n: nat)
    requires Distinct(d) && n <= |d| && forall i :: 0 <= i < |d| ==> d[i].mode.m > 0 && d[i].mode.l >= 0
    ensures NegativeMFrom(d[..n]) == Ok(WithMirrors(d[..n]))
  {
    if n == 0 {
      assert d[..0] == [];
    } else {
      NegativeMPrefix(d, n - 1);
      var q := d[..n - 1];
      PositivePrefix(d, n, q);
      LastFresh(q, d[n - 1]);
      NegativeMStep(q, d[n - 1]);
    }
  }

  /** The facts about a prefix of positive-m, distinct modes that one step of NegativeMPrefix needs. */
  lemma PositivePrefix(d: ModeDict, n: nat, q: ModeDict)
    requires Distinct(d) && 0 < n <= |d| && forall i :: 0 <= i < |d| ==> d[i].mode.m > 0 && d[i].mode.l >= 0
    requires q == d[..n - 1]
    ensures d[..n] == q + [d[n - 1]] && Distinct(q + [d[n - 1]])
    ensures forall i :: 0 <= i < |q| ==> q[i].mode.m > 0 && q[i].mode.l >= 0
  {
    var p := d[..n];
    assert p == q + [d[n - 1]];
    forall i, j | 0 <= i < j < |p| ensures p[i].mode != p[j].mode {
      assert p[i] == d[i] && p[j] == d[j];
    }
    forall i | 0 <= i < |q| ensures q[i].mode.m > 0 && q[i].mode.l >= 0 {
      assert q[i] == d[i];
    }
  }

  /** generate_negative_m_mode on distinct keys with m > 0 and l >= 0: each
      mode (l, m) is followed by (l, -m) = (-1)^l conj(h(l, m)), and the keys
      stay distinct. */
  lemma {:induction false} NegativeModesShape(d: ModeDict)
    requires Distinct(d) && forall i :: 0 <= i < |d| ==> d[i].mode.m > 0 && d[i].mode.l >= 0
    ensures var r := NegativeMFrom(d);
      r.Ok? && |r.value| == 2 * |d| && Distinct(r.value) &&
      forall i :: 0 <= i < |d| ==> (r.value[2 * i] == d[i] &&
        r.value[2 * i + 1] == Entry(Mode(d[i].mode.l, -d[i].mode.m),
                                    ScaleSeries(ConjSeries(d[i].h), Pow(-1.0, d[i].mode.l))))
  {
    NegativeMPrefix(d, |d|);
    assert d[..|d|] == d;
    WithMirrorsDistinct(d);
    forall i | 0 <= i < |d| ensures WithMirrors(d)[2 * i] == d[i] && WithMirrors(d)[2 * i + 1] == Mirror(d[i]) {
      WithMirrorsAt(d, i);
    }
  }

  /** The output holds negative-m modes, so feeding it back raises. */
  lemma {:induction false} NegativeModesNotIdempotent(d: ModeDict)
    requires Distinct(d) && |d| > 0 && forall i :: 0 <= i < |d| ==> d[i].mode.m > 0 && d[i].mode.l >= 0
    ensures NegativeMFrom(d).Ok? && NegativeMFrom(NegativeMFrom(d).value) == Err(NonPositiveM)
  {
    NegativeModesShape(d);
    var r := NegativeMFrom(d).value;
    assert r[2 * 0] == d[0] && r[2 * 0 + 1].mode.m == -d[0].mode.m;
    FirstTwoRaise(r);
    NegativeMPrefixError(r, 2);
  }

  /** A dict opening with a good mode and then a negative-m mode raises at the second. */
  lemma FirstTwoRaise(r: ModeDict)
    requires |r| >= 2 && r[0].mode.m > 0 && r[0].mode.l >= 0 && r[1].mode.m < 0
    ensures NegativeMFrom(r[..2]) == Err(NonPositiveM)
  {
    assert r[..1][..0] == [] && r[..1][0] == r[0];
    assert NegativeMFrom(r[..1]).Ok?;
    assert r[..2][..1] == r[..1] && r[..2][1] == r[1];
  }

  // ---------------------------------------------------------------------------
  // obtain_processed_output

  /** What obtain_processed_output returns: the time axis with the mode dict,
      the time axis with the summed strain, or None (the function falls off
      its end when mode summation is asked for without all four extrinsics). */
  datatype Output = Modes(t: seq<real>, modes: ModeDict) | Summed(t: seq<real>, h: Series) | NoOutput

  /** Stage 1: the coorbital-to-inertial transform when asked for. */
  function FrameStage(nx: Numerics, d: ModeDict, coorbToInert: bool): (r: Result<ModeDict>)
    ensures !coorbToInert ==> r == Ok(d)
  {
    if coorbToInert then InertialModes(nx, d) else Ok(d)
  }

  /** Stage 2: NR calibration, or the raw time axis and modes unchanged. */
  function CalibrationStage<X>(x: X, time: seq<real>, d: ModeDict, coefsAlpha: map<Mode, seq<real>>,
                               coefsBeta: seq<real>, form: (X, real, real, real, real) -> real,
                               calibrated: bool): (r: Result<(seq<real>, ModeDict)>)
    ensures !calibrated ==> r == Ok((time, d))
  {
    if calibrated then NrCalibration.CalibratedPpBHPT(x, time, d, coefsAlpha, coefsBeta, form)
    else Ok((time, d))
  }

  /** Stage 3: the negative-m modes when asked for. */
  function NegativeStage(d: ModeDict, negModes: bool): (r: Result<ModeDict>)
    ensures !negModes ==> r == Ok(d)
  {
    if negModes then NegativeMFrom(d) else Ok(d)
  }

  /** Stage 4: SI units when both mass and distance are given, and then the
      projection on the sky (theta = inclination, phi = orbital phase) when
      both angles are given as well. */
  function ExtrinsicStage(nx: Numerics, t: seq<real>, d: ModeDict, mTot: Option<real>, distMpc: Option<real>,
                          orbPhase: Option<real>, inclination: Option<real>): (r: Result<(seq<real>, ModeDict)>)
    ensures mTot.None? || distMpc.None? ==> r == Ok((t, d))
  {
    if mTot.Some? && distMpc.Some? then
      match SIWaveform(nx, t, d, mTot.value, distMpc.value)
      case Err(e) => Err(e)
      case Ok(si) =>
        if orbPhase.Some? && inclination.Some? then
          match SphereModes(nx, inclination, orbPhase, si.1)
          case Err(e) => Err(e)
          case Ok(sky) => Ok((si.0, sky))
        else Ok(si)
    else Ok((t, d))
  }

  /** Stage 5: the modes, their sum when all four extrinsics are given, or None. */
  function SumStage(t: seq<real>, d: ModeDict, modeSum: bool, mTot: Option<real>, distMpc: Option<real>,
                    orbPhase: Option<real>, inclination: Option<real>): (r: Result<Output>)
    ensures !modeSum ==> r == Ok(Modes(t, d))
    ensures modeSum && !(mTot.Some? && distMpc.Some? && orbPhase.Some? && inclination.Some?) ==> r == Ok(NoOutput)
    ensures r.Ok? && modeSum && mTot.Some? && distMpc.Some? && orbPhase.Some? && inclination.Some? ==>
      ModeSum(d).Ok? && r.value == Summed(t, ModeSum(d).value)
  {
    if !modeSum then Ok(Modes(t, d))
    else if mTot.Some? && distMpc.Some? && orbPhase.Some? && inclination.Some? then
      match ModeSum(d)
      case Err(e) => Err(e)
      case Ok(h) => Ok(Summed(t, h))
    else Ok(NoOutput)
  }

  /** obtain_processed_output: the five stages in their fixed order, the first
      failing stage deciding the error. */
  function ProcessedOutput<X>(nx: Numerics, x: X, time: seq<real>, raw: ModeDict,
                              coefsAlpha: map<Mode, seq<real>>, coefsBeta: seq<real>,
                              form: (X, real, real, real, real) -> real, calibrated: bool,
                              mTot: Option<real>, distMpc: Option<real>, orbPhase: Option<real>,
                              inclination: Option<real>, modeSum: bool, negModes: bool,
                              coorbToInert: bool): (r: Result<Output>)
    ensures r.Ok? && !modeSum ==> r.value.Modes?
    ensures r.Ok? && modeSum ==>
      if mTot.Some? && distMpc.Some? && orbPhase.Some? && inclination.Some? then r.value.Summed?
      else r.value.NoOutput?
    ensures coorbToInert && InertialModes(nx, raw).Err? ==> r == Err(InertialModes(nx, raw).error)
  {
    var h0 :- FrameStage(nx, raw, coorbToInert);
    var cal :- CalibrationStage(x, time, h0, coefsAlpha, coefsBeta, form, calibrated);
    var h1 :- NegativeStage(cal.1, negModes);
    var ext :- ExtrinsicStage(nx, cal.0, h1, mTot, distMpc, orbPhase, inclination);
    SumStage(ext.0, ext.1, modeSum, mTot, distMpc, orbPhase, inclination)
  }

  /** With every stage switched off, the raw time axis and modes come back
      unchanged: no calibration, no frame change, no rescale. */
  lemma ProcessedPassThrough<X>(nx: Numerics, x: X, time: seq<real>, raw: ModeDict,
                                coefsAlpha: map<Mode, seq<real>>, coefsBeta: seq<real>,
                                form: (X, real, real, real, real) -> real, orbPhase: Option<real>,
                                inclination: Option<real>)
    ensures ProcessedOutput(nx, x, time, raw, coefsAlpha, coefsBeta, form, false, None, None,
                            orbPhase, inclination, false, false, false) == Ok(Modes(time, raw))
  {
  }

  /** Mode summation without all four extrinsic values returns None whenever
      the earlier stages succeed; with all four it returns a summed strain. */
  lemma ProcessedSumNeedsExtrinsics<X>(nx: Numerics, x: X, time: seq<real>, raw: ModeDict,
                                       coefsAlpha: map<Mode, seq<real>>, coefsBeta: seq<real>,
                                       form: (X, real, real, real, real) -> real, calibrated: bool,
                                       mTot: Option<real>, distMpc: Option<real>, orbPhase: Option<real>,
                                       inclination: Option<real>, negModes: bool, coorbToInert: bool)
    ensures var r := ProcessedOutput(nx, x, time, raw, coefsAlpha, coefsBeta, form, calibrated, mTot,
                                     distMpc, orbPhase, inclination, true, negModes, coorbToInert);
      (r.Ok? && !(mTot.Some? && distMpc.Some? && orbPhase.Some? && inclination.Some?) ==> r.value == NoOutput) &&
      (r.Ok? && mTot.Some? && distMpc.Some? && orbPhase.Some? && inclination.Some? ==> r.value.Summed?)
  {
  }

  /** Without both mass and distance the two angles are never read: the
      output is the same whatever they are. */
  lemma ProcessedIgnoresAnglesWithoutMassDistance<X>(nx: Numerics, x: X, time: seq<real>, raw: ModeDict,
                                                     coefsAlpha: map<Mode, seq<real>>, coefsBeta: seq<real>,
                                                     form: (X, real, real, real, real) -> real, calibrated: bool,
                                                     mTot: Option<real>, distMpc: Option<real>,
                                                     orbPhase1: Option<real>, inclination1: Option<real>,
                                                     orbPhase2: Option<real>, inclination2: Option<real>,
                                                     modeSum: bool, negModes: bool, coorbToInert: bool)
    requires mTot.None? || distMpc.None?
    ensures ProcessedOutput(nx, x, time, raw, coefsAlpha, coefsBeta, form, calibrated, mTot, distMpc,
                            orbPhase1, inclination1, modeSum, negModes, coorbToInert)
         == ProcessedOutput(nx, x, time, raw, coefsAlpha, coefsBeta, form, calibrated, mTot, distMpc,
                            orbPhase2, inclination2, modeSum, negModes, coorbToInert)
  {
  }

  /** The stage order on the time axis and on each mode: calibration first
      (alpha per l, beta on time), the SI rescale after it. */
  lemma ProcessedCalibratesBeforeSI<X>(nx: Numerics, x: X, time: seq<real>, raw: ModeDict,
                                       coefsAlpha: map<Mode, seq<real>>, coefsBeta: seq<real>,
                                       form: (X, real, real, real, real) -> real, mTot: real, distMpc: real)
    requires Distinct(raw)
    ensures var r := ProcessedOutput(nx, x, time, raw, coefsAlpha, coefsBeta, form, true, Some(mTot),
                                     Some(distMpc), None, None, false, false, false);
      var f := GeoFactors(nx, mTot, distMpc);
      r.Ok? ==> (f.Ok? && r.value.Modes? && NrCalibration.EvaluateBeta(x, coefsBeta, form).Ok? &&
        r.value.t == ScaleReals(ScaleReals(time, NrCalibration.EvaluateBeta(x, coefsBeta, form).value), f.value.0) &&
        Keys(r.value.modes) == Keys(raw) &&
        forall i :: 0 <= i < |raw| ==>
          (NrCalibration.EvaluateAlpha(x, raw[i].mode.l, coefsAlpha, form).Ok? &&
           r.value.modes[i].h == ScaleSeries(ScaleSeries(raw[i].h,
             NrCalibration.EvaluateAlpha(x, raw[i].mode.l, coefsAlpha, form).value), f.value.1)))
  {
    var r := ProcessedOutput(nx, x, time, raw, coefsAlpha, coefsBeta, form, true, Some(mTot),
                             Some(distMpc), None, None, false, false, false);
    if r.Ok? {
      NrCalibration.CalibrationShape(x, time, raw, coefsAlpha, coefsBeta, form);
      var cal := NrCalibration.CalibratedPpBHPT(x, time, raw, coefsAlpha, coefsBeta, form).value;
      DistinctSameKeys(raw, cal.1);
      GeoToSIShape(nx, cal.0, cal.1, mTot, distMpc);
    }
  }
}
