/** Reconstruction of one waveform datapiece from its fits at the empirical
    interpolation (EIM) nodes, and of one complex mode from two datapieces
    (surrogates/common_utils/fits.py). */
module Fits {
  import opened Errors
  import opened Complex
  import opened Numerics
  import opened Modes
  import opened Composition

  /** `[h_eim_spline, eim_indicies]`: one spline per EIM node and the node indices. */
  datatype FitData = FitData(splines: seq<Spline>, eimIndices: seq<int>)

  /** The `fit_func` flag: 'spline_1d', 'GPR_fits', or any other string. */
  datatype FitKind = Spline1d | GprFits | OtherFit

  /** A two-dimensional basis array: one row per EIM node, `width` time samples per row. */
  datatype Basis = Basis(rows: seq<seq<real>>, width: nat)

  type Matrix = b: Basis | forall i :: 0 <= i < |b.rows| ==> |b.rows[i]| == b.width
    witness Basis([], 0)

  /** The fit and basis of one datapiece fit together: a spline for every
      node index, and one basis row per node. */
  predicate WellShaped(fit: FitData, b: Matrix) {
    |fit.eimIndices| <= |fit.splines| && |fit.eimIndices| == |b.rows|
  }

  /** evaluate_splines_at_EIM_nodes: entry j is the j-th spline evaluated at X;
      the comprehension runs over the node indices and indexes the spline list. */
  function EvaluateSplinesAtEimNodes(nx: Numerics, x: Param, fit: FitData): (r: Result<seq<real>>)
    ensures r.Ok? <==> |fit.eimIndices| <= |fit.splines|
    ensures r.Ok? ==> (|r.value| == |fit.eimIndices| &&
      forall j :: 0 <= j < |fit.eimIndices| ==> r.value[j] == nx.splev(fit.splines[j], x))
    ensures r.Err? ==> r.error == IndexOutOfRange
  {
    if |fit.eimIndices| > |fit.splines| then Err(IndexOutOfRange)
    else Ok(seq(|fit.eimIndices|, j requires 0 <= j < |fit.eimIndices| => nx.splev(fit.splines[j], x)))
  }

  /** The sum over the first n nodes of B[j][t] * v[j]: sample t of B^T . v. */
  function ColumnDot(b: Matrix, v: seq<real>, t: nat, n: nat): real
    requires n <= |b.rows| && n <= |v| && t < b.width
  {
    if n == 0 then 0.0 else ColumnDot(b, v, t, n - 1) + b.rows[n - 1][t] * v[n - 1]
  }

  /** EIM_B_to__waveform_datapiece: `np.dot(B.transpose(), eim_vals)`. */
  function EimBToWaveformDatapiece(b: Matrix, v: seq<real>): (r: Result<seq<real>>)
    ensures r.Ok? <==> |v| == |b.rows|
    ensures r.Ok? ==> |r.value| == b.width
    ensures r.Ok? ==> forall t :: 0 <= t < b.width ==> r.value[t] == ColumnDot(b, v, t, |v|)
    ensures r.Err? ==> r.error == ShapeMismatch
  {
    if |v| != |b.rows| then Err(ShapeMismatch)
    else Ok(seq(b.width, t requires 0 <= t < b.width => ColumnDot(b, v, t, |v|)))
  }

  /** a * v + w, elementwise. */
  function Combine(a: real, v: seq<real>, w: seq<real>): (r: seq<real>)
    requires |v| == |w|
    ensures |r| == |v|
  {
    seq(|v|, j requires 0 <= j < |v| => a * v[j] + w[j])
  }

  lemma {:induction false} ColumnDotLinear(b: Matrix, a: real, v: seq<real>, w: seq<real>, t: nat, n: nat)
    requires |v| == |w| && n <= |b.rows| && n <= |v| && t < b.width
    ensures ColumnDot(b, Combine(a, v, w), t, n) == a * ColumnDot(b, v, t, n) + ColumnDot(b, w, t, n)
  {
    if n > 0 {
      ColumnDotLinear(b, a, v, w, t, n - 1);
      var x := b.rows[n - 1][t];
      assert x * (a * v[n - 1] + w[n - 1]) == a * (x * v[n - 1]) + x * w[n - 1];
    }
  }

  /** The reconstruction is linear in the node values. */
  lemma EimReconstructionLinear(b: Matrix, a: real, v: seq<real>, w: seq<real>)
    requires |v| == |w| == |b.rows|
    ensures EimBToWaveformDatapiece(b, Combine(a, v, w)).Ok?
    ensures forall t :: 0 <= t < b.width ==>
      EimBToWaveformDatapiece(b, Combine(a, v, w)).value[t]
        == a * EimBToWaveformDatapiece(b, v).value[t] + EimBToWaveformDatapiece(b, w).value[t]
  {
    forall t | 0 <= t < b.width
      ensures ColumnDot(b, Combine(a, v, w), t, |v|) == a * ColumnDot(b, v, t, |v|) + ColumnDot(b, w, t, |v|)
    {
      ColumnDotLinear(b, a, v, w, t, |v|);
    }
  }

  /** The node-value vector that is 1 at node k and 0 elsewhere. */
  function UnitAt(n: nat, k: nat): (e: seq<real>)
    ensures |e| == n
  {
    seq(n, j requires 0 <= j < n => if j == k then 1.0 else 0.0)
  }

  lemma {:induction false} ColumnDotUnit(b: Matrix, k: nat, t: nat, n: nat)
    requires n <= |b.rows| && t < b.width
    ensures ColumnDot(b, UnitAt(|b.rows|, k), t, n) == if k < n then b.rows[k][t] else 0.0
  {
    if n > 0 {
      ColumnDotUnit(b, k, t, n - 1);
    }
  }

  /** Node values that are 1 at node k and 0 elsewhere reconstruct to row k of B. */
  lemma EimReconstructionOfUnit(b: Matrix, k: nat)
    requires k < |b.rows|
    ensures EimBToWaveformDatapiece(b, UnitAt(|b.rows|, k)) == Ok(b.rows[k])
  {
    var r := EimBToWaveformDatapiece(b, UnitAt(|b.rows|, k));
    forall t | 0 <= t < b.width ensures r.value[t] == b.rows[k][t] {
      ColumnDotUnit(b, k, t, |b.rows|);
    }
    assert r.value == b.rows[k];
  }

  /** evaluate_datapiece: spline fits at the nodes, then B^T . v. The GPR
      evaluator is a stub that returns None, on which the dot product raises;
      an unknown flag leaves the node values unbound. */
  function EvaluateDatapiece(nx: Numerics, x: Param, fit: FitData, b: Matrix, kind: FitKind): (r: Result<seq<real>>)
    ensures kind == GprFits ==> r == Err(NoneOperand)
    ensures kind == OtherFit ==> r == Err(UnboundName)
    ensures kind == Spline1d ==>
      (r.Ok? <==> |fit.eimIndices| <= |fit.splines| && |fit.eimIndices| == |b.rows|)
    ensures r.Ok? ==> |r.value| == b.width
    ensures kind == Spline1d && r.Ok? ==>
      r == EimBToWaveformDatapiece(b, EvaluateSplinesAtEimNodes(nx, x, fit).value)
    ensures kind == Spline1d && |fit.eimIndices| > |fit.splines| ==> r == Err(IndexOutOfRange)
    ensures kind == Spline1d && |fit.eimIndices| <= |fit.splines| && |fit.eimIndices| != |b.rows| ==>
      r == Err(ShapeMismatch)
    ensures r.Err? && r.error == UnboundName ==> kind == OtherFit
  {
    match kind
    case Spline1d =>
      var v :- EvaluateSplinesAtEimNodes(nx, x, fit);
      EimBToWaveformDatapiece(b, v)
    case GprFits => Err(NoneOperand)
    case OtherFit => Err(UnboundName)
  }

  /** evaluate_surrogate_mode as written: with an orbital phase it passes four
      arguments to the two-argument re_im_to_comp, which raises. */
  function EvaluateSurrogateModeAsWritten(nx: Numerics, x: Param, fit1: FitData, fit2: FitData,
                                          b1: Matrix, b2: Matrix, kind: FitKind, norm: real,
                                          mode: Option<Mode>, orbitalPhase: Option<seq<real>>)
    : (r: Result<Series>)
    ensures orbitalPhase.Some? ==> r.Err?
  {
    var d1 :- EvaluateDatapiece(nx, x, fit1, b1, kind);
    var d2 :- EvaluateDatapiece(nx, x, fit2, b2, kind);
    var h :- if orbitalPhase.None? then AmpPhToComp(nx, d1, d2)
             else if mode.None? then Err(NoneOperand)
             else Err(WrongArgumentCount);
    Ok(ScaleSeries(ConjSeries(h), norm))
  }

  /** The complex mode before conjugation and normalisation, from the two
      datapieces: amplitude and phase without an orbital phase, otherwise the
      coorbital real and imaginary parts rotated by exp(i m phi). */
  function ComposeMode(nx: Numerics, d1: seq<real>, d2: seq<real>, mode: Option<Mode>,
                       orbitalPhase: Option<seq<real>>): (r: Result<Series>)
    ensures orbitalPhase.None? ==> r == AmpPhToComp(nx, d1, d2)
    ensures orbitalPhase.Some? && mode.None? ==> r == Err(NoneOperand)
    ensures orbitalPhase.Some? && mode.Some? ==> r == ReImToCompRotated(nx, d1, d2, mode.value.m, orbitalPhase.value)
  {
    if orbitalPhase.None? then AmpPhToComp(nx, d1, d2)
    else if mode.None? then Err(NoneOperand)
    else ReImToCompRotated(nx, d1, d2, mode.value.m, orbitalPhase.value)
  }

  /** evaluate_surrogate_mode with the call at the orbital-phase branch going to
      the four-argument composition it passes its arguments for. */
  function EvaluateSurrogateMode(nx: Numerics, x: Param, fit1: FitData, fit2: FitData,
                                 b1: Matrix, b2: Matrix, kind: FitKind, norm: real,
                                 mode: Option<Mode>, orbitalPhase: Option<seq<real>>)
    : (r: Result<Series>)
    ensures kind != Spline1d ==> r.Err?
    ensures orbitalPhase.Some? && mode.None? ==> r.Err?
    ensures r.Err? && r.error == UnboundName ==> kind == OtherFit
  {
    var d1 :- EvaluateDatapiece(nx, x, fit1, b1, kind);
    var d2 :- EvaluateDatapiece(nx, x, fit2, b2, kind);
    var h :- ComposeMode(nx, d1, d2, mode, orbitalPhase);
    Ok(ScaleSeries(ConjSeries(h), norm))
  }

  /** evaluate_surrogate_mode with the call at the orbital-phase branch going to
      the two-argument re_im_to_comp it names: `(l, m) = mode` is still
      unpacked, and the result is the coorbital-frame mode re + i im, which
      coorbital_to_inertial turns into the inertial frame afterwards. */
  function EvaluateSurrogateModeCoorbital(nx: Numerics, x: Param, fit1: FitData, fit2: FitData,
                                          b1: Matrix, b2: Matrix, kind: FitKind, norm: real,
                                          mode: Option<Mode>, orbitalPhase: Option<seq<real>>)
    : (r: Result<Series>)
    ensures orbitalPhase.None? ==> r == EvaluateSurrogateMode(nx, x, fit1, fit2, b1, b2, kind, norm, mode, None)
    ensures kind != Spline1d ==> r.Err?
    ensures orbitalPhase.Some? && mode.None? ==> r.Err?
  {
    var d1 :- EvaluateDatapiece(nx, x, fit1, b1, kind);
    var d2 :- EvaluateDatapiece(nx, x, fit2, b2, kind);
    var h :- if orbitalPhase.None? then AmpPhToComp(nx, d1, d2)
             else if mode.None? then Err(NoneOperand)
             else ReImToComp(d1, d2);
    Ok(ScaleSeries(ConjSeries(h), norm))
  }

  /** In the coorbital reading a higher mode is conj(re + i im) * norm sample
      by sample, whatever the orbital phase passed. */
  lemma CoorbitalMode(nx: Numerics, x: Param, fit1: FitData, fit2: FitData, b1: Matrix, b2: Matrix,
                      norm: real, mode: Mode, phi: seq<real>)
    requires WellShaped(fit1, b1) && WellShaped(fit2, b2) && b1.width == b2.width
    ensures var r := EvaluateSurrogateModeCoorbital(nx, x, fit1, fit2, b1, b2, Spline1d, norm, Some(mode), Some(phi));
      var re := EvaluateDatapiece(nx, x, fit1, b1, Spline1d).value;
      var im := EvaluateDatapiece(nx, x, fit2, b2, Spline1d).value;
      r.Ok? && |r.value| == b1.width &&
      forall i :: 0 <= i < b1.width ==> r.value[i] == Scale(Conj(Complex(re[i], im[i])), norm)
  {
  }

  /** Every mode evaluated with an orbital phase fails as written, however the fits evaluate. */
  lemma AsWrittenRejectsOrbitalPhase(nx: Numerics, x: Param, fit1: FitData, fit2: FitData,
                                     b1: Matrix, b2: Matrix, norm: real, mode: Mode, phi: seq<real>)
    requires |fit1.eimIndices| <= |fit1.splines| && |fit1.eimIndices| == |b1.rows|
    requires |fit2.eimIndices| <= |fit2.splines| && |fit2.eimIndices| == |b2.rows|
    requires b1.width == b2.width == |phi|
    ensures EvaluateSurrogateModeAsWritten(nx, x, fit1, fit2, b1, b2, Spline1d, norm, Some(mode), Some(phi))
         == Err(WrongArgumentCount)
    ensures EvaluateSurrogateMode(nx, x, fit1, fit2, b1, b2, Spline1d, norm, Some(mode), Some(phi)).Ok?
  {
  }

  /** Without an orbital phase both definitions agree. */
  lemma AsWrittenAgreesWithoutPhase(nx: Numerics, x: Param, fit1: FitData, fit2: FitData,
                                    b1: Matrix, b2: Matrix, kind: FitKind, norm: real, mode: Option<Mode>)
    ensures EvaluateSurrogateModeAsWritten(nx, x, fit1, fit2, b1, b2, kind, norm, mode, None)
         == EvaluateSurrogateMode(nx, x, fit1, fit2, b1, b2, kind, norm, mode, None)
  {
  }

  /** With no orbital phase the mode is conj(amp * exp(i * phase)) * norm, sample by sample. */
  lemma AmpPhaseMode(nx: Numerics, x: Param, fit1: FitData, fit2: FitData, b1: Matrix, b2: Matrix,
                     norm: real, mode: Option<Mode>)
    requires |fit1.eimIndices| <= |fit1.splines| && |fit1.eimIndices| == |b1.rows|
    requires |fit2.eimIndices| <= |fit2.splines| && |fit2.eimIndices| == |b2.rows|
    requires b1.width == b2.width
    ensures var r := EvaluateSurrogateMode(nx, x, fit1, fit2, b1, b2, Spline1d, norm, mode, None);
      var amp := EvaluateDatapiece(nx, x, fit1, b1, Spline1d).value;
      var phase := EvaluateDatapiece(nx, x, fit2, b2, Spline1d).value;
      r.Ok? && |r.value| == b1.width &&
      forall i :: 0 <= i < b1.width ==> r.value[i] == Scale(Conj(Mul(FromReal(amp[i]), nx.cis(phase[i]))), norm)
  {
  }

  /** With an orbital phase the mode is conj((re + i im) * exp(i m phi)) * norm, sample by sample. */
  lemma ReImMode(nx: Numerics, x: Param, fit1: FitData, fit2: FitData, b1: Matrix, b2: Matrix,
                 norm: real, mode: Mode, phi: seq<real>)
    requires |fit1.eimIndices| <= |fit1.splines| && |fit1.eimIndices| == |b1.rows|
    requires |fit2.eimIndices| <= |fit2.splines| && |fit2.eimIndices| == |b2.rows|
    requires b1.width == b2.width == |phi|
    ensures var r := EvaluateSurrogateMode(nx, x, fit1, fit2, b1, b2, Spline1d, norm, Some(mode), Some(phi));
      var re := EvaluateDatapiece(nx, x, fit1, b1, Spline1d).value;
      var im := EvaluateDatapiece(nx, x, fit2, b2, Spline1d).value;
      r.Ok? && |r.value| == |phi| &&
      forall i :: 0 <= i < |phi| ==>
        r.value[i] == Scale(Conj(Mul(Complex(re[i], im[i]), nx.cis(Angle(mode.m, phi[i])))), norm)
  {
    var re := EvaluateDatapiece(nx, x, fit1, b1, Spline1d).value;
    var im := EvaluateDatapiece(nx, x, fit2, b2, Spline1d).value;
    var h := ReImToCompRotated(nx, re, im, mode.m, phi);
    assert h.Ok? && |h.value| == |phi|;
    assert EvaluateSurrogateMode(nx, x, fit1, fit2, b1, b2, Spline1d, norm, Some(mode), Some(phi))
        == Ok(ScaleSeries(ConjSeries(h.value), norm));
  }

  lemma ScaleSeriesTwice(h: Series, n: real, k: real)
    ensures ScaleSeries(h, n * k) == ScaleSeries(ScaleSeries(h, n), k)
  {
    forall i | 0 <= i < |h| ensures Scale(h[i], n * k) == Scale(Scale(h[i], n), k) {
      assert h[i].re * (n * k) == (h[i].re * n) * k;
      assert h[i].im * (n * k) == (h[i].im * n) * k;
    }
  }

  /** The normalisation multiplies the final mode: scaling it scales the result. */
  lemma NormScalesMode(nx: Numerics, x: Param, fit1: FitData, fit2: FitData, b1: Matrix, b2: Matrix,
                       kind: FitKind, norm: real, k: real, mode: Option<Mode>, orbitalPhase: Option<seq<real>>)
    ensures var r1 := EvaluateSurrogateMode(nx, x, fit1, fit2, b1, b2, kind, norm * k, mode, orbitalPhase);
      var r0 := EvaluateSurrogateMode(nx, x, fit1, fit2, b1, b2, kind, norm, mode, orbitalPhase);
      r1.Ok? == r0.Ok? && (r1.Ok? ==> r1.value == ScaleSeries(r0.value, k))
  {
    var d1 := EvaluateDatapiece(nx, x, fit1, b1, kind);
    var d2 := EvaluateDatapiece(nx, x, fit2, b2, kind);
    if d1.Ok? && d2.Ok? {
      var h := ComposeMode(nx, d1.value, d2.value, mode, orbitalPhase);
      if h.Ok? {
        ScaleSeriesTwice(ConjSeries(h.value), norm, k);
      }
    }
  }
}
