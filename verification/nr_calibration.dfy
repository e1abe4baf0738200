/** NR calibration of the raw point-particle (ppBHPT) modes: a per-l amplitude
    factor alpha and one time factor beta (surrogates/common_utils/nr_calibration.py). */
module NrCalibration {
  import opened Errors
  import opened Complex
  import opened Modes

  /** alpha_beta_BHPTNRSur1dq1e4: the quartic `1 + a x + b x**2 + c x**3 + d x**4`. */
  function AlphaBeta1dq1e4(x: real, a: real, b: real, c: real, d: real): (r: real)
    ensures x == 0.0 ==> r == 1.0
  {
    1.0 + a * x + b * Pow(x, 2) + c * Pow(x, 3) + d * Pow(x, 4)
  }

  /** The largest l that is calibrated; modes above it get alpha = 1. */
  const LMaxCalibrated: int := 5

  /** evaluate_alpha: the functional form at X with the four coefficients
      stored under the diagonal key (l, l); exactly 1 above the cutoff. */
  function EvaluateAlpha<X>(x: X, l: int, coefs: map<Mode, seq<real>>,
                            form: (X, real, real, real, real) -> real): (r: Result<real>)
    ensures l > LMaxCalibrated ==> r == Ok(1.0)
    ensures l <= LMaxCalibrated ==> (r.Ok? <==> Mode(l, l) in coefs && |coefs[Mode(l, l)]| >= 4)
    ensures l <= LMaxCalibrated && Mode(l, l) !in coefs ==> r == Err(KeyMissing)
    ensures l <= LMaxCalibrated && Mode(l, l) in coefs && |coefs[Mode(l, l)]| < 4 ==> r == Err(IndexOutOfRange)
    ensures r.Ok? && l <= LMaxCalibrated ==>
      var c := coefs[Mode(l, l)]; r.value == form(x, c[0], c[1], c[2], c[3])
  {
    if l <= LMaxCalibrated then
      if Mode(l, l) !in coefs then Err(KeyMissing)
      else
        var c := coefs[Mode(l, l)];
        if |c| < 4 then Err(IndexOutOfRange) else Ok(form(x, c[0], c[1], c[2], c[3]))
    else Ok(1.0)
  }

  /** Alpha depends on the coefficient table only through its (l, l) entry. */
  lemma AlphaKeyedOnDiagonal<X>(x: X, l: int, c1: map<Mode, seq<real>>, c2: map<Mode, seq<real>>,
                                form: (X, real, real, real, real) -> real)
    requires Mode(l, l) in c1 <==> Mode(l, l) in c2
    requires Mode(l, l) in c1 ==> c1[Mode(l, l)] == c2[Mode(l, l)]
    ensures EvaluateAlpha(x, l, c1, form) == EvaluateAlpha(x, l, c2, form)
  {
  }

  /** evaluate_beta: the functional form at X with the first four coefficients. */
  function EvaluateBeta<X>(x: X, coefs: seq<real>, form: (X, real, real, real, real) -> real): (r: Result<real>)
    ensures r.Ok? <==> |coefs| >= 4
    ensures r.Err? ==> r.error == IndexOutOfRange
    ensures r.Ok? ==> r.value == form(x, coefs[0], coefs[1], coefs[2], coefs[3])
  {
    if |coefs| < 4 then Err(IndexOutOfRange) else Ok(form(x, coefs[0], coefs[1], coefs[2], coefs[3]))
  }

  /** Beta reads only the first four coefficients. */
  lemma BetaReadsFirstFour<X>(x: X, c1: seq<real>, c2: seq<real>, form: (X, real, real, real, real) -> real)
    requires |c1| >= 4 && |c2| >= 4 && c1[..4] == c2[..4]
    ensures EvaluateBeta(x, c1, form) == EvaluateBeta(x, c2, form)
  {
    assert c1[0] == c1[..4][0] && c1[1] == c1[..4][1] && c1[2] == c1[..4][2] && c1[3] == c1[..4][3];
    assert c2[0] == c2[..4][0] && c2[1] == c2[..4][1] && c2[2] == c2[..4][2] && c2[3] == c2[..4][3];
  }

  /** alpha_scaling_h: the strain multiplied by alpha. */
  function AlphaScalingH(h: Series, alpha: real): (r: Series)
    ensures |r| == |h|
    ensures forall i :: 0 <= i < |h| ==> r[i].re == h[i].re * alpha && r[i].im == h[i].im * alpha
  {
    ScaleSeries(h, alpha)
  }

  /** An alpha of exactly 1 returns the strain unchanged. */
  lemma AlphaOneKeepsStrain(h: Series)
    ensures AlphaScalingH(h, 1.0) == h
  {
    forall i | 0 <= i < |h| ensures AlphaScalingH(h, 1.0)[i] == h[i] {
      var c := h[i];
      assert c == Complex(c.re, c.im);
    }
  }

  /** beta_scaling_time: every time sample multiplied by the same beta. */
  function BetaScalingTime(t: seq<real>, beta: real): (r: seq<real>)
    ensures |r| == |t|
    ensures forall i :: 0 <= i < |t| ==> r[i] == t[i] * beta
    ensures forall i, j :: 0 <= i < |t| && 0 <= j < |t| && t[i] != 0.0 && t[j] != 0.0 ==>
      r[i] / t[i] == r[j] / t[j]
  {
    ScaleReals(t, beta)
  }

  /** One iteration of the calibration loop: the mode scaled by the alpha of its l. */
  function CalibrateEntry<X>(x: X, coefs: map<Mode, seq<real>>, form: (X, real, real, real, real) -> real,
                             e: Entry): (r: Result<Series>)
    ensures r.Ok? <==> EvaluateAlpha(x, e.mode.l, coefs, form).Ok?
    ensures r.Ok? ==> r.value == AlphaScalingH(e.h, EvaluateAlpha(x, e.mode.l, coefs, form).value)
  {
    var alpha :- EvaluateAlpha(x, e.mode.l, coefs, form);
    Ok(AlphaScalingH(e.h, alpha))
  }

  function CalibrationStep<X>(x: X, coefs: map<Mode, seq<real>>, form: (X, real, real, real, real) -> real)
    : Entry -> Result<Series>
  {
    (e: Entry) => CalibrateEntry(x, coefs, form, e)
  }

  /** generate_calibrated_ppBHPT: every mode rescaled in dict order, then beta
      evaluated and the time axis rescaled. */
  function CalibratedPpBHPT<X>(x: X, time: seq<real>, d: ModeDict, coefsAlpha: map<Mode, seq<real>>,
                               coefsBeta: seq<real>, form: (X, real, real, real, real) -> real)
    : Result<(seq<real>, ModeDict)>
  {
    var hcal :- FillFrom(d, CalibrationStep(x, coefsAlpha, form));
    var beta :- EvaluateBeta(x, coefsBeta, form);
    Ok((BetaScalingTime(time, beta), hcal))
  }

  method GenerateCalibratedPpBHPT<X>(x: X, time: seq<real>, d: ModeDict, coefsAlpha: map<Mode, seq<real>>,
                                     coefsBeta: seq<real>, form: (X, real, real, real, real) -> real)
    returns (r: Result<(seq<real>, ModeDict)>)
    ensures r == CalibratedPpBHPT(x, time, d, coefsAlpha, coefsBeta, form)
  {
    var hcal: ModeDict := [];
    var i := 0;
    while i < |d|
      invariant 0 <= i <= |d|
      invariant FillFrom(d[..i], CalibrationStep(x, coefsAlpha, form)) == Ok(hcal)
    {
      var alpha := EvaluateAlpha(x, d[i].mode.l, coefsAlpha, form);
      if alpha.Err? {
        assert d[..i + 1][..i] == d[..i];
        assert FillFrom(d[..i + 1], CalibrationStep(x, coefsAlpha, form)).Err?;
        FillFromPrefixError(d, i + 1, CalibrationStep(x, coefsAlpha, form));
        return Err(alpha.error);
      }
      FillFromStep(d, i, CalibrationStep(x, coefsAlpha, form), hcal);
      hcal := Put(hcal, d[i].mode, AlphaScalingH(d[i].h, alpha.value));
      i := i + 1;
    }
    assert d[..|d|] == d;
    var beta := EvaluateBeta(x, coefsBeta, form);
    if beta.Err? {
      return Err(beta.error);
    }
    var tCalib := BetaScalingTime(time, beta.value);
    return Ok((tCalib, hcal));
  }

  /** Calibration succeeds exactly when every mode finds its alpha and beta has
      four coefficients; it keeps the keys and their order, scales each mode by
      the alpha of its l, and scales the time axis by beta. */
  lemma CalibrationShape<X>(x: X, time: seq<real>, d: ModeDict, coefsAlpha: map<Mode, seq<real>>,
                            coefsBeta: seq<real>, form: (X, real, real, real, real) -> real)
    requires Distinct(d)
    ensures var r := CalibratedPpBHPT(x, time, d, coefsAlpha, coefsBeta, form);
      (r.Ok? <==> (forall i :: 0 <= i < |d| ==> EvaluateAlpha(x, d[i].mode.l, coefsAlpha, form).Ok?) &&
                  |coefsBeta| >= 4) &&
      (r.Ok? ==>
        r.value.0 == ScaleReals(time, EvaluateBeta(x, coefsBeta, form).value) &&
        Keys(r.value.1) == Keys(d) &&
        forall i :: 0 <= i < |d| ==>
          r.value.1[i].h == ScaleSeries(d[i].h, EvaluateAlpha(x, d[i].mode.l, coefsAlpha, form).value))
  {
    var f := CalibrationStep(x, coefsAlpha, form);
    FillFromOk(d, f);
    FillFromDistinct(d, f);
  }

  /** Looking up a mode in the calibrated dict finds it scaled by the alpha of its l. */
  lemma CalibratedLookup<X>(x: X, time: seq<real>, d: ModeDict, coefsAlpha: map<Mode, seq<real>>,
                            coefsBeta: seq<real>, form: (X, real, real, real, real) -> real, i: nat)
    requires Distinct(d) && i < |d|
    requires CalibratedPpBHPT(x, time, d, coefsAlpha, coefsBeta, form).Ok?
    ensures EvaluateAlpha(x, d[i].mode.l, coefsAlpha, form).Ok?
    ensures Get(CalibratedPpBHPT(x, time, d, coefsAlpha, coefsBeta, form).value.1, d[i].mode)
         == Some(ScaleSeries(d[i].h, EvaluateAlpha(x, d[i].mode.l, coefsAlpha, form).value))
  {
    CalibrationShape(x, time, d, coefsAlpha, coefsBeta, form);
    var hcal := CalibratedPpBHPT(x, time, d, coefsAlpha, coefsBeta, form).value.1;
    FillFromDistinct(d, CalibrationStep(x, coefsAlpha, form));
    DistinctSameKeys(d, hcal);
    GetAt(hcal, i);
  }

  /** Two modes with the same l are scaled by one and the same alpha. */
  lemma SameLSameAlpha<X>(x: X, time: seq<real>, d: ModeDict, coefsAlpha: map<Mode, seq<real>>,
                          coefsBeta: seq<real>, form: (X, real, real, real, real) -> real, i: nat, j: nat)
    requires Distinct(d) && i < |d| && j < |d| && d[i].mode.l == d[j].mode.l
    requires CalibratedPpBHPT(x, time, d, coefsAlpha, coefsBeta, form).Ok?
    ensures exists alpha: real ::
      Get(CalibratedPpBHPT(x, time, d, coefsAlpha, coefsBeta, form).value.1, d[i].mode) == Some(ScaleSeries(d[i].h, alpha)) &&
      Get(CalibratedPpBHPT(x, time, d, coefsAlpha, coefsBeta, form).value.1, d[j].mode) == Some(ScaleSeries(d[j].h, alpha))
  {
    CalibratedLookup(x, time, d, coefsAlpha, coefsBeta, form, i);
    CalibratedLookup(x, time, d, coefsAlpha, coefsBeta, form, j);
    var alpha := EvaluateAlpha(x, d[i].mode.l, coefsAlpha, form).value;
    assert Get(CalibratedPpBHPT(x, time, d, coefsAlpha, coefsBeta, form).value.1, d[i].mode) == Some(ScaleSeries(d[i].h, alpha));
  }

  /** Modes above the cutoff come out of calibration unchanged. */
  lemma HighModesUncalibrated<X>(x: X, time: seq<real>, d: ModeDict, coefsAlpha: map<Mode, seq<real>>,
                                 coefsBeta: seq<real>, form: (X, real, real, real, real) -> real, i: nat)
    requires Distinct(d) && i < |d| && d[i].mode.l > LMaxCalibrated
    requires CalibratedPpBHPT(x, time, d, coefsAlpha, coefsBeta, form).Ok?
    ensures Get(CalibratedPpBHPT(x, time, d, coefsAlpha, coefsBeta, form).value.1, d[i].mode) == Some(d[i].h)
  {
    CalibratedLookup(x, time, d, coefsAlpha, coefsBeta, form, i);
    AlphaOneKeepsStrain(d[i].h);
  }
}
