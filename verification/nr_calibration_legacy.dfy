/** The older NR calibration used by the first BHPTNRSur1dq1e4 driver: the
    same quartic written with repeated products, evaluated at x = 1/q
    (surrogates/surrogate_utils/BHPTNRSur1dq1e4/nr_calibration.py). */
module NrCalibrationLegacy {
  import opened Errors
  import opened Complex
  import opened Modes
  import NrCalibration

  /** alpha_beta_functional_form: `1 + a x + b x x + c x x x + d x x x x`,
      which is 1 when x = 0 (the power form, by ProductFormIsPowerForm). */
  function AlphaBetaFunctionalForm(x: real, a: real, b: real, c: real, d: real): (r: real)
    ensures x == 0.0 ==> r == 1.0
  {
    1.0 + a * x + b * x * x + c * x * x * x + d * x * x * x * x
  }

  /** The product form is the power form of the newer module. */
  lemma ProductFormIsPowerForm(x: real, a: real, b: real, c: real, d: real)
    ensures AlphaBetaFunctionalForm(x, a, b, c, d) == NrCalibration.AlphaBeta1dq1e4(x, a, b, c, d)
  {
    PowersAreProducts(x);
    assert b * x * x == b * (x * x);
    assert c * x * x * x == c * (x * x * x);
    assert d * x * x * x * x == d * (x * x * x * x);
  }

  /** `x ** n` for n = 2, 3, 4 is the repeated product. */
  lemma PowersAreProducts(x: real)
    ensures Pow(x, 2) == x * x && Pow(x, 3) == x * x * x && Pow(x, 4) == x * x * x * x
  {
    assert Pow(x, 2) == x * x by { assert Pow(x, 1) == x; }
    assert Pow(x, 3) == x * (x * x);
    assert Pow(x, 4) == x * (x * x * x);
  }

  /** `1/q`, which raises on q = 0. */
  function Reciprocal(q: real): (r: Result<real>)
    ensures r.Ok? <==> q != 0.0
    ensures r.Ok? ==> r.value * q == 1.0
    ensures r.Err? ==> r.error == DivisionByZero
  {
    if q == 0.0 then Err(DivisionByZero) else Ok(1.0 / q)
  }

  /** alpha_scaling_h(q, h, l, coefs): for l up to the cutoff, alpha at 1/q
      (the division is evaluated before the coefficient lookups); above it the
      strain is returned unscaled. */
  function AlphaScalingH(q: real, h: Series, l: int, coefs: map<Mode, seq<real>>): (r: Result<Series>)
    ensures l > NrCalibration.LMaxCalibrated ==> r == Ok(h)
    ensures l <= NrCalibration.LMaxCalibrated && q == 0.0 ==> r == Err(DivisionByZero)
    ensures l <= NrCalibration.LMaxCalibrated && q != 0.0 && Mode(l, l) !in coefs ==> r == Err(KeyMissing)
    ensures l <= NrCalibration.LMaxCalibrated && q != 0.0 && Mode(l, l) in coefs && |coefs[Mode(l, l)]| < 4 ==>
      r == Err(IndexOutOfRange)
    ensures l <= NrCalibration.LMaxCalibrated && q != 0.0 && Mode(l, l) in coefs && |coefs[Mode(l, l)]| >= 4 ==>
      var c := coefs[Mode(l, l)];
      r == Ok(ScaleSeries(h, AlphaBetaFunctionalForm(1.0 / q, c[0], c[1], c[2], c[3])))
  {
    if l <= NrCalibration.LMaxCalibrated then
      var x :- Reciprocal(q);
      if Mode(l, l) !in coefs then Err(KeyMissing)
      else
        var c := coefs[Mode(l, l)];
        if |c| < 4 then Err(IndexOutOfRange)
        else Ok(ScaleSeries(h, AlphaBetaFunctionalForm(x, c[0], c[1], c[2], c[3])))
    else
      NrCalibration.AlphaOneKeepsStrain(h);
      Ok(ScaleSeries(h, 1.0))
  }

  /** beta_scaling_time(q, t, coefs): beta at 1/q scales every time sample. */
  function BetaScalingTime(q: real, t: seq<real>, coefs: seq<real>): (r: Result<seq<real>>)
    ensures r.Ok? <==> q != 0.0 && |coefs| >= 4
    ensures q == 0.0 ==> r == Err(DivisionByZero)
    ensures q != 0.0 && |coefs| < 4 ==> r == Err(IndexOutOfRange)
    ensures r.Ok? ==> |r.value| == |t|
    ensures r.Ok? ==> forall i :: 0 <= i < |t| ==>
      r.value[i] == t[i] * AlphaBetaFunctionalForm(1.0 / q, coefs[0], coefs[1], coefs[2], coefs[3])
  {
    var x :- Reciprocal(q);
    if |coefs| < 4 then Err(IndexOutOfRange)
    else
      var beta := AlphaBetaFunctionalForm(x, coefs[0], coefs[1], coefs[2], coefs[3]);
      Ok(ScaleReals(t, beta))
  }

  function CalibrationStep(q: real, coefs: map<Mode, seq<real>>): Entry -> Result<Series> {
    (e: Entry) => AlphaScalingH(q, e.h, e.mode.l, coefs)
  }

  /** generate_calibrated_ppBHPT(q, ...): every mode rescaled in dict order, then the time. */
  function CalibratedPpBHPT(q: real, time: seq<real>, d: ModeDict, coefsAlpha: map<Mode, seq<real>>,
                            coefsBeta: seq<real>): Result<(seq<real>, ModeDict)>
  {
    var hcal :- FillFrom(d, CalibrationStep(q, coefsAlpha));
    var tCalib :- BetaScalingTime(q, time, coefsBeta);
    Ok((tCalib, hcal))
  }

  method GenerateCalibratedPpBHPT(q: real, time: seq<real>, d: ModeDict, coefsAlpha: map<Mode, seq<real>>,
                                  coefsBeta: seq<real>) returns (r: Result<(seq<real>, ModeDict)>)
    ensures r == CalibratedPpBHPT(q, time, d, coefsAlpha, coefsBeta)
  {
    var hcal: ModeDict := [];
    var i := 0;
    while i < |d|
      invariant 0 <= i <= |d|
      invariant FillFrom(d[..i], CalibrationStep(q, coefsAlpha)) == Ok(hcal)
    {
      var scaled := AlphaScalingH(q, d[i].h, d[i].mode.l, coefsAlpha);
      if scaled.Err? {
        assert d[..i + 1][..i] == d[..i];
        FillFromPrefixError(d, i + 1, CalibrationStep(q, coefsAlpha));
        return Err(scaled.error);
      }
      FillFromStep(d, i, CalibrationStep(q, coefsAlpha), hcal);
      hcal := Put(hcal, d[i].mode, scaled.value);
      i := i + 1;
    }
    assert d[..|d|] == d;
    var tCalib := BetaScalingTime(q, time, coefsBeta);
    if tCalib.Err? {
      return Err(tCalib.error);
    }
    return Ok((tCalib.value, hcal));
  }

  /** For q != 0 the older calibration is the newer one called with X = 1/q
      and the quartic form. */
  lemma AgreesWithCommonCalibration(q: real, time: seq<real>, d: ModeDict, coefsAlpha: map<Mode, seq<real>>,
                                    coefsBeta: seq<real>)
    requires q != 0.0
    ensures CalibratedPpBHPT(q, time, d, coefsAlpha, coefsBeta)
         == NrCalibration.CalibratedPpBHPT(1.0 / q, time, d, coefsAlpha, coefsBeta, NrCalibration.AlphaBeta1dq1e4)
  {
    var f := CalibrationStep(q, coefsAlpha);
    var g := NrCalibration.CalibrationStep(1.0 / q, coefsAlpha, NrCalibration.AlphaBeta1dq1e4);
    forall i | 0 <= i < |d| ensures f(d[i]) == g(d[i]) {
      var l := d[i].mode.l;
      if l <= NrCalibration.LMaxCalibrated && Mode(l, l) in coefsAlpha && |coefsAlpha[Mode(l, l)]| >= 4 {
        var c := coefsAlpha[Mode(l, l)];
        ProductFormIsPowerForm(1.0 / q, c[0], c[1], c[2], c[3]);
      }
    }
    FillFromAgree(d, f, g);
    if |coefsBeta| >= 4 {
      ProductFormIsPowerForm(1.0 / q, coefsBeta[0], coefsBeta[1], coefsBeta[2], coefsBeta[3]);
    }
  }

  /** With q = 0 the older calibration always raises ZeroDivisionError, at the
      first mode with l up to the cutoff or else at beta. */
  lemma ZeroMassRatioRaises(time: seq<real>, d: ModeDict, coefsAlpha: map<Mode, seq<real>>, coefsBeta: seq<real>)
    ensures CalibratedPpBHPT(0.0, time, d, coefsAlpha, coefsBeta) == Err(DivisionByZero)
  {
    var f := CalibrationStep(0.0, coefsAlpha);
    FillFromFirstError(d, f);
    forall i | 0 <= i < |d| ensures f(d[i]).Err? ==> f(d[i]).error == DivisionByZero {
    }
  }
}
