/** The generic evaluation driver of the surrogate models
    (surrogates/model_utils/eval_surrogates.py): validate the inputs, build
    the raw modes, then post-process them. */
module EvalSurrogates {
  import opened Errors
  import opened Complex
  import opened Numerics
  import opened Modes
  import opened Fits
  import opened CheckInputs
  import opened Utils
  import RawSurrogate

  /** The raw-mode generator `fits.all_modes_surrogate(modes, X_sur, ..., lmax, ...)`.
      Its definition is not part of this model: it is a parameter that
      receives the modes, X_sur and lmax, with the fit tables, the fit_func
      flag, the decomposition functions and the normalisation bound in it. */
  type RawGenerator = (seq<Mode>, Param, int) -> Result<ModeDict>

  /** evaluate_surrogate. */
  function EvaluateSurrogate<X>(nx: Numerics, xSur: Param, xCalib: X, bounds: seq<seq<real>>, time: seq<real>,
                                modes: seq<Mode>, available: seq<Mode>,
                                coefsAlpha: map<Mode, seq<real>>, coefsBeta: seq<real>,
                                form: (X, real, real, real, real) -> real, calibrated: bool,
                                mTot: Option<real>, distMpc: Option<real>, orbPhase: Option<real>,
                                inclination: Option<real>, allModes: RawGenerator,
                                modeSum: bool, negModes: bool, lmax: int, coorbToInert: bool)
    : (r: Result<Output>)
    ensures var c := CheckUserInputs(xSur, bounds, modes, available, mTot, distMpc, orbPhase, inclination, modeSum);
      c.Err? ==> r == Err(c.error)
    ensures var c := CheckUserInputs(xSur, bounds, modes, available, mTot, distMpc, orbPhase, inclination, modeSum);
      var raw := allModes(modes, xSur, lmax);
      c.Ok? ==> ((raw.Err? ==> r == Err(raw.error)) &&
        (raw.Ok? ==>
          var p := ProcessedOutput(nx, xCalib, time, raw.value, coefsAlpha, coefsBeta, form, calibrated,
                                   mTot, distMpc, orbPhase, inclination, modeSum, negModes, coorbToInert);
          (p.Err? ==> r == Err(p.error)) &&
          (p.Ok? && p.value.NoOutput? ==> r == Err(NoneOperand)) &&
          (p.Ok? && !p.value.NoOutput? ==> r == p)))
    ensures r.Ok? ==> !r.value.NoOutput?
  {
    var _ :- CheckUserInputs(xSur, bounds, modes, available, mTot, distMpc, orbPhase, inclination, modeSum);
    var raw :- allModes(modes, xSur, lmax);
    var out :- ProcessedOutput(nx, xCalib, time, raw, coefsAlpha, coefsBeta, form, calibrated, mTot, distMpc,
                               orbPhase, inclination, modeSum, negModes, coorbToInert);
    // `t_surrogate, h_surrogate = ...` unpacks the None of a mode sum without all four extrinsics.
    if out.NoOutput? then Err(NoneOperand) else Ok(out)
  }

  /** A mode sum with mass and distance but no angles passes the checks and
      then never returns a result: unpacking the None the post-processing
      returns raises, whatever the raw generator gives. */
  lemma ModeSumWithoutAnglesRaises<X>(nx: Numerics, xSur: Param, xCalib: X, bounds: seq<seq<real>>,
                                      time: seq<real>, modes: seq<Mode>, available: seq<Mode>,
                                      coefsAlpha: map<Mode, seq<real>>, coefsBeta: seq<real>,
                                      form: (X, real, real, real, real) -> real, calibrated: bool,
                                      mTot: real, distMpc: real, allModes: RawGenerator,
                                      negModes: bool, lmax: int, coorbToInert: bool)
    ensures EvaluateSurrogate(nx, xSur, xCalib, bounds, time, modes, available, coefsAlpha, coefsBeta, form,
                              calibrated, Some(mTot), Some(distMpc), None, None, allModes, true, negModes, lmax,
                              coorbToInert).Err?
  {
    var raw := allModes(modes, xSur, lmax);
    if raw.Ok? {
      ProcessedSumNeedsExtrinsics(nx, xCalib, time, raw.value, coefsAlpha, coefsBeta, form, calibrated,
                                  Some(mTot), Some(distMpc), None, None, negModes, coorbToInert);
    }
  }

  /** The checks come before any fit is evaluated: when they fail the raw
      generator is irrelevant, and a mode outside the available set or a
      half-given extrinsic pair always fails. */
  lemma ChecksBeforeEvaluation<X>(nx: Numerics, xSur: Param, xCalib: X, bounds: seq<seq<real>>, time: seq<real>,
                                  modes: seq<Mode>, available: seq<Mode>,
                                  coefsAlpha: map<Mode, seq<real>>, coefsBeta: seq<real>,
                                  form: (X, real, real, real, real) -> real, calibrated: bool,
                                  mTot: Option<real>, distMpc: Option<real>, orbPhase: Option<real>,
                                  inclination: Option<real>, gen1: RawGenerator, gen2: RawGenerator,
                                  modeSum: bool, negModes: bool, lmax: int, coorbToInert: bool)
    requires (exists k :: k in modes && k !in available) || mTot.Some? != distMpc.Some? ||
             orbPhase.Some? != inclination.Some?
    ensures var r1 := EvaluateSurrogate(nx, xSur, xCalib, bounds, time, modes, available, coefsAlpha, coefsBeta,
                                        form, calibrated, mTot, distMpc, orbPhase, inclination, gen1, modeSum,
                                        negModes, lmax, coorbToInert);
      var r2 := EvaluateSurrogate(nx, xSur, xCalib, bounds, time, modes, available, coefsAlpha, coefsBeta,
                                  form, calibrated, mTot, distMpc, orbPhase, inclination, gen2, modeSum,
                                  negModes, lmax, coorbToInert);
      r1.Err? && r1 == r2
  {
    var c := CheckUserInputs(xSur, bounds, modes, available, mTot, distMpc, orbPhase, inclination, modeSum);
    if mTot.Some? == distMpc.Some? && orbPhase.Some? == inclination.Some? {
      var k :| k in modes && k !in available;
      assert CheckInputModes(modes, available).Err?;
    }
    assert c.Err?;
  }

  /** The whole pipeline over the raw surrogate of BHPTNRSur1dq1e4 with no
      post-processing asked for: the output is the raw dict, whose keys are
      exactly the requested modes that are (2,2) or have l <= lmax, the same
      lmax that was passed to evaluate_surrogate. */
  lemma RawPipelineKeys<X>(nx: Numerics, xSur: Param, xCalib: X, bounds: seq<seq<real>>, time: seq<real>,
                           modes: seq<Mode>, available: seq<Mode>,
                           coefsAlpha: map<Mode, seq<real>>, coefsBeta: seq<real>,
                           form: (X, real, real, real, real) -> real,
                           kind: FitKind, norm: real, callee: RawSurrogate.Callee,
                           s: RawSurrogate.SurrogateData, lmax: int)
    ensures var gen := (m: seq<Mode>, x: Param, l: int) =>
                         RawSurrogate.RawModes(RawSurrogate.Evaluation(nx, x, kind, norm, callee), s, l, m);
      var r := EvaluateSurrogate(nx, xSur, xCalib, bounds, time, modes, available, coefsAlpha, coefsBeta, form,
                                 false, None, None, None, None, gen, false, false, lmax, false);
      r.Ok? ==> (r.value.Modes? && r.value.t == time &&
        forall k :: k in Keys(r.value.modes) <==> k in modes && (k == Mode22 || k.l <= lmax))
  {
    var ev := RawSurrogate.Evaluation(nx, xSur, kind, norm, callee);
    var raw := RawSurrogate.RawModes(ev, s, lmax, modes);
    RawSurrogate.RawModesShape(ev, s, lmax, modes);
    if raw.Ok? {
      ProcessedPassThrough(nx, xCalib, time, raw.value, coefsAlpha, coefsBeta, form, None, None);
    }
  }
}
