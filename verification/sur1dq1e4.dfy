/** The older top-level entry point of BHPTNRSur1dq1e4
    (surrogates/BHPTNRSur1dq1e4.py, generate_surrogate): raw modes, NR
    calibration, negative-m modes, SI units, the sphere and the mode sum, with
    the paired-parameter checks raised between the stages. */
module Sur1dq1e4 {
  import opened Errors
  import opened Complex
  import opened Numerics
  import opened Modes
  import opened Utils
  import NrCalibration
  import NrCalibrationLegacy
  import RawSurrogate
  import RawSurrogateLegacy

  /** The 25 modes of the model, (2,2) first. */
  function DefaultModes(): (r: seq<Mode>)
    ensures |r| == 25 && r[0] == Mode22
    ensures forall i :: 0 <= i < |r| ==> 2 <= r[i].l <= 10 && 0 < r[i].m <= r[i].l
  {
    [Mode(2, 2), Mode(2, 1), Mode(3, 1), Mode(3, 2), Mode(3, 3), Mode(4, 2), Mode(4, 3), Mode(4, 4),
     Mode(5, 3), Mode(5, 4), Mode(5, 5), Mode(6, 4), Mode(6, 5), Mode(6, 6), Mode(7, 5), Mode(7, 6),
     Mode(7, 7), Mode(8, 6), Mode(8, 7), Mode(8, 8), Mode(9, 7), Mode(9, 8), Mode(9, 9), Mode(10, 8),
     Mode(10, 9)]
  }

  /** The default list holds no mode twice. */
  lemma DefaultModesDistinct()
    ensures var r := DefaultModes(); forall i, j :: 0 <= i < j < |r| ==> r[i] != r[j]
  {
    var r := DefaultModes();
    assert forall n :: 0 <= n < |r| - 1 ==> Rank(r[n]) < Rank(r[n + 1]);
    RankIncreasingDistinct(r);
  }

  /** The order of the default list: (2,2) first, then by l and then by m. */
  function Rank(k: Mode): int {
    if k == Mode22 then 0 else 100 * k.l + k.m
  }

  /** A list whose ranks increase step by step has increasing ranks throughout. */
  lemma {:induction false} RankIncreasing(r: seq<Mode>, i: nat, j: nat)
    requires forall n :: 0 <= n < |r| - 1 ==> Rank(r[n]) < Rank(r[n + 1])
    requires i < j < |r|
    ensures Rank(r[i]) < Rank(r[j])
    decreases j - i
  {
    if j > i + 1 {
      RankIncreasing(r, i, j - 1);
    }
  }

  /** ... and so holds no mode twice. */
  lemma RankIncreasingDistinct(r: seq<Mode>)
    requires forall n :: 0 <= n < |r| - 1 ==> Rank(r[n]) < Rank(r[n + 1])
    ensures forall i, j :: 0 <= i < j < |r| ==> r[i] != r[j]
  {
    forall i, j | 0 <= i < j < |r| ensures r[i] != r[j] {
      RankIncreasing(r, i, j);
    }
  }

  /** Default keyword values of generate_surrogate. */
  const DefaultNegModes: bool := true
  const DefaultModeSum: bool := false
  const DefaultLmax: int := 5
  const DefaultCalibrated: bool := true

  /** `modes=None` selects the default list. */
  function ModesOrDefault(modes: Option<seq<Mode>>): (r: seq<Mode>)
    ensures modes.None? ==> r == DefaultModes()
    ensures modes.Some? ==> r == modes.value
  {
    if modes.None? then DefaultModes() else modes.value
  }

  /** Calibration with the older helper when asked for, else the stored time and the raw modes. */
  function OldCalibrationStage(q: real, time: seq<real>, raw: ModeDict, coefsAlpha: map<Mode, seq<real>>,
                               coefsBeta: seq<real>, calibrated: bool): (r: Result<(seq<real>, ModeDict)>)
    ensures !calibrated ==> r == Ok((time, raw))
  {
    if calibrated then NrCalibrationLegacy.CalibratedPpBHPT(q, time, raw, coefsAlpha, coefsBeta)
    else Ok((time, raw))
  }

  /** SI units and the sphere, raising when exactly one of a pair is given. */
  function OldExtrinsicStage(nx: Numerics, t: seq<real>, d: ModeDict, mTot: Option<real>, distMpc: Option<real>,
                             orbPhase: Option<real>, inclination: Option<real>): (r: Result<(seq<real>, ModeDict)>)
    ensures mTot.Some? != distMpc.Some? ==> r == Err(MassDistanceUnpaired)
    ensures mTot.None? && distMpc.None? ==> r == Ok((t, d))
    ensures mTot.Some? && distMpc.Some? && orbPhase.Some? != inclination.Some? ==> r.Err?
  {
    if mTot.Some? && distMpc.Some? then
      match SIWaveform(nx, t, d, mTot.value, distMpc.value)
      case Err(e) => Err(e)
      case Ok(si) =>
        if orbPhase.Some? && inclination.Some? then
          match SphereModes(nx, inclination, orbPhase, si.1)
          case Err(e) => Err(e)
          case Ok(sky) => Ok((si.0, sky))
        else if orbPhase.Some? != inclination.Some? then Err(AnglesUnpaired)
        else Ok(si)
    else if mTot.Some? != distMpc.Some? then Err(MassDistanceUnpaired)
    else Ok((t, d))
  }

  /** The mode sum, which raises unless all four extrinsic values are given. */
  function OldSumStage(t: seq<real>, d: ModeDict, modeSum: bool, mTot: Option<real>, distMpc: Option<real>,
                       orbPhase: Option<real>, inclination: Option<real>): (r: Result<Output>)
    ensures !modeSum ==> r == Ok(Modes(t, d))
    ensures modeSum && !(mTot.Some? && distMpc.Some? && orbPhase.Some? && inclination.Some?) ==>
      r == Err(ModeSumWithoutExtrinsics)
  {
    if !modeSum then Ok(Modes(t, d))
    else if mTot.Some? && distMpc.Some? && orbPhase.Some? && inclination.Some? then
      match ModeSum(d)
      case Err(e) => Err(e)
      case Ok(h) => Ok(Summed(t, h))
    else Err(ModeSumWithoutExtrinsics)
  }

  /** generate_surrogate, with the fit tables and the calibration coefficients
      loaded at import time passed in. */
  function GenerateSurrogate(nx: Numerics, s: RawSurrogate.SurrogateData, time: seq<real>,
                             coefsAlpha: map<Mode, seq<real>>, coefsBeta: seq<real>,
                             q: real, modes: Option<seq<Mode>>, mTot: Option<real>, distMpc: Option<real>,
                             orbPhase: Option<real>, inclination: Option<real>, negModes: bool,
                             modeSum: bool, lmax: int, calibrated: bool): (r: Result<Output>)
    ensures var raw := RawSurrogateLegacy.LegacyModes(nx, q, s, lmax, ModesOrDefault(modes));
      raw.Err? ==> r == Err(raw.error)
    ensures mTot.Some? != distMpc.Some? ==> r.Err?
    ensures r.Ok? && !modeSum ==> r.value.Modes?
    ensures r.Ok? && modeSum ==> r.value.Summed?
  {
    var raw :- RawSurrogateLegacy.LegacyModes(nx, q, s, lmax, ModesOrDefault(modes));
    OldPostProcessing(nx, q, time, raw, coefsAlpha, coefsBeta, mTot, distMpc, orbPhase, inclination, negModes,
                      modeSum, calibrated)
  }

  /** The stages of generate_surrogate after the raw modes, in their order. */
  function OldPostProcessing(nx: Numerics, q: real, time: seq<real>, raw: ModeDict,
                             coefsAlpha: map<Mode, seq<real>>, coefsBeta: seq<real>,
                             mTot: Option<real>, distMpc: Option<real>, orbPhase: Option<real>,
                             inclination: Option<real>, negModes: bool, modeSum: bool,
                             calibrated: bool): Result<Output>
  {
    var cal :- OldCalibrationStage(q, time, raw, coefsAlpha, coefsBeta, calibrated);
    var h1 :- NegativeStage(cal.1, negModes);
    var ext :- OldExtrinsicStage(nx, cal.0, h1, mTot, distMpc, orbPhase, inclination);
    OldSumStage(ext.0, ext.1, modeSum, mTot, distMpc, orbPhase, inclination)
  }

  /** The paired parameters and the mode sum are consistent. */
  predicate ExtrinsicsConsistent(mTot: Option<real>, distMpc: Option<real>, orbPhase: Option<real>,
                                 inclination: Option<real>, modeSum: bool) {
    mTot.Some? == distMpc.Some? &&
    (mTot.Some? ==> orbPhase.Some? == inclination.Some?) &&
    (modeSum ==> mTot.Some? && distMpc.Some? && orbPhase.Some? && inclination.Some?)
  }

  /** With consistent extrinsic parameters and q != 0 the older pipeline is
      the newer post-processing (no frame transform, calibration at X = 1/q
      with the quartic form) applied to the older raw modes. */
  lemma OldPipelineIsProcessedOutput(nx: Numerics, s: RawSurrogate.SurrogateData, time: seq<real>,
                                     coefsAlpha: map<Mode, seq<real>>, coefsBeta: seq<real>,
                                     q: real, modes: Option<seq<Mode>>, mTot: Option<real>, distMpc: Option<real>,
                                     orbPhase: Option<real>, inclination: Option<real>, negModes: bool,
                                     modeSum: bool, lmax: int, calibrated: bool)
    requires q != 0.0 && ExtrinsicsConsistent(mTot, distMpc, orbPhase, inclination, modeSum)
    ensures var raw := RawSurrogateLegacy.LegacyModes(nx, q, s, lmax, ModesOrDefault(modes));
      var r := GenerateSurrogate(nx, s, time, coefsAlpha, coefsBeta, q, modes, mTot, distMpc, orbPhase,
                                 inclination, negModes, modeSum, lmax, calibrated);
      (raw.Err? ==> r == Err(raw.error)) &&
      (raw.Ok? ==> r == ProcessedOutput(nx, 1.0 / q, time, raw.value, coefsAlpha, coefsBeta,
                                        NrCalibration.AlphaBeta1dq1e4, calibrated, mTot, distMpc, orbPhase,
                                        inclination, modeSum, negModes, false))
  {
    var raw := RawSurrogateLegacy.LegacyModes(nx, q, s, lmax, ModesOrDefault(modes));
    if raw.Ok? {
      OldPostProcessingAgrees(nx, q, time, raw.value, coefsAlpha, coefsBeta, mTot, distMpc, orbPhase,
                              inclination, negModes, modeSum, calibrated);
    }
  }

  /** The stage-by-stage half of OldPipelineIsProcessedOutput. */
  lemma OldPostProcessingAgrees(nx: Numerics, q: real, time: seq<real>, raw: ModeDict,
                                coefsAlpha: map<Mode, seq<real>>, coefsBeta: seq<real>,
                                mTot: Option<real>, distMpc: Option<real>, orbPhase: Option<real>,
                                inclination: Option<real>, negModes: bool, modeSum: bool, calibrated: bool)
    requires q != 0.0 && ExtrinsicsConsistent(mTot, distMpc, orbPhase, inclination, modeSum)
    ensures OldPostProcessing(nx, q, time, raw, coefsAlpha, coefsBeta, mTot, distMpc, orbPhase, inclination,
                              negModes, modeSum, calibrated)
         == ProcessedOutput(nx, 1.0 / q, time, raw, coefsAlpha, coefsBeta, NrCalibration.AlphaBeta1dq1e4,
                            calibrated, mTot, distMpc, orbPhase, inclination, modeSum, negModes, false)
  {
    OldCalibrationAgrees(q, time, raw, coefsAlpha, coefsBeta, calibrated);
    var cal := OldCalibrationStage(q, time, raw, coefsAlpha, coefsBeta, calibrated);
    if cal.Ok? {
      var h1 := NegativeStage(cal.value.1, negModes);
      if h1.Ok? {
        OldExtrinsicAgrees(nx, cal.value.0, h1.value, mTot, distMpc, orbPhase, inclination, modeSum);
        var ext := OldExtrinsicStage(nx, cal.value.0, h1.value, mTot, distMpc, orbPhase, inclination);
        if ext.Ok? {
          OldSumAgrees(ext.value.0, ext.value.1, modeSum, mTot, distMpc, orbPhase, inclination);
        }
      }
    }
  }

  /** The older calibration stage is the common one at X = 1/q with the quartic form. */
  lemma OldCalibrationAgrees(q: real, time: seq<real>, d: ModeDict, coefsAlpha: map<Mode, seq<real>>,
                             coefsBeta: seq<real>, calibrated: bool)
    requires q != 0.0
    ensures OldCalibrationStage(q, time, d, coefsAlpha, coefsBeta, calibrated)
         == CalibrationStage(1.0 / q, time, d, coefsAlpha, coefsBeta, NrCalibration.AlphaBeta1dq1e4, calibrated)
  {
    if calibrated {
      NrCalibrationLegacy.AgreesWithCommonCalibration(q, time, d, coefsAlpha, coefsBeta);
    }
  }

  /** With consistent extrinsics the older extrinsic stage never raises a pairing error. */
  lemma OldExtrinsicAgrees(nx: Numerics, t: seq<real>, d: ModeDict, mTot: Option<real>, distMpc: Option<real>,
                           orbPhase: Option<real>, inclination: Option<real>, modeSum: bool)
    requires ExtrinsicsConsistent(mTot, distMpc, orbPhase, inclination, modeSum)
    ensures OldExtrinsicStage(nx, t, d, mTot, distMpc, orbPhase, inclination)
         == ExtrinsicStage(nx, t, d, mTot, distMpc, orbPhase, inclination)
  {
  }

  /** With consistent extrinsics the older sum stage is the common one. */
  lemma OldSumAgrees(t: seq<real>, d: ModeDict, modeSum: bool, mTot: Option<real>, distMpc: Option<real>,
                     orbPhase: Option<real>, inclination: Option<real>)
    requires ExtrinsicsConsistent(mTot, distMpc, orbPhase, inclination, modeSum)
    ensures OldSumStage(t, d, modeSum, mTot, distMpc, orbPhase, inclination)
         == SumStage(t, d, modeSum, mTot, distMpc, orbPhase, inclination)
  {
  }

  /** Exactly one of mass and distance never returns a result; once the
      earlier stages succeed the error is the paired-parameter one. */
  lemma MassDistanceUnpairedRaises(nx: Numerics, s: RawSurrogate.SurrogateData, time: seq<real>,
                                   coefsAlpha: map<Mode, seq<real>>, coefsBeta: seq<real>,
                                   q: real, modes: Option<seq<Mode>>, mTot: Option<real>, distMpc: Option<real>,
                                   orbPhase: Option<real>, inclination: Option<real>, negModes: bool,
                                   modeSum: bool, lmax: int, calibrated: bool)
    requires mTot.Some? != distMpc.Some?
    ensures var r := GenerateSurrogate(nx, s, time, coefsAlpha, coefsBeta, q, modes, mTot, distMpc, orbPhase,
                                       inclination, negModes, modeSum, lmax, calibrated);
      var raw := RawSurrogateLegacy.LegacyModes(nx, q, s, lmax, ModesOrDefault(modes));
      r.Err? &&
      ((raw.Ok? && OldCalibrationStage(q, time, raw.value, coefsAlpha, coefsBeta, calibrated).Ok? &&
        NegativeStage(OldCalibrationStage(q, time, raw.value, coefsAlpha, coefsBeta, calibrated).value.1,
                      negModes).Ok?)
       ==> r == Err(MassDistanceUnpaired))
  {
  }

  /** With mass and distance, exactly one of the two angles never returns a result. */
  lemma AnglesUnpairedRaises(nx: Numerics, s: RawSurrogate.SurrogateData, time: seq<real>,
                             coefsAlpha: map<Mode, seq<real>>, coefsBeta: seq<real>,
                             q: real, modes: Option<seq<Mode>>, mTot: real, distMpc: real,
                             orbPhase: Option<real>, inclination: Option<real>, negModes: bool,
                             modeSum: bool, lmax: int, calibrated: bool)
    requires orbPhase.Some? != inclination.Some?
    ensures GenerateSurrogate(nx, s, time, coefsAlpha, coefsBeta, q, modes, Some(mTot), Some(distMpc), orbPhase,
                              inclination, negModes, modeSum, lmax, calibrated).Err?
  {
  }

  /** Without mass and distance a lone angle, or both, are silently ignored
      when no mode sum is asked for. */
  lemma AnglesIgnoredWithoutMassDistance(nx: Numerics, s: RawSurrogate.SurrogateData, time: seq<real>,
                                         coefsAlpha: map<Mode, seq<real>>, coefsBeta: seq<real>,
                                         q: real, modes: Option<seq<Mode>>,
                                         orbPhase: Option<real>, inclination: Option<real>, negModes: bool,
                                         lmax: int, calibrated: bool)
    ensures GenerateSurrogate(nx, s, time, coefsAlpha, coefsBeta, q, modes, None, None, orbPhase,
                              inclination, negModes, false, lmax, calibrated)
         == GenerateSurrogate(nx, s, time, coefsAlpha, coefsBeta, q, modes, None, None, None,
                              None, negModes, false, lmax, calibrated)
  {
  }

  /** A mode sum without all four extrinsic values never returns a result. */
  lemma ModeSumNeedsAllExtrinsics(nx: Numerics, s: RawSurrogate.SurrogateData, time: seq<real>,
                                  coefsAlpha: map<Mode, seq<real>>, coefsBeta: seq<real>,
                                  q: real, modes: Option<seq<Mode>>, mTot: Option<real>, distMpc: Option<real>,
                                  orbPhase: Option<real>, inclination: Option<real>, negModes: bool,
                                  lmax: int, calibrated: bool)
    requires !(mTot.Some? && distMpc.Some? && orbPhase.Some? && inclination.Some?)
    ensures GenerateSurrogate(nx, s, time, coefsAlpha, coefsBeta, q, modes, mTot, distMpc, orbPhase,
                              inclination, negModes, true, lmax, calibrated).Err?
  {
  }

  /** Uncalibrated with nothing else asked for: the stored time and the raw
      modes, whose keys are the default modes that are (2,2) or have l <= lmax. */
  lemma UncalibratedDefaultModes(nx: Numerics, s: RawSurrogate.SurrogateData, time: seq<real>,
                                 coefsAlpha: map<Mode, seq<real>>, coefsBeta: seq<real>, q: real, lmax: int)
    ensures var r := GenerateSurrogate(nx, s, time, coefsAlpha, coefsBeta, q, None, None, None, None, None,
                                       false, false, lmax, false);
      var raw := RawSurrogateLegacy.LegacyModes(nx, q, s, lmax, DefaultModes());
      raw != Err(UnboundName) &&
      (raw.Err? ==> r == Err(raw.error)) &&
      (raw.Ok? ==> (r == Ok(Modes(time, raw.value)) &&
        forall k :: k in Keys(raw.value) <==> k in DefaultModes() && (k == Mode22 || k.l <= lmax)))
  {
    RawSurrogateLegacy.LegacyModesShape(nx, q, s, lmax, DefaultModes());
    RawSurrogateLegacy.LegacyTwoTwoFirstNeverUnbound(nx, q, s, lmax, DefaultModes());
  }
}
