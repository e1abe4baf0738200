# BHPTNRSurrogate: the waveform evaluation pipeline in Dafny

BHPTNRSurrogate builds gravitational-wave strain modes h(l, m) for binaries
with a small mass ratio. It uses surrogate models trained on
point-particle black-hole perturbation theory (ppBHPT) and calibrated to
numerical relativity (NR). This project models the evaluation pipeline
that runs after the fit tables are loaded. The pipeline has these parts:

- input validation;
- reconstruction of each mode from its empirical-interpolation (EIM) fits,
  with lmax filtering and the orbital phase of (2,2) carried into the
  higher modes;
- NR calibration: a per-l amplitude factor alpha and a time factor beta;
- the mode-dictionary transforms: the coorbital-to-inertial frame, the
  geometric-to-SI rescale, orbital phase rotation, negative-m completion,
  projection on the sky and mode summation;
- the three drivers that fix the stage order and where each error is raised.

How the model is built:

- **Modes.** A mode is a pair `(l, m)`. A complex sample is a pair of reals.
- **Dicts.** A Python dict of modes is an insertion-ordered sequence of
  entries. `Modes.Put` has Python's assignment semantics: it overwrites a
  present key in place and appends an absent one.
- **Loops.** Every loop that fills a dict or accumulates a value is a
  `method` with a `while` loop. That method is proved equal to a function
  that states what the loop computes, and the lemmas state the properties of
  that function.
- **Exceptions.** Each Python exception is an `Err` of a `Result`, of one of
  these kinds:
  - `ModesNotAvailable`, `MassDistanceUnpaired`, `AnglesUnpaired` and
    `ModeSumWithoutExtrinsics`: the validation errors;
  - `PhiMissing`, `NonPositiveM` and `NegativePower`;
  - `KeyMissing`: a `KeyError`;
  - `IndexOutOfRange`: an `IndexError`;
  - `ShapeMismatch`: a numpy broadcasting error;
  - `DivisionByZero`: a `ZeroDivisionError`;
  - `UnboundName`: an `UnboundLocalError` or `NameError`;
  - `NoneOperand`: arithmetic on `None`;
  - `WrongArgumentCount`: a `TypeError` from a call with the wrong number of
    arguments.

  Errors are raised in the source's evaluation order.
- **Numerics.** The numerical collaborators are uninterpreted functions and
  constants carried in one `Numerics.Numerics` value:
  - spline evaluation `splev`;
  - `exp(i x)`;
  - `np.unwrap(np.angle(h))`;
  - the spin-weighted harmonic `sYlm`;
  - `log10`;
  - the constants G, MSUN_SI, PC_SI and c.
- **Fit tables, coefficient tables and missing callees are parameters.**
  This covers the fit tables and the calibration coefficients. It also covers
  `fits.all_modes_surrogate`, which the generic driver calls but the
  repository does not define, and the calibration form of BHPTNRSur2dq1e3.

`surrogates/model_utils/BHPTNRSur1dq1e4/utils.py` repeats five transforms of
`surrogates/common_utils/utils.py` with the same code: the geometric-to-SI
rescale, the orbital phase rotation, the projection on the sky, the mode sum
and the negative-m completion. The `Utils` module models each of them once,
and the "## Model" table cites the common file.

The newer raw generator reaches `fits.evaluate_surrogate_mode` through a
`RawSurrogate.Callee`, one of three:

- `AsWritten` is the function as it stands. Its orbital-phase branch calls
  the two-argument `re_im_to_comp` with four arguments and raises TypeError
  (see "## Findings").
- `Rotating` is one repair: it composes (re + i im) exp(i m phi), as the four
  arguments suggest and as the older generator's own `re_im_to_comp` does.
- `Coorbital` is the other repair: it calls `re_im_to_comp(re, im)`, as its
  signature and its documentation suggest, and leaves the higher modes in
  the coorbital frame. The driver's `coorbital_to_inertial` stage
  (`CoorbToInert`) then rotates them.

Every lemma about the generator holds for all three.
`RawSurrogate.RawAsWrittenRaisesAtHigherMode` states what the as-written one
does to a list with a higher mode.

The two raw generators of BHPTNRSur1dq1e4 differ in one convention:

- The newer one (`RawSurrogate`) takes the orbital phase from the (2,2) mode
  after it has been conjugated and normalised.
- The older one (`RawSurrogateLegacy`) takes it from the (2,2) mode before
  conjugation.

So the two phases are opposite: `RawSurrogateLegacy.NewerPhaseNegatesLegacy`
proves that the newer phase is the negated older phase, sample by sample,
whenever unwrap(angle(.)) changes sign under conjugation.

- `RawSurrogateLegacy.Legacy22AgreesWithCommon` and
  `RawSurrogateLegacy.LegacyHmAgreesWithCommon` prove that each mode agrees
  between the older generator and the `Rotating` repair at the same phase.
  Fed its own phase, the `Rotating` repair therefore rotates the higher modes
  the opposite way.
- `RawSurrogateLegacy.CoorbitalReadingReproducesLegacy` proves that the
  `Coorbital` repair followed by `coorbital_to_inertial` gives exactly what
  the older generator returns.

## Model

| member | source | states |
|---|---|---|
| CheckInputs.CheckInputModes | surrogates/common_utils/check_inputs.py:15-19 | passes exactly when every requested mode is available, otherwise raises ModesNotAvailable |
| CheckInputs.CheckDomainOfValidity | surrogates/common_utils/check_inputs.py:28-37 | a scalar is checked as a one-element list; with bounds covering every index it never raises and warns exactly for the indices outside [lower, upper], once each, in increasing order |
| CheckInputs.WarningsFrom | surrogates/common_utils/check_inputs.py:34-37 | the warning loop from index i on: the warned indices are exactly those out of bounds |
| CheckInputs.WarnAt | surrogates/common_utils/check_inputs.py:35 | one comparison warns exactly when the value is below the lower or above the upper bound; a short bounds row raises IndexError |
| CheckInputs.DomainCheckNeverRaises | surrogates/common_utils/check_inputs.py:34-37 | a two-row bounds table covering every index never makes the check raise |
| CheckInputs.CheckExtrinsicParams | surrogates/common_utils/check_inputs.py:46-56 | exactly one of mass/distance raises, exactly one of the angles raises, and mode_sum raises only when all four are None; passes otherwise |
| CheckInputs.ModeSumPassesWithoutAngles | surrogates/common_utils/check_inputs.py:54-56 | with mode_sum, mass and distance without the two angles pass validation |
| CheckInputs.CheckUserInputs | surrogates/common_utils/check_inputs.py:80-86 | checks run extrinsic, then domain, then modes; the first failure decides the error; passes exactly when all three pass and returns the domain warnings |
| CheckInputs.ExtrinsicErrorFirst | surrogates/common_utils/check_inputs.py:80-86 | an unpaired mass/distance is reported even when some mode is also unavailable |
| Composition.AmpPhToComp | surrogates/common_utils/utils.py:13-18 | amp * exp(i phase) sample by sample for equal lengths; numpy broadcasting otherwise, and a shape mismatch raises |
| Composition.ReImToComp | surrogates/common_utils/utils.py:21-26 | re + i im sample by sample; a shape mismatch raises |
| Composition.ReImToCompRotated | surrogates/surrogate_utils/BHPTNRSur1dq1e4/generate_raw_surrogate.py:21-27 | (re + i im) * exp(i m phi) sample by sample for equal lengths; only shape errors are raised |
| Numerics.OrbitalPhase | surrogates/common_utils/utils.py:38 | the orbital phase has the length of h22 and is unwrap(angle(h22)) / 2 at each sample |
| Numerics.ConjNegatesOrbitalPhase | surrogates/common_utils/utils.py:38 | when unwrap(angle(.)) changes sign under conjugation, the orbital phase of conj(h) is minus that of h at every sample |
| Utils.CoorbitalToInertial | surrogates/common_utils/utils.py:29-44 | the loop computes InertialModes |
| Utils.CoorbitalToInertialShape | surrogates/common_utils/utils.py:34-42 | on a dict starting with (2,2), keys and order are kept, (2,2) is unchanged and every other mode is multiplied by exp(i m phi) with phi = unwrap(angle(h22)) / 2 |
| Utils.CoorbitalNeedsTwoTwoFirst | surrogates/common_utils/utils.py:34-42 | a dict whose first key is not (2,2) raises, because the orbital phase is read before it is bound |
| Utils.GeoFactors | surrogates/common_utils/utils.py:62-64 | time factor G M / c^3 and strain factor (G M / c^3) / dL; a zero divisor raises |
| Utils.GeoToSI | surrogates/common_utils/utils.py:47-69 | the loop computes SIWaveform |
| Utils.GeoToSIShape | surrogates/common_utils/utils.py:62-67 | keys and order are kept, time is scaled by G M / c^3 and every mode by the one factor (G M / c^3) / dL |
| Utils.GeoToSIRoundTrip | surrogates/common_utils/utils.py:62-67 | dividing the SI time axis by G M / c^3 recovers the geometric time, and multiplying every SI mode by dL over G M / c^3 recovers its geometric mode, keys kept |
| Utils.PhaseRotation | surrogates/common_utils/utils.py:72-85 | the loop computes RotatedModes |
| Utils.PhaseRotationShape | surrogates/common_utils/utils.py:78-83 | keys and order are kept and mode (l, m) is multiplied by exp(i m delta) |
| Utils.PhaseRotationCompose | surrogates/common_utils/utils.py:78-83 | when exp(i a) exp(i b) = exp(i (a + b)), two rotations compose into one by the sum of the angles |
| Utils.EvaluateOnSphere | surrogates/common_utils/utils.py:88-102 | the loop computes SphereModes |
| Utils.SphereModes | surrogates/common_utils/utils.py:91-100 | theta without phi raises; without theta the result is never bound |
| Utils.EvaluateOnSphereShape | surrogates/common_utils/utils.py:91-100 | with both angles, keys are kept and mode (l, m) is multiplied by sYlm(-2, l, m, theta, phi) |
| Utils.ModeSum | surrogates/common_utils/utils.py:108-111 | a dict without (2,2) raises KeyError |
| Utils.SumModes | surrogates/common_utils/utils.py:105-111 | the loop computes ModeSum |
| Utils.SumModesIsElementwiseSum | surrogates/common_utils/utils.py:108-111 | with (2,2) present and all modes of one length, the result has that length and is the elementwise sum of all modes |
| Utils.GenerateNegativeMMode | surrogates/common_utils/utils.py:115-136 | the loop computes NegativeMFrom |
| Utils.WithMirrorOf | surrogates/common_utils/utils.py:124-134 | one iteration succeeds exactly when m > 0 and l >= 0; m <= 0 raises, and a negative l raises in np.power |
| Utils.NegativeMOk | surrogates/common_utils/utils.py:128-131 | the whole loop succeeds exactly when every mode has m > 0 and l >= 0 |
| Utils.NegativeModesShape | surrogates/common_utils/utils.py:123-134 | on distinct keys with m > 0, each (l, m) is kept unchanged and followed by (l, -m) = (-1)^l conj(h(l, m)), and the keys stay distinct |
| Utils.NegativeModesNotIdempotent | surrogates/common_utils/utils.py:128-131 | applying the completion twice always raises |
| Utils.MinusOnePower | surrogates/common_utils/utils.py:133 | (-1)^l is 1 for even l and -1 for odd l |
| Utils.FrameStage | surrogates/common_utils/utils.py:180-181 | the frame transform runs only when asked for |
| Utils.CalibrationStage | surrogates/common_utils/utils.py:184-193 | uncalibrated, the raw time and modes pass through unchanged |
| Utils.NegativeStage | surrogates/common_utils/utils.py:196-197 | negative-m completion runs only when asked for |
| Utils.ExtrinsicStage | surrogates/common_utils/utils.py:200-205 | without both mass and distance nothing is rescaled |
| Utils.SumStage | surrogates/common_utils/utils.py:208-213 | without mode_sum the modes are returned; with it, the sum when all four extrinsics are given and None otherwise |
| Utils.ProcessedOutput | surrogates/common_utils/utils.py:141-213 | the five stages in order: without mode_sum a success is a mode dict; with it, a summed strain when all four extrinsics are given and None otherwise; a failing frame transform decides the error |
| Utils.ProcessedPassThrough | surrogates/common_utils/utils.py:180-213 | with every stage off, the raw time and modes come back unchanged |
| Utils.ProcessedSumNeedsExtrinsics | surrogates/common_utils/utils.py:208-213 | mode_sum with incomplete extrinsics returns None; with all four it returns a summed strain |
| Utils.ProcessedIgnoresAnglesWithoutMassDistance | surrogates/common_utils/utils.py:200-205 | without mass and distance the angles do not affect the output |
| Utils.ProcessedCalibratesBeforeSI | surrogates/common_utils/utils.py:180-213 | the stage order: time is scaled by beta and then by G M / c^3, and each mode by alpha of its l and then by the SI factor, keys kept |
| NrCalibration.AlphaBeta1dq1e4 | surrogates/common_utils/nr_calibration.py:10-15 | the quartic form is 1 at x = 0 |
| NrCalibration.EvaluateAlpha | surrogates/common_utils/nr_calibration.py:18-29 | exactly 1.0 for l > 5, whatever the coefficients; for l <= 5 the form applied to the four coefficients of key (l, l), a missing key raises KeyError and fewer than four coefficients raise IndexError |
| NrCalibration.AlphaKeyedOnDiagonal | surrogates/common_utils/nr_calibration.py:23-25 | alpha depends on the coefficient table only through its (l, l) entry |
| NrCalibration.EvaluateBeta | surrogates/common_utils/nr_calibration.py:33-40 | the form applied to coefs_beta[0..3]; fewer than four coefficients raise |
| NrCalibration.BetaReadsFirstFour | surrogates/common_utils/nr_calibration.py:38-40 | beta reads only the first four coefficients |
| NrCalibration.AlphaScalingH | surrogates/common_utils/nr_calibration.py:43-50 | every sample is multiplied by alpha |
| NrCalibration.AlphaOneKeepsStrain | surrogates/common_utils/nr_calibration.py:43-50 | alpha = 1 leaves the strain unchanged |
| NrCalibration.BetaScalingTime | surrogates/common_utils/nr_calibration.py:54-59 | every time sample is multiplied by beta, so every nonzero sample gets the same ratio |
| NrCalibration.GenerateCalibratedPpBHPT | surrogates/common_utils/nr_calibration.py:63-83 | the loop computes CalibratedPpBHPT |
| NrCalibration.CalibrationShape | surrogates/common_utils/nr_calibration.py:71-81 | succeeds exactly when every mode finds its alpha and beta has four coefficients; keys and order kept, each mode scaled by the alpha of its l, time scaled by beta |
| NrCalibration.CalibratedLookup | surrogates/common_utils/nr_calibration.py:71-76 | looking a mode up in the calibrated dict finds it scaled by the alpha of its l |
| NrCalibration.SameLSameAlpha | surrogates/common_utils/nr_calibration.py:23-25 | two modes with the same l are scaled by one alpha |
| NrCalibration.HighModesUncalibrated | surrogates/common_utils/nr_calibration.py:23-27 | modes with l > 5 come out unchanged |
| NrCalibrationLegacy.AlphaBetaFunctionalForm | surrogates/surrogate_utils/BHPTNRSur1dq1e4/nr_calibration.py:10-14 | the quartic written with repeated products is 1 at x = 0; ProductFormIsPowerForm equates it with the power form |
| NrCalibrationLegacy.ProductFormIsPowerForm | surrogates/surrogate_utils/BHPTNRSur1dq1e4/nr_calibration.py:10-14 | the repeated-product form equals the power form |
| NrCalibrationLegacy.Reciprocal | surrogates/surrogate_utils/BHPTNRSur1dq1e4/nr_calibration.py:22 | 1/q, raising on q = 0 |
| NrCalibrationLegacy.AlphaScalingH | surrogates/surrogate_utils/BHPTNRSur1dq1e4/nr_calibration.py:17-28 | l > 5 returns the series unchanged; for l <= 5, q = 0 raises ZeroDivisionError, then a missing (l,l) key raises KeyError, then fewer than four coefficients raise IndexError, and otherwise every sample is multiplied by the quartic form of 1/q with the coefficients of (l,l) |
| NrCalibrationLegacy.BetaScalingTime | surrogates/surrogate_utils/BHPTNRSur1dq1e4/nr_calibration.py:32-37 | succeeds exactly when q != 0 and there are four coefficients; q = 0 raises ZeroDivisionError, fewer coefficients IndexError; otherwise every sample is multiplied by the quartic form of 1/q with those coefficients |
| NrCalibrationLegacy.GenerateCalibratedPpBHPT | surrogates/surrogate_utils/BHPTNRSur1dq1e4/nr_calibration.py:40-51 | the loop computes CalibratedPpBHPT |
| NrCalibrationLegacy.AgreesWithCommonCalibration | surrogates/surrogate_utils/BHPTNRSur1dq1e4/nr_calibration.py:40-51 | for q != 0 it equals the common calibration called with X = 1/q and the quartic form, keys kept |
| NrCalibrationLegacy.ZeroMassRatioRaises | surrogates/surrogate_utils/BHPTNRSur1dq1e4/nr_calibration.py:34-35 | q = 0 always raises ZeroDivisionError |
| Fits.EvaluateSplinesAtEimNodes | surrogates/common_utils/fits.py:18-22 | length len(eim_indicies), entry j is splev(X, spline j); fewer splines than nodes raise |
| Fits.EimBToWaveformDatapiece | surrogates/common_utils/fits.py:26-30 | B^T . v has the column count of B and sample t is the sum over nodes j of B[j][t] v[j]; a node count that does not match the rows raises a shape error |
| Fits.EimReconstructionLinear | surrogates/common_utils/fits.py:29-30 | the reconstruction is linear in the node values |
| Fits.EimReconstructionOfUnit | surrogates/common_utils/fits.py:29-30 | node values 1 at node k and 0 elsewhere reconstruct to row k of B |
| Fits.EvaluateDatapiece | surrogates/common_utils/fits.py:34-46 | the GPR branch yields None, and later arithmetic on it raises; any other flag leaves the result unbound; splines give B^T . v of the node values, with IndexError for fewer splines than nodes and a shape error for a node count that does not match B |
| Fits.EvaluateSurrogateModeAsWritten | surrogates/common_utils/fits.py:50-71 | the function as written: every call with an orbital phase raises |
| Fits.EvaluateSurrogateMode | surrogates/common_utils/fits.py:55-69 | both datapieces use the same X and flag; only the spline path produces data; with a phase but no mode it raises |
| Fits.AsWrittenRejectsOrbitalPhase | surrogates/common_utils/fits.py:65 | on well-shaped tables the as-written call raises, while the rotating repair succeeds |
| Fits.AsWrittenAgreesWithoutPhase | surrogates/common_utils/fits.py:60-61 | without an orbital phase the two definitions agree |
| Fits.AmpPhaseMode | surrogates/common_utils/fits.py:60-61 | without a phase the mode is conj(amp exp(i phase)) * norm sample by sample |
| Fits.ReImMode | surrogates/common_utils/fits.py:63-69 | with a phase the mode is conj((re + i im) exp(i m phi)) * norm sample by sample |
| Fits.EvaluateSurrogateModeCoorbital | surrogates/common_utils/fits.py:50-71 | evaluate_surrogate_mode with the orbital-phase branch calling the two-argument re_im_to_comp (surrogates/common_utils/utils.py:21-26): without a phase it is the amplitude/phase mode; only splines produce data; a phase without a mode raises |
| Fits.CoorbitalMode | surrogates/common_utils/fits.py:63-69 | on well-shaped tables the coorbital repair gives conj(re + i im) * norm sample by sample, whatever the phase |
| Fits.NormScalesMode | surrogates/common_utils/fits.py:69 | scaling norm scales the result linearly |
| RawSurrogate.AllModesSurrogate | surrogates/model_utils/BHPTNRSur1dq1e4/generate_raw_surrogate.py:14-53 | the loop computes RawModes, for each callee of evaluate_surrogate_mode |
| RawSurrogate.TwoTwoMode | surrogates/model_utils/BHPTNRSur1dq1e4/generate_raw_surrogate.py:31-35 | the (2,2) evaluation passes no orbital phase, so every callee gives the amplitude/phase mode of evaluate_surrogate_mode, conj(amp exp(i phase)) * norm by Fits.AmpPhaseMode; a fit flag other than splines raises |
| RawSurrogate.HigherMode | surrogates/model_utils/BHPTNRSur1dq1e4/generate_raw_surrogate.py:46-51 | a higher mode evaluated with the orbital phase: as written it always raises; a fit flag other than splines raises; the coorbital repair does not depend on the phase; the values are stated by Fits.ReImMode and Fits.CoorbitalMode |
| RawSurrogate.RawTwoTwoPrefixOk | surrogates/model_utils/BHPTNRSur1dq1e4/generate_raw_surrogate.py:25-43 | with (2,2) first and evaluating, and every later mode so far (2,2) again or above lmax, the loop succeeds with the orbital phase bound |
| RawSurrogate.RawAsWrittenRaisesAtHigherMode | surrogates/model_utils/BHPTNRSur1dq1e4/generate_raw_surrogate.py:43-51 | as written, on well-shaped spline tables, the first requested higher mode with l <= lmax after (2,2) makes the whole generator raise TypeError |
| RawSurrogate.RawRotatingEvaluatesHigherMode | surrogates/model_utils/BHPTNRSur1dq1e4/generate_raw_surrogate.py:43-51 | with the rotating callee, a higher mode whose well-shaped tables are as wide as the orbital phase evaluates |
| RawSurrogate.RawModesShape | surrogates/model_utils/BHPTNRSur1dq1e4/generate_raw_surrogate.py:25-53 | for every callee, when the generator succeeds: keys distinct; a mode is a key exactly when it is requested and is (2,2) or has l <= lmax; (2,2) holds its own evaluation; each higher mode holds its re/im evaluation at the orbital phase of the conjugated, normalised (2,2) output |
| RawSurrogate.RawHigherModeBeforeTwoTwo | surrogates/model_utils/BHPTNRSur1dq1e4/generate_raw_surrogate.py:40-51 | a higher mode with l <= lmax reached before (2,2) raises: a missing table raises KeyError, otherwise the unbound orbital phase raises |
| RawSurrogate.RawPhaseBoundAfterTwoTwo | surrogates/model_utils/BHPTNRSur1dq1e4/generate_raw_surrogate.py:28-37 | once (2,2) comes first, the orbital phase is bound to that of its output after every iteration |
| RawSurrogate.RawTwoTwoFirstNeverUnbound | surrogates/model_utils/BHPTNRSur1dq1e4/generate_raw_surrogate.py:25-51 | a list starting with (2,2) never fails for an unbound orbital phase |
| RawSurrogate.RawSkipped | surrogates/model_utils/BHPTNRSur1dq1e4/generate_raw_surrogate.py:43 | modes filtered out by lmax leave the output empty |
| RawSurrogateLegacy.DivideByQ | surrogates/surrogate_utils/BHPTNRSur1dq1e4/generate_raw_surrogate.py:39 | h * (1/q), raising on q = 0 |
| RawSurrogateLegacy.LogSurrogate22Mode | surrogates/surrogate_utils/BHPTNRSur1dq1e4/generate_raw_surrogate.py:30-39 | q = 0 raises; the only errors are index, shape and division errors |
| RawSurrogateLegacy.LogSurrogateHmMode | surrogates/surrogate_utils/BHPTNRSur1dq1e4/generate_raw_surrogate.py:42-53 | q = 0 raises; the only errors are index, shape and division errors |
| RawSurrogateLegacy.Legacy22AgreesWithCommon | surrogates/surrogate_utils/BHPTNRSur1dq1e4/generate_raw_surrogate.py:30-39 | the (2,2) mode, conjugated, is amp exp(i phase) * (1/q) as the common evaluation builds it, and one fails exactly when the other does |
| RawSurrogateLegacy.LegacyHmAgreesWithCommon | surrogates/surrogate_utils/BHPTNRSur1dq1e4/generate_raw_surrogate.py:42-53 | a higher mode, conjugated, is (re + i im) exp(i m phi) * (1/q) as the common evaluation builds it at the same phase |
| RawSurrogateLegacy.NewerPhaseNegatesLegacy | surrogates/surrogate_utils/BHPTNRSur1dq1e4/generate_raw_surrogate.py:76-79 | when unwrap(angle(.)) changes sign under conjugation, the orbital phase the newer generator reads from its conjugated (2,2) mode (surrogates/model_utils/BHPTNRSur1dq1e4/generate_raw_surrogate.py:37) is minus the one this generator reads before conjugating, and one (2,2) fails exactly when the other does |
| RawSurrogateLegacy.TwoTwoCoorbital | surrogates/surrogate_utils/BHPTNRSur1dq1e4/generate_raw_surrogate.py:70-79 | the coorbital repair's (2,2) mode is the older generator's stored (2,2) mode |
| RawSurrogateLegacy.CoorbitalHmTurns | surrogates/surrogate_utils/BHPTNRSur1dq1e4/generate_raw_surrogate.py:86-93 | given exp(-i x) = conj(exp(i x)), the coorbital repair's higher mode, rotated as coorbital_to_inertial does at the newer phase, is the older generator's stored mode at the opposite phase |
| RawSurrogateLegacy.SimulatesPrefix | surrogates/surrogate_utils/BHPTNRSur1dq1e4/generate_raw_surrogate.py:65-93 | on every prefix of a list starting with (2,2), while the older loop succeeds, the coorbital loop succeeds too and its dict, rotated entry by entry, is the older loop's dict |
| RawSurrogateLegacy.CoorbitalReadingReproducesLegacy | surrogates/surrogate_utils/BHPTNRSur1dq1e4/generate_raw_surrogate.py:56-95 | for a list starting with (2,2), whenever the older generator succeeds, the newer one with the coorbital repair succeeds and coorbital_to_inertial (surrogates/common_utils/utils.py:29-44) of its output is exactly the older output; assumes exp(-i x) = conj(exp(i x)), unwrap odd under conjugation and one time grid for all tables |
| RawSurrogateLegacy.AllModesSurrogate | surrogates/surrogate_utils/BHPTNRSur1dq1e4/generate_raw_surrogate.py:56-95 | the loop computes LegacyModes |
| RawSurrogateLegacy.LegacyModesShape | surrogates/surrogate_utils/BHPTNRSur1dq1e4/generate_raw_surrogate.py:65-95 | keys distinct, exactly the requested modes that are (2,2) or have l <= lmax; each value is the conjugate of its evaluation; the higher modes use the orbital phase of (2,2) taken before conjugation |
| RawSurrogateLegacy.LegacyHigherModeBeforeTwoTwo | surrogates/surrogate_utils/BHPTNRSur1dq1e4/generate_raw_surrogate.py:82-91 | a higher mode with l <= lmax reached before (2,2) raises |
| RawSurrogateLegacy.LegacyPhaseBoundAfterTwoTwo | surrogates/surrogate_utils/BHPTNRSur1dq1e4/generate_raw_surrogate.py:68-79 | with (2,2) first, the orbital phase is that of the unconjugated (2,2) mode after every iteration |
| RawSurrogateLegacy.LegacyTwoTwoFirstNeverUnbound | surrogates/surrogate_utils/BHPTNRSur1dq1e4/generate_raw_surrogate.py:65-91 | a list starting with (2,2) never fails for an unbound orbital phase |
| RawSurrogateLegacy.LegacySkipped | surrogates/surrogate_utils/BHPTNRSur1dq1e4/generate_raw_surrogate.py:85 | modes filtered out by lmax leave the output empty |
| EvalSurrogates.EvaluateSurrogate | surrogates/model_utils/eval_surrogates.py:89-102 | a failing check decides the result; then a raw error propagates; then an error of obtain_processed_output propagates; the None it returns for a mode sum without all four extrinsics cannot be unpacked into two names and raises TypeError; otherwise the result is the processed output, which is never that None |
| EvalSurrogates.ModeSumWithoutAnglesRaises | surrogates/model_utils/eval_surrogates.py:98-100 | mode_sum with M_tot and dist_mpc but neither angle never returns a result, whatever the raw generator |
| EvalSurrogates.ChecksBeforeEvaluation | surrogates/model_utils/eval_surrogates.py:90-95 | an unavailable mode or an unpaired extrinsic pair raises before any fit is evaluated, whatever the raw generator |
| EvalSurrogates.RawPipelineKeys | surrogates/model_utils/eval_surrogates.py:94-100 | with the BHPTNRSur1dq1e4 raw generator (any callee) and no post-processing, when it succeeds, the output keys are the requested modes that are (2,2) or have l <= the lmax passed in |
| Sur1dq1e4.DefaultModes | surrogates/BHPTNRSur1dq1e4.py:89-90 | 25 modes, (2,2) first, 2 <= l <= 10 and 0 < m <= l |
| Sur1dq1e4.DefaultModesDistinct | surrogates/BHPTNRSur1dq1e4.py:89-90 | no mode appears twice in the default list |
| Sur1dq1e4.ModesOrDefault | surrogates/BHPTNRSur1dq1e4.py:89-90 | None selects the default list |
| Sur1dq1e4.OldCalibrationStage | surrogates/BHPTNRSur1dq1e4.py:98-105 | uncalibrated, the stored time and the raw modes pass through |
| Sur1dq1e4.OldExtrinsicStage | surrogates/BHPTNRSur1dq1e4.py:113-130 | exactly one of mass/distance raises; neither leaves everything unchanged; with both, exactly one angle raises |
| Sur1dq1e4.OldSumStage | surrogates/BHPTNRSur1dq1e4.py:134-141 | without mode_sum the modes are returned; mode_sum without all four extrinsics raises |
| Sur1dq1e4.GenerateSurrogate | surrogates/BHPTNRSur1dq1e4.py:32-141 | a raw-generator error is the result; exactly one of mass/distance raises; a success is a mode dict without mode_sum and a summed strain with it (never None); the rest is stated by OldPipelineIsProcessedOutput |
| Sur1dq1e4.OldPipelineIsProcessedOutput | surrogates/BHPTNRSur1dq1e4.py:93-139 | for q != 0 and consistent extrinsics, the old stage chain is the common obtain_processed_output with X = 1/q and the quartic form |
| Sur1dq1e4.MassDistanceUnpairedRaises | surrogates/BHPTNRSur1dq1e4.py:127-130 | exactly one of mass/distance never returns a result |
| Sur1dq1e4.AnglesUnpairedRaises | surrogates/BHPTNRSur1dq1e4.py:121-124 | with mass and distance, exactly one angle never returns a result |
| Sur1dq1e4.AnglesIgnoredWithoutMassDistance | surrogates/BHPTNRSur1dq1e4.py:113-130 | without mass and distance, the angles are silently ignored |
| Sur1dq1e4.ModeSumNeedsAllExtrinsics | surrogates/BHPTNRSur1dq1e4.py:136-141 | mode_sum without all four extrinsics never returns a result |
| Sur1dq1e4.UncalibratedDefaultModes | surrogates/BHPTNRSur1dq1e4.py:89-105 | uncalibrated with default modes: the stored time and the raw modes are returned |
| Sur2dq1e3.AvailableModes | surrogates/BHPTNRSur2dq1e3.py:37-40 | eight distinct modes, (2,2) first, 2 <= l <= 4 |
| Sur2dq1e3.BucketOf | surrogates/BHPTNRSur2dq1e3.py:42-53 | negative_spin exactly when spin1 < 0, so spin1 = 0 selects positive_spin |
| Sur2dq1e3.SelectTables | surrogates/BHPTNRSur2dq1e3.py:43-53 | all five tables come from one bucket; a missing bucket raises KeyError |
| Sur2dq1e3.Bounds | surrogates/BHPTNRSur2dq1e3.py:64-69 | a lower and an upper row, each covering both parameters |
| Sur2dq1e3.SpinWarnedOutsideBounds | surrogates/BHPTNRSur2dq1e3.py:64-69 | with these bounds the domain check of [log10 q, spin1] never raises and warns about spin1 exactly outside [-0.8, 0.8] |
| Sur2dq1e3.Norm | surrogates/BHPTNRSur2dq1e3.py:62 | norm * q = 1, and q = 0 raises |
| Sur2dq1e3.GenerateSurrogate | surrogates/BHPTNRSur2dq1e3.py:35-91 | a missing spin bucket raises KeyError; once the tables are found, q = 0 raises ZeroDivisionError at the normalisation; the call it makes is stated by Configuration |
| Sur2dq1e3.Configuration | surrogates/BHPTNRSur2dq1e3.py:37-91 | the call made: default modes, X_sur = [log10 q, spin1], X_calib = [q, spin1], norm 1/q, GPR fits, amp/phase for both pieces, no coorbital transform |
| Sur2dq1e3.DefaultModesAvailable | surrogates/BHPTNRSur2dq1e3.py:39-40 | the default modes always pass the mode check |

The dict helpers in `Modes` are stated once and used by every loop:

- `Put` and `Get` with their lemmas;
- `FillFrom` with `FillFromOk`, `FillFromDistinct` and `FillFromFirstError`.

The series arithmetic is in `Complex`. It models numpy's elementwise
operations with their broadcasting rule in `ZipWith`.

## Left out

- Loading the HDF5 fit files, the md5 hash checks and the downloads (the
  loader modules and filehash.py): this is file and network I/O. The tables
  are parameters instead.
- The documentation strings of doc_string.py: documentation only.
- The numerics. Spline evaluation, GPR evaluation, `exp`, `angle`/`unwrap`,
  `sYlm`, `log10` and the physical constants are uninterpreted. Floating-point
  rounding is not modelled, and all arithmetic is on exact reals.
- The GPR evaluator: it is a stub that returns None
  (surrogates/common_utils/fits.py:13-15). The model follows it: the GPR path
  yields None, and the arithmetic that follows raises.
- The printed warnings of check_domain_of_validity and of the calibration
  stage. The domain check returns the indices it would warn about. The
  calibration warnings do not change any value.
- The `lmax` argument of obtain_processed_output: it is used only for a
  printed warning.
- `fits.all_modes_surrogate`: it is called by evaluate_surrogate but is not
  defined in fits.py, so as written every call that reaches
  surrogates/model_utils/eval_surrogates.py:94 raises AttributeError. The
  model makes it a parameter of the driver, so EvalSurrogates.EvaluateSurrogate
  and the lemmas about it describe the program with that name supplied.
- The calibration form `alpha_beta_BHPTNRSur2dq1e3`: it is absent from
  common_utils/nr_calibration.py, so as written every call that reaches
  surrogates/BHPTNRSur2dq1e3.py:78 raises AttributeError. The model makes it
  a parameter of Sur2dq1e3.GenerateSurrogate, so Sur2dq1e3.Configuration
  describes the program with that name supplied.
- The surrogate loader of BHPTNRSur2dq1e3 is `NotImplemented`: its tables are
  parameters.
- surrogates/surrogate_utils/BHPTNRSur1dq1e4/utils.py is not part of this
  model. The older driver calls geo_to_SI, evaluate_on_sphere,
  generate_negative_m_mode and sum_modes from it. The model uses the
  `Utils` members, which follow the copies in common_utils and
  model_utils/BHPTNRSur1dq1e4.
- The `calibrated` argument of the older log_surrogate_22_mode,
  log_surrogate_hm_mode and all_modes_surrogate: it is never read, so the
  model does not take it.
- The `spin2`, `ecc` and `ano` arguments of BHPTNRSur2dq1e3: they are never
  read.
- The matplotlib and plotting imports.
- Utils.PhaseRotationCompose: it holds only under the stated additivity of
  the uninterpreted exponential, because `exp` is not interpreted.
- Utils.CoorbitalToInertialShape, RawSurrogate.RawModesShape: the orbital
  phase is stated in terms of the uninterpreted unwrap. The relation between
  the two generators' phases, which are opposite, rests on the hypothesis of
  the next line.
- RawSurrogateLegacy.CoorbitalReadingReproducesLegacy,
  RawSurrogateLegacy.NewerPhaseNegatesLegacy: these assume exp(-i x) =
  conj(exp(i x)) (`CisConjugate`) and that unwrap(angle(conj h)) =
  -unwrap(angle(h)) (`UnwrapOddUnderConj`), because `exp`, `angle` and
  `unwrap` are uninterpreted. Floating-point rounding aside, the second holds
  in numpy only while no sample's angle or unwrap step falls exactly on the
  branch cut at pi. The agreement also assumes that all tables share one time
  grid (`OneWidth`).
- RawSurrogateLegacy.LogSurrogate22Mode, RawSurrogateLegacy.LogSurrogateHmMode:
  their values are stated through Legacy22AgreesWithCommon and
  LegacyHmAgreesWithCommon rather than in their own contracts.
- Sur2dq1e3.GenerateSurrogate: its own contract states only its two
  errors. The call it makes is stated by Sur2dq1e3.Configuration in terms of
  EvalSurrogates.EvaluateSurrogate.

## Findings

| source | as written | input that shows it | evidently intended | confidence | as-written member | corrected member |
|---|---|---|---|---|---|---|
| surrogates/common_utils/fits.py:65 | evaluate_surrogate_mode passes four arguments (re, im, m, orbital_phase) to utils.re_im_to_comp, which takes two (surrogates/common_utils/utils.py:21) | any higher mode with an orbital phase, e.g. mode (2,1) in the BHPTNRSur1dq1e4 raw generator with (2,2) first: the call raises TypeError | a call that does not raise; two repairs fit the code and differ in sign. (a) Rotating: the four-argument re_im_to_comp of the older raw generator, (re + i im) * exp(i m phi) (surrogates/surrogate_utils/BHPTNRSur1dq1e4/generate_raw_surrogate.py:21-27). Because the newer generator's phase is minus the older one's, it rotates the higher modes the opposite way to the older generator. (b) Coorbital: re_im_to_comp(re, im), documented as giving the coorbital-frame waveform (surrogates/common_utils/utils.py:21-23), with coorbital_to_inertial (surrogates/common_utils/utils.py:29-44) left to rotate. It reproduces the older generator exactly, under the hypotheses listed under "## Left out". Which one the authors meant is not settled by the code | high that the call raises, by reading the signatures; the choice of repair is open; not executed | Fits.EvaluateSurrogateModeAsWritten, Fits.AsWrittenRejectsOrbitalPhase, RawSurrogate.RawAsWrittenRaisesAtHigherMode | Fits.EvaluateSurrogateModeCoorbital, Fits.CoorbitalMode, RawSurrogateLegacy.CoorbitalReadingReproducesLegacy, Fits.EvaluateSurrogateMode, Fits.ReImMode, RawSurrogate.RawRotatingEvaluatesHigherMode, RawSurrogateLegacy.NewerPhaseNegatesLegacy |
