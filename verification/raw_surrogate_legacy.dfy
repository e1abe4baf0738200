/** The raw surrogate of the older BHPTNRSur1dq1e4 entry point
    (surrogates/surrogate_utils/BHPTNRSur1dq1e4/generate_raw_surrogate.py):
    the fits are evaluated at log10(q) and every mode is divided by q; the
    orbital phase is taken from the (2,2) mode before it is conjugated. */
module RawSurrogateLegacy {
  import opened Errors
  import opened Complex
  import opened Numerics
  import opened Modes
  import opened Composition
  import opened Fits
  import RawSurrogate
  import Utils

  type SurrogateData = RawSurrogate.SurrogateData
  type RawState = RawSurrogate.RawState

  /** `h * (1/q)`, where Python float division by zero raises. */
  function DivideByQ(h: Series, q: real): (r: Result<Series>)
    ensures r.Ok? <==> q != 0.0
    ensures q != 0.0 ==> r == Ok(ScaleSeries(h, 1.0 / q))
  {
    if q == 0.0 then Err(DivisionByZero) else Ok(ScaleSeries(h, 1.0 / q))
  }

  /** log_surrogate_22_mode: amplitude and phase from their spline fits at
      log10(q), composed, then divided by q (not yet conjugated). */
  function LogSurrogate22Mode(nx: Numerics, q: real, s: SurrogateData): (r: Result<Series>)
    ensures q == 0.0 ==> r.Err?
    ensures r.Err? ==> r.error in {IndexOutOfRange, ShapeMismatch, DivisionByZero}
  {
    var x := Scalar(nx.log10(q));
    var a :- EvaluateSplinesAtEimNodes(nx, x, s.amp);
    var p :- EvaluateSplinesAtEimNodes(nx, x, s.ph);
    var ha :- EimBToWaveformDatapiece(s.bAmp, a);
    var hp :- EimBToWaveformDatapiece(s.bPh, p);
    var h :- AmpPhToComp(nx, ha, hp);
    DivideByQ(h, q)
  }

  /** log_surrogate_hm_mode: real and imaginary parts from their spline fits
      at log10(q), rotated by exp(i m phi), then divided by q. */
  function LogSurrogateHmMode(nx: Numerics, q: real, s: SurrogateData, mode: Mode, phi: seq<real>)
    : (r: Result<Series>)
    requires RawSurrogate.HasFits(s, mode)
    ensures q == 0.0 ==> r.Err?
    ensures r.Err? ==> r.error in {IndexOutOfRange, ShapeMismatch, DivisionByZero}
  {
    var x := Scalar(nx.log10(q));
    var re :- EvaluateSplinesAtEimNodes(nx, x, s.re[mode]);
    var im :- EvaluateSplinesAtEimNodes(nx, x, s.im[mode]);
    var hre :- EimBToWaveformDatapiece(s.bRe[mode], re);
    var him :- EimBToWaveformDatapiece(s.bIm[mode], im);
    var h :- ReImToCompRotated(nx, hre, him, mode.m, phi);
    DivideByQ(h, q)
  }

  /** One iteration of the loop; the stored value of each mode ends up conjugated. */
  function LegacyStep(nx: Numerics, q: real, s: SurrogateData, lmax: int, st: RawState, mode: Mode)
    : Result<RawState>
  {
    if mode == Mode22 then
      match LogSurrogate22Mode(nx, q, s)
      case Err(e) => Err(e)
      case Ok(h) => Ok(RawSurrogate.RawState(Put(st.out, mode, ConjSeries(h)), Some(OrbitalPhase(nx, h))))
    else if mode.l > lmax then Ok(st)
    else if !RawSurrogate.HasFits(s, mode) then Err(KeyMissing)
    else if st.phase.None? then Err(UnboundName)
    else
      match LogSurrogateHmMode(nx, q, s, mode, st.phase.value)
      case Err(e) => Err(e)
      case Ok(h) => Ok(RawSurrogate.RawState(Put(st.out, mode, ConjSeries(h)), st.phase))
  }

  function LegacyFrom(nx: Numerics, q: real, s: SurrogateData, lmax: int, modes: seq<Mode>): Result<RawState> {
    if |modes| == 0 then Ok(RawSurrogate.RawState([], None))
    else
      match LegacyFrom(nx, q, s, lmax, modes[..|modes| - 1])
      case Err(e) => Err(e)
      case Ok(st) => LegacyStep(nx, q, s, lmax, st, modes[|modes| - 1])
  }

  /** What the older all_modes_surrogate returns. */
  function LegacyModes(nx: Numerics, q: real, s: SurrogateData, lmax: int, modes: seq<Mode>): Result<ModeDict> {
    match LegacyFrom(nx, q, s, lmax, modes)
    case Err(e) => Err(e)
    case Ok(st) => Ok(st.out)
  }

  /** The older all_modes_surrogate: its loop over the requested modes. */
  method AllModesSurrogate(nx: Numerics, q: real, s: SurrogateData, lmax: int, modes: seq<Mode>)
    returns (r: Result<ModeDict>)
    ensures r == LegacyModes(nx, q, s, lmax, modes)
  {
    var out: ModeDict := [];
    var phase: Option<seq<real>> := None;
    var i := 0;
    while i < |modes|
      invariant 0 <= i <= |modes|
      invariant LegacyFrom(nx, q, s, lmax, modes[..i]) == Ok(RawSurrogate.RawState(out, phase))
    {
      LegacyFromStep(nx, q, s, lmax, modes, i, RawSurrogate.RawState(out, phase));
      var next := Iteration(nx, q, s, lmax, out, phase, modes[i]);
      if next.Err? {
        LegacyPrefixError(nx, q, s, lmax, modes, i + 1);
        return Err(next.error);
      }
      out, phase := next.value.out, next.value.phase;
      i := i + 1;
    }
    assert modes[..|modes|] == modes;
    return Ok(out);
  }

  /** The body of the loop for one mode: the value is stored, the (2,2) phase
      is read from the stored value, then the entry is overwritten with its
      conjugate. */
  method Iteration(nx: Numerics, q: real, s: SurrogateData, lmax: int, out: ModeDict,
                   phase: Option<seq<real>>, mode: Mode) returns (r: Result<RawState>)
    ensures r == LegacyStep(nx, q, s, lmax, RawSurrogate.RawState(out, phase), mode)
  {
    var d := out;
    var p := phase;
    if mode == Mode22 {
      var h := LogSurrogate22Mode(nx, q, s);
      if h.Err? {
        return Err(h.error);
      }
      d := Put(d, mode, h.value);
      GetPut(out, mode, h.value, mode);
      p := Some(OrbitalPhase(nx, Get(d, mode).value));
      d := Put(d, mode, ConjSeries(Get(d, mode).value));
      PutPut(out, mode, h.value, ConjSeries(h.value));
    } else if mode.l <= lmax {
      if !RawSurrogate.HasFits(s, mode) {
        return Err(KeyMissing);
      }
      if p.None? {
        return Err(UnboundName);
      }
      var h := LogSurrogateHmMode(nx, q, s, mode, p.value);
      if h.Err? {
        return Err(h.error);
      }
      d := Put(d, mode, h.value);
      GetPut(out, mode, h.value, mode);
      d := Put(d, mode, ConjSeries(Get(d, mode).value));
      PutPut(out, mode, h.value, ConjSeries(h.value));
    }
    return Ok(RawSurrogate.RawState(d, p));
  }

  /** One more mode of the prefix is one more step from the state reached. */
  lemma LegacyFromStep(nx: Numerics, q: real, s: SurrogateData, lmax: int, modes: seq<Mode>, i: nat,
                       st: RawState)
    requires i < |modes| && LegacyFrom(nx, q, s, lmax, modes[..i]) == Ok(st)
    ensures LegacyFrom(nx, q, s, lmax, modes[..i + 1]) == LegacyStep(nx, q, s, lmax, st, modes[i])
  {
    assert modes[..i + 1][..i] == modes[..i];
  }

  lemma {:induction false} LegacyPrefixError(nx: Numerics, q: real, s: SurrogateData, lmax: int,
                                             modes: seq<Mode>, n: nat)
    requires n <= |modes| && LegacyFrom(nx, q, s, lmax, modes[..n]).Err?
    ensures LegacyFrom(nx, q, s, lmax, modes) == Err(LegacyFrom(nx, q, s, lmax, modes[..n]).error)
    decreases |modes| - n
  {
    if n < |modes| {
      assert modes[..n + 1][..n] == modes[..n];
      LegacyPrefixError(nx, q, s, lmax, modes, n + 1);
    } else {
      assert modes[..n] == modes;
    }
  }

  /** The value a key of the output holds: the conjugate of its evaluation,
      a higher mode rotated by the phase of the unconjugated (2,2) mode. */
  ghost predicate LegacyProduced(nx: Numerics, q: real, s: SurrogateData, k: Mode, h: Series) {
    var h22 := LogSurrogate22Mode(nx, q, s);
    if k == Mode22 then h22.Ok? && h == ConjSeries(h22.value)
    else h22.Ok? && RawSurrogate.HasFits(s, k) &&
         LogSurrogateHmMode(nx, q, s, k, OrbitalPhase(nx, h22.value)).Ok? &&
         h == ConjSeries(LogSurrogateHmMode(nx, q, s, k, OrbitalPhase(nx, h22.value)).value)
  }

  ghost predicate LegacyConsistent(nx: Numerics, q: real, s: SurrogateData, lmax: int, done: seq<Mode>, st: RawState) {
    Distinct(st.out) &&
    (forall k :: k in Keys(st.out) <==> k in done && (k == Mode22 || k.l <= lmax)) &&
    (forall k :: k in Keys(st.out) ==> Get(st.out, k).Some? && LegacyProduced(nx, q, s, k, Get(st.out, k).value)) &&
    (Mode22 in done ==> LogSurrogate22Mode(nx, q, s).Ok? &&
                        st.phase == Some(OrbitalPhase(nx, LogSurrogate22Mode(nx, q, s).value))) &&
    (Mode22 !in done ==> st.phase.None?)
  }

  lemma {:induction false} LegacyPutConsistent(nx: Numerics, q: real, s: SurrogateData, lmax: int, done: seq<Mode>,
                                               st: RawState, mode: Mode, h: Series, phase: Option<seq<real>>)
    requires LegacyConsistent(nx, q, s, lmax, done, st)
    requires mode == Mode22 || mode.l <= lmax
    requires LegacyProduced(nx, q, s, mode, h)
    requires mode == Mode22 ==> phase == Some(OrbitalPhase(nx, LogSurrogate22Mode(nx, q, s).value))
    requires mode != Mode22 ==> phase == st.phase
    ensures LegacyConsistent(nx, q, s, lmax, done + [mode], RawSurrogate.RawState(Put(st.out, mode, h), phase))
  {
    var out := Put(st.out, mode, h);
    var done' := done + [mode];
    assert forall k :: k in done' <==> k in done || k == mode;
    PutDistinct(st.out, mode, h);
    forall k | k in Keys(out)
      ensures Get(out, k).Some? && LegacyProduced(nx, q, s, k, Get(out, k).value)
    {
      GetPut(st.out, mode, h, k);
    }
  }

  lemma {:induction false} LegacyStepConsistent(nx: Numerics, q: real, s: SurrogateData, lmax: int,
                                                done: seq<Mode>, st: RawState, mode: Mode)
    requires LegacyConsistent(nx, q, s, lmax, done, st)
    requires LegacyStep(nx, q, s, lmax, st, mode).Ok?
    ensures LegacyConsistent(nx, q, s, lmax, done + [mode], LegacyStep(nx, q, s, lmax, st, mode).value)
  {
    var done' := done + [mode];
    assert forall k :: k in done' <==> k in done || k == mode;
    if mode == Mode22 {
      var h := LogSurrogate22Mode(nx, q, s).value;
      LegacyPutConsistent(nx, q, s, lmax, done, st, mode, ConjSeries(h), Some(OrbitalPhase(nx, h)));
    } else if mode.l <= lmax {
      var h := LogSurrogateHmMode(nx, q, s, mode, st.phase.value).value;
      LegacyPutConsistent(nx, q, s, lmax, done, st, mode, ConjSeries(h), st.phase);
    }
  }

  lemma {:induction false} LegacyPrefixConsistent(nx: Numerics, q: real, s: SurrogateData, lmax: int, modes: seq<Mode>)
    requires LegacyFrom(nx, q, s, lmax, modes).Ok?
    ensures LegacyConsistent(nx, q, s, lmax, modes, LegacyFrom(nx, q, s, lmax, modes).value)
  {
    if |modes| > 0 {
      var p := modes[..|modes| - 1];
      LegacyPrefixConsistent(nx, q, s, lmax, p);
      assert modes == p + [modes[|modes| - 1]];
      LegacyStepConsistent(nx, q, s, lmax, p, LegacyFrom(nx, q, s, lmax, p).value, modes[|modes| - 1]);
    }
  }

  /** The older all_modes_surrogate, when it succeeds: distinct keys, exactly
      the requested modes that are (2,2) or have l <= lmax; every value is the
      conjugate of its evaluation, and every higher mode is rotated by the
      orbital phase of the (2,2) evaluation taken before conjugation. */
  lemma LegacyModesShape(nx: Numerics, q: real, s: SurrogateData, lmax: int, modes: seq<Mode>)
    ensures var r := LegacyModes(nx, q, s, lmax, modes);
      var h22 := LogSurrogate22Mode(nx, q, s);
      r.Ok? ==>
        Distinct(r.value) &&
        (forall k :: k in Keys(r.value) <==> k in modes && (k == Mode22 || k.l <= lmax)) &&
        (Mode22 in modes ==> h22.Ok? && Get(r.value, Mode22) == Some(ConjSeries(h22.value))) &&
        (forall k :: k in Keys(r.value) && k != Mode22 ==>
          (h22.Ok? && RawSurrogate.HasFits(s, k) &&
           LogSurrogateHmMode(nx, q, s, k, OrbitalPhase(nx, h22.value)).Ok? &&
           Get(r.value, k) == Some(ConjSeries(LogSurrogateHmMode(nx, q, s, k, OrbitalPhase(nx, h22.value)).value))))
  {
    if LegacyFrom(nx, q, s, lmax, modes).Ok? {
      LegacyPrefixConsistent(nx, q, s, lmax, modes);
    }
  }

  /** The evaluation context of the common pipeline that matches this one:
      spline fits at log10(q), normalisation 1/q and the rotating callee,
      whose composition (re + i im) exp(i m phi) is the one this older
      generator writes out. */
  function CommonEvaluation(nx: Numerics, q: real): RawSurrogate.Evaluation
    requires q != 0.0
  {
    RawSurrogate.Evaluation(nx, Scalar(nx.log10(q)), Spline1d, 1.0 / q, RawSurrogate.Rotating)
  }

  lemma ConjScaleSeries(h: Series, k: real)
    ensures ConjSeries(ScaleSeries(h, k)) == ScaleSeries(ConjSeries(h), k)
  {
    forall i | 0 <= i < |h| ensures Conj(Scale(h[i], k)) == Scale(Conj(h[i]), k) {
      assert -(h[i].im * k) == (-h[i].im) * k;
    }
  }

  /** The older (2,2) mode, conjugated, is the common (2,2) mode with
      normalisation 1/q, and one fails exactly when the other does. */
  lemma Legacy22AgreesWithCommon(nx: Numerics, q: real, s: SurrogateData)
    requires q != 0.0
    ensures var h := LogSurrogate22Mode(nx, q, s);
      var c := RawSurrogate.TwoTwoMode(CommonEvaluation(nx, q), s);
      h.Ok? == c.Ok? && (h.Ok? ==> c.value == ConjSeries(h.value))
  {
    var x := Scalar(nx.log10(q));
    var a := EvaluateSplinesAtEimNodes(nx, x, s.amp);
    var p := EvaluateSplinesAtEimNodes(nx, x, s.ph);
    if a.Ok? && p.Ok? {
      var ha := EimBToWaveformDatapiece(s.bAmp, a.value);
      var hp := EimBToWaveformDatapiece(s.bPh, p.value);
      if ha.Ok? && hp.Ok? {
        var h := AmpPhToComp(nx, ha.value, hp.value);
        if h.Ok? {
          ConjScaleSeries(h.value, 1.0 / q);
        }
      }
    }
  }

  /** The older higher mode, conjugated, is the common higher mode with
      normalisation 1/q at the same orbital phase. */
  lemma LegacyHmAgreesWithCommon(nx: Numerics, q: real, s: SurrogateData, mode: Mode, phi: seq<real>)
    requires q != 0.0 && RawSurrogate.HasFits(s, mode)
    ensures var h := LogSurrogateHmMode(nx, q, s, mode, phi);
      var c := RawSurrogate.HigherMode(CommonEvaluation(nx, q), s, mode, phi);
      h.Ok? == c.Ok? && (h.Ok? ==> c.value == ConjSeries(h.value))
  {
    var x := Scalar(nx.log10(q));
    var re := EvaluateSplinesAtEimNodes(nx, x, s.re[mode]);
    var im := EvaluateSplinesAtEimNodes(nx, x, s.im[mode]);
    if re.Ok? && im.Ok? {
      var hre := EimBToWaveformDatapiece(s.bRe[mode], re.value);
      var him := EimBToWaveformDatapiece(s.bIm[mode], im.value);
      if hre.Ok? && him.Ok? {
        var h := ReImToCompRotated(nx, hre.value, him.value, mode.m, phi);
        if h.Ok? {
          ConjScaleSeries(h.value, 1.0 / q);
        }
      }
    }
  }

  lemma {:induction false} LegacyPhaseBoundAfterTwoTwo(nx: Numerics, q: real, s: SurrogateData, lmax: int,
                                                       modes: seq<Mode>, n: nat)
    requires 1 <= n <= |modes| && modes[0] == Mode22
    ensures var r := LegacyFrom(nx, q, s, lmax, modes[..n]);
      (r.Err? ==> r.error != UnboundName) && (r.Ok? ==> r.value.phase.Some?)
  {
    assert modes[..n][..n - 1] == modes[..n - 1];
    if n > 1 {
      LegacyPhaseBoundAfterTwoTwo(nx, q, s, lmax, modes, n - 1);
    }
  }

  /** A list that starts with (2,2), as the default list does, never fails
      for an unbound orbital phase. */
  lemma LegacyTwoTwoFirstNeverUnbound(nx: Numerics, q: real, s: SurrogateData, lmax: int, modes: seq<Mode>)
    requires |modes| > 0 && modes[0] == Mode22
    ensures LegacyModes(nx, q, s, lmax, modes) != Err(UnboundName)
  {
    LegacyPhaseBoundAfterTwoTwo(nx, q, s, lmax, modes, |modes|);
    assert modes[..|modes|] == modes;
  }

  /** A higher mode with l <= lmax reached before any (2,2) fails. */
  lemma LegacyHigherModeBeforeTwoTwo(nx: Numerics, q: real, s: SurrogateData, lmax: int, modes: seq<Mode>, j: nat)
    requires j < |modes| && modes[j] != Mode22 && modes[j].l <= lmax
    requires forall i :: 0 <= i < j ==> modes[i] != Mode22 && modes[i].l > lmax
    ensures LegacyModes(nx, q, s, lmax, modes) == Err(if RawSurrogate.HasFits(s, modes[j]) then UnboundName else KeyMissing)
  {
    LegacySkipped(nx, q, s, lmax, modes, j);
    assert modes[..j + 1][..j] == modes[..j];
    LegacyPrefixError(nx, q, s, lmax, modes, j + 1);
  }

  lemma {:induction false} LegacySkipped(nx: Numerics, q: real, s: SurrogateData, lmax: int, modes: seq<Mode>, n: nat)
    requires n <= |modes| && forall i :: 0 <= i < n ==> modes[i] != Mode22 && modes[i].l > lmax
    ensures LegacyFrom(nx, q, s, lmax, modes[..n]) == Ok(RawSurrogate.RawState([], None))
  {
    if n > 0 {
      LegacySkipped(nx, q, s, lmax, modes, n - 1);
      assert modes[..n][..n - 1] == modes[..n - 1];
    }
  }

  // ---------------------------------------------------------------------------
  // The coorbital reading of the newer generator against this one

  /** The newer generator configured as this one (spline fits at log10(q),
      normalisation 1/q) with the two-argument re_im_to_comp, whose higher
      modes stay in the coorbital frame. */
  function CoorbitalEvaluation(nx: Numerics, q: real): RawSurrogate.Evaluation
    requires q != 0.0
  {
    RawSurrogate.Evaluation(nx, Scalar(nx.log10(q)), Spline1d, 1.0 / q, RawSurrogate.Coorbital)
  }

  /** Every datapiece basis has the width of the (2,2) amplitude basis, so no
      numpy broadcasting takes place. */
  ghost predicate OneWidth(s: SurrogateData) {
    s.bPh.width == s.bAmp.width &&
    forall k :: RawSurrogate.HasFits(s, k) ==> s.bRe[k].width == s.bAmp.width && s.bIm[k].width == s.bAmp.width
  }

  /** What coorbital_to_inertial stores for one entry at orbital phase `phi`. */
  function Turn(nx: Numerics, phi: seq<real>): Entry -> Series {
    (e: Entry) =>
      if e.mode == Mode22 then e.h
      else match Rotate(nx, e.h, e.mode.m, phi) case Ok(h) => h case Err(_) => e.h
  }

  /** The (2,2) mode of this generator has the width of its amplitude basis. */
  lemma Legacy22Width(nx: Numerics, q: real, s: SurrogateData)
    requires OneWidth(s) && LogSurrogate22Mode(nx, q, s).Ok?
    ensures |LogSurrogate22Mode(nx, q, s).value| == s.bAmp.width
  {
  }

  /** The coorbital reading stores the same (2,2) mode as this generator. */
  lemma TwoTwoCoorbital(nx: Numerics, q: real, s: SurrogateData)
    requires q != 0.0 && LogSurrogate22Mode(nx, q, s).Ok?
    ensures RawSurrogate.TwoTwoMode(CoorbitalEvaluation(nx, q), s) == Ok(ConjSeries(LogSurrogate22Mode(nx, q, s).value))
  {
    Legacy22AgreesWithCommon(nx, q, s);
  }

  /** conj(z) k conj(w) = conj(z w k) for real k. */
  lemma ConjOfScaledProduct(z: Complex, w: Complex, k: real)
    ensures Mul(Scale(Conj(z), k), Conj(w)) == Conj(Scale(Mul(z, w), k))
  {
    assert (z.re * k) * w.re - (-z.im * k) * (-w.im) == (z.re * w.re - z.im * w.im) * k;
    assert (z.re * k) * (-w.im) + (-z.im * k) * w.re == -((z.re * w.im + z.im * w.re) * k);
  }

  /** One sample of a turned coorbital mode. */
  lemma TurnSample(nx: Numerics, z: Complex, m: int, pO: real, pN: real, k: real)
    requires CisConjugate(nx) && pN == -pO
    ensures Mul(Scale(Conj(z), k), nx.cis(Angle(m, pN))) == Conj(Scale(Mul(z, nx.cis(Angle(m, pO))), k))
  {
    assert Angle(m, pN) == -Angle(m, pO);
    ConjOfScaledProduct(z, nx.cis(Angle(m, pO)), k);
  }

  /** A higher mode of this generator that evaluates has well-shaped tables,
      and is the rotated composition of the two spline datapieces over 1/q. */
  lemma LegacyHmParts(nx: Numerics, q: real, s: SurrogateData, k: Mode, phi: seq<real>)
    requires RawSurrogate.HasFits(s, k) && LogSurrogateHmMode(nx, q, s, k, phi).Ok?
    ensures WellShaped(s.re[k], s.bRe[k]) && WellShaped(s.im[k], s.bIm[k])
    ensures var x := Scalar(nx.log10(q));
      var hre := EvaluateDatapiece(nx, x, s.re[k], s.bRe[k], Spline1d);
      var him := EvaluateDatapiece(nx, x, s.im[k], s.bIm[k], Spline1d);
      hre.Ok? && him.Ok? && q != 0.0 &&
      ReImToCompRotated(nx, hre.value, him.value, k.m, phi).Ok? &&
      LogSurrogateHmMode(nx, q, s, k, phi).value == ScaleSeries(ReImToCompRotated(nx, hre.value, him.value, k.m, phi).value, 1.0 / q)
  {
  }

  /** A higher mode of the coorbital reading, turned by coorbital_to_inertial
      at the negated orbital phase, is the mode this generator stores. */
  lemma CoorbitalHmTurns(nx: Numerics, q: real, s: SurrogateData, k: Mode, phiO: seq<real>, phiN: seq<real>)
    requires q != 0.0 && k != Mode22 && RawSurrogate.HasFits(s, k) && OneWidth(s) && CisConjugate(nx)
    requires |phiO| == |phiN| == s.bAmp.width
    requires forall t :: 0 <= t < |phiO| ==> phiN[t] == -phiO[t]
    requires LogSurrogateHmMode(nx, q, s, k, phiO).Ok?
    ensures var v := RawSurrogate.HigherMode(CoorbitalEvaluation(nx, q), s, k, phiN);
      v.Ok? && |v.value| == |phiN| &&
      Turn(nx, phiN)(Entry(k, v.value)) == ConjSeries(LogSurrogateHmMode(nx, q, s, k, phiO).value)
  {
    var x := Scalar(nx.log10(q));
    LegacyHmParts(nx, q, s, k, phiO);
    var hre := EvaluateDatapiece(nx, x, s.re[k], s.bRe[k], Spline1d).value;
    var him := EvaluateDatapiece(nx, x, s.im[k], s.bIm[k], Spline1d).value;
    var h := LogSurrogateHmMode(nx, q, s, k, phiO).value;
    var rot := ReImToCompRotated(nx, hre, him, k.m, phiO).value;
    CoorbitalMode(nx, x, s.re[k], s.im[k], s.bRe[k], s.bIm[k], 1.0 / q, k, phiN);
    var v := RawSurrogate.HigherMode(CoorbitalEvaluation(nx, q), s, k, phiN).value;
    var turned := Rotate(nx, v, k.m, phiN).value;
    forall t | 0 <= t < |phiN| ensures turned[t] == ConjSeries(h)[t] {
      assert rot[t] == Mul(Complex(hre[t], him[t]), nx.cis(Angle(k.m, phiO[t])));
      TurnSample(nx, Complex(hre[t], him[t]), k.m, phiO[t], phiN[t], 1.0 / q);
    }
    assert turned == ConjSeries(h);
  }

  /** The two loops in step after (2,2): the newer dict in the coorbital
      reading, which holds the same (2,2) and the orbital phase of its
      conjugate, turns entry by entry into the dict of this generator. */
  ghost predicate Simulates(nx: Numerics, q: real, s: SurrogateData, r: RawState, l: RawState) {
    var h22 := LogSurrogate22Mode(nx, q, s);
    h22.Ok? &&
    (var phi := OrbitalPhase(nx, ConjSeries(h22.value));
     r.phase == Some(phi) && l.phase == Some(OrbitalPhase(nx, h22.value)) &&
     |r.out| > 0 && r.out[0] == Entry(Mode22, ConjSeries(h22.value)) &&
     (forall i :: 0 <= i < |r.out| ==> |r.out[i].h| == |phi|) &&
     l.out == MapEntries(r.out, Turn(nx, phi)))
  }

  lemma SimulatesStep(nx: Numerics, q: real, s: SurrogateData, lmax: int, r: RawState, l: RawState, mode: Mode)
    requires q != 0.0 && OneWidth(s) && CisConjugate(nx) && UnwrapOddUnderConj(nx)
    requires Simulates(nx, q, s, r, l) && LegacyStep(nx, q, s, lmax, l, mode).Ok?
    ensures RawSurrogate.RawStep(CoorbitalEvaluation(nx, q), s, lmax, r, mode).Ok?
    ensures Simulates(nx, q, s, RawSurrogate.RawStep(CoorbitalEvaluation(nx, q), s, lmax, r, mode).value,
                      LegacyStep(nx, q, s, lmax, l, mode).value)
  {
    var ev := CoorbitalEvaluation(nx, q);
    var h22 := LogSurrogate22Mode(nx, q, s).value;
    var c := ConjSeries(h22);
    var phi := OrbitalPhase(nx, c);
    var f := Turn(nx, phi);
    if mode == Mode22 {
      TwoTwoCoorbital(nx, q, s);
      assert Put(r.out, Mode22, c) == r.out;
      assert l.out[0] == Entry(Mode22, c);
      assert Put(l.out, Mode22, c) == l.out;
    } else if mode.l <= lmax {
      var phiO := OrbitalPhase(nx, h22);
      Legacy22Width(nx, q, s);
      ConjNegatesOrbitalPhase(nx, h22);
      CoorbitalHmTurns(nx, q, s, mode, phiO, phi);
      var v := RawSurrogate.HigherMode(ev, s, mode, phi).value;
      MapEntriesPut(r.out, mode, v, f);
      PutLengths(r.out, mode, v, |phi|);
      assert Put(r.out, mode, v)[0] == r.out[0];
    }
  }

  lemma {:induction false} SimulatesPrefix(nx: Numerics, q: real, s: SurrogateData, lmax: int, modes: seq<Mode>, n: nat)
    requires q != 0.0 && OneWidth(s) && CisConjugate(nx) && UnwrapOddUnderConj(nx)
    requires 1 <= n <= |modes| && modes[0] == Mode22
    requires LegacyFrom(nx, q, s, lmax, modes[..n]).Ok?
    ensures RawSurrogate.RawFrom(CoorbitalEvaluation(nx, q), s, lmax, modes[..n]).Ok?
    ensures Simulates(nx, q, s, RawSurrogate.RawFrom(CoorbitalEvaluation(nx, q), s, lmax, modes[..n]).value,
                      LegacyFrom(nx, q, s, lmax, modes[..n]).value)
  {
    var ev := CoorbitalEvaluation(nx, q);
    assert modes[..n][..n - 1] == modes[..n - 1];
    if n == 1 {
      assert modes[..1][0] == Mode22;
      var h22 := LogSurrogate22Mode(nx, q, s).value;
      var c := ConjSeries(h22);
      TwoTwoCoorbital(nx, q, s);
      assert Put([], Mode22, c) == [Entry(Mode22, c)];
      assert MapEntries([Entry(Mode22, c)], Turn(nx, OrbitalPhase(nx, c))) == [Entry(Mode22, c)];
    } else {
      var st := LegacyFrom(nx, q, s, lmax, modes[..n - 1]);
      assert st.Ok?;
      SimulatesPrefix(nx, q, s, lmax, modes, n - 1);
      var rt := RawSurrogate.RawFrom(ev, s, lmax, modes[..n - 1]).value;
      LegacyFromStep(nx, q, s, lmax, modes, n - 1, st.value);
      RawSurrogate.RawFromStep(ev, s, lmax, modes, n - 1, rt);
      SimulatesStep(nx, q, s, lmax, rt, st.value, modes[n - 1]);
    }
  }

  /** Where the (2,2) mode comes first, the newer generator in the coorbital
      reading followed by coorbital_to_inertial (CoorbToInert set) returns
      exactly the dict of this generator whenever this one succeeds, given
      that exp(-i a) = conj(exp(i a)), that unwrap(angle(.)) changes sign under
      conjugation and that no datapiece is broadcast. */
  lemma CoorbitalReadingReproducesLegacy(nx: Numerics, q: real, s: SurrogateData, lmax: int, modes: seq<Mode>)
    requires q != 0.0 && |modes| > 0 && modes[0] == Mode22
    requires CisConjugate(nx) && UnwrapOddUnderConj(nx) && OneWidth(s)
    requires LegacyModes(nx, q, s, lmax, modes).Ok?
    ensures var r := RawSurrogate.RawModes(CoorbitalEvaluation(nx, q), s, lmax, modes);
      r.Ok? && Utils.InertialModes(nx, r.value) == LegacyModes(nx, q, s, lmax, modes)
  {
    var ev := CoorbitalEvaluation(nx, q);
    assert modes[..|modes|] == modes;
    SimulatesPrefix(nx, q, s, lmax, modes, |modes|);
    var d := RawSurrogate.RawFrom(ev, s, lmax, modes).value.out;
    RawSurrogate.RawModesShape(ev, s, lmax, modes);
    var phi := OrbitalPhase(nx, d[0].h);
    Utils.CoorbitalPrefix(nx, d, |d|);
    assert d[..|d|] == d;
    var closed := Utils.InertialClosedForm(nx, d, phi);
    forall i | 0 <= i < |d| ensures closed[i] == MapEntries(d, Turn(nx, phi))[i] {
      assert closed[i] == Utils.Turned(nx, d[i], phi);
    }
    assert closed == MapEntries(d, Turn(nx, phi));
  }

  /** The orbital phase the newer generator reads from its stored (2,2) mode
      is the negation of the one this generator reads, given that
      unwrap(angle(.)) changes sign under conjugation. */
  lemma NewerPhaseNegatesLegacy(nx: Numerics, q: real, s: SurrogateData)
    requires q != 0.0 && UnwrapOddUnderConj(nx)
    ensures var h := LogSurrogate22Mode(nx, q, s);
      var c := RawSurrogate.TwoTwoMode(CommonEvaluation(nx, q), s);
      h.Ok? == c.Ok? &&
      (h.Ok? ==> (|OrbitalPhase(nx, c.value)| == |h.value| &&
                  forall t :: 0 <= t < |h.value| ==> OrbitalPhase(nx, c.value)[t] == -OrbitalPhase(nx, h.value)[t]))
  {
    Legacy22AgreesWithCommon(nx, q, s);
    if LogSurrogate22Mode(nx, q, s).Ok? {
      ConjNegatesOrbitalPhase(nx, LogSurrogate22Mode(nx, q, s).value);
    }
  }
}
