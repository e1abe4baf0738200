/** The raw surrogate of BHPTNRSur1dq1e4 as the common pipeline builds it
    (surrogates/model_utils/BHPTNRSur1dq1e4/generate_raw_surrogate.py): the
    requested modes are evaluated in list order, (2,2) from its amplitude and
    phase fits, every higher mode up to lmax from its coorbital real and
    imaginary fits rotated by the orbital phase of (2,2). */
module RawSurrogate {
  import opened Errors
  import opened Complex
  import opened Numerics
  import opened Modes
  import opened Fits

  /** Which evaluate_surrogate_mode the modes reach: the one of fits.py as
      written, whose orbital-phase branch calls the two-argument
      re_im_to_comp with four arguments; or one of the two ways to repair that
      call: `Rotating` composes (re + i im) exp(i m phi) as the arguments
      suggest, `Coorbital` calls re_im_to_comp(re, im) as its signature and
      documentation suggest and leaves the mode in the coorbital frame. */
  datatype Callee = AsWritten | Rotating | Coorbital

  /** The evaluation context every mode shares: the numerics, the parameter
      X, the `fit_func` flag, the normalisation factor and the callee. */
  datatype Evaluation = Evaluation(nx: Numerics, x: Param, kind: FitKind, norm: real, callee: Callee)

  /** The fit tables: amplitude and phase of (2,2), and the mode-keyed real
      and imaginary tables of the higher modes. */
  datatype SurrogateData = SurrogateData(
    amp: FitData, ph: FitData, bAmp: Matrix, bPh: Matrix,
    re: map<Mode, FitData>, im: map<Mode, FitData>, bRe: map<Mode, Matrix>, bIm: map<Mode, Matrix>)

  /** fits.evaluate_surrogate_mode, through the callee of the context. */
  function ModeOf(ev: Evaluation, fit1: FitData, fit2: FitData, b1: Matrix, b2: Matrix, mode: Option<Mode>,
                  orbitalPhase: Option<seq<real>>): Result<Series>
  {
    match ev.callee
    case AsWritten =>
      EvaluateSurrogateModeAsWritten(ev.nx, ev.x, fit1, fit2, b1, b2, ev.kind, ev.norm, mode, orbitalPhase)
    case Rotating =>
      EvaluateSurrogateMode(ev.nx, ev.x, fit1, fit2, b1, b2, ev.kind, ev.norm, mode, orbitalPhase)
    case Coorbital =>
      EvaluateSurrogateModeCoorbital(ev.nx, ev.x, fit1, fit2, b1, b2, ev.kind, ev.norm, mode, orbitalPhase)
  }

  /** The (2,2) mode: amplitude and phase composed, conjugated and normalised.
      It takes no orbital phase, so every callee gives the same mode. */
  function TwoTwoMode(ev: Evaluation, s: SurrogateData): (r: Result<Series>)
    ensures r == EvaluateSurrogateMode(ev.nx, ev.x, s.amp, s.ph, s.bAmp, s.bPh, ev.kind, ev.norm, None, None)
    ensures ev.kind != Spline1d ==> r.Err?
  {
    AsWrittenAgreesWithoutPhase(ev.nx, ev.x, s.amp, s.ph, s.bAmp, s.bPh, ev.kind, ev.norm, None);
    ModeOf(ev, s.amp, s.ph, s.bAmp, s.bPh, None, None)
  }

  /** All four tables of a higher mode hold it. */
  predicate HasFits(s: SurrogateData, mode: Mode) {
    mode in s.re && mode in s.im && mode in s.bRe && mode in s.bIm
  }

  /** A higher mode from its own tables and the orbital phase `phi`. */
  function HigherMode(ev: Evaluation, s: SurrogateData, mode: Mode, phi: seq<real>): (r: Result<Series>)
    requires HasFits(s, mode)
    ensures ev.callee == AsWritten ==> r.Err?
    ensures ev.kind != Spline1d ==> r.Err?
    ensures ev.callee == Coorbital ==>
      r == EvaluateSurrogateModeCoorbital(ev.nx, ev.x, s.re[mode], s.im[mode], s.bRe[mode], s.bIm[mode],
                                          ev.kind, ev.norm, Some(mode), Some([]))
  {
    ModeOf(ev, s.re[mode], s.im[mode], s.bRe[mode], s.bIm[mode], Some(mode), Some(phi))
  }

  /** The loop state: the dict filled so far and the orbital phase, unbound
      until (2,2) has been evaluated. */
  datatype RawState = RawState(out: ModeDict, phase: Option<seq<real>>)

  /** One iteration of the loop for `mode`. For a higher mode the table
      lookups come first (KeyError), then the read of the orbital phase
      (UnboundLocalError), then the evaluation. */
  function RawStep(ev: Evaluation, s: SurrogateData, lmax: int, st: RawState, mode: Mode): Result<RawState> {
    if mode == Mode22 then
      match TwoTwoMode(ev, s)
      case Err(e) => Err(e)
      case Ok(h) => Ok(RawState(Put(st.out, mode, h), Some(OrbitalPhase(ev.nx, h))))
    else if mode.l > lmax then Ok(st)
    else if !HasFits(s, mode) then Err(KeyMissing)
    else if st.phase.None? then Err(UnboundName)
    else
      match HigherMode(ev, s, mode, st.phase.value)
      case Err(e) => Err(e)
      case Ok(h) => Ok(RawState(Put(st.out, mode, h), st.phase))
  }

  /** The loop of all_modes_surrogate run over the requested modes in order. */
  function RawFrom(ev: Evaluation, s: SurrogateData, lmax: int, modes: seq<Mode>): Result<RawState> {
    if |modes| == 0 then Ok(RawState([], None))
    else
      match RawFrom(ev, s, lmax, modes[..|modes| - 1])
      case Err(e) => Err(e)
      case Ok(st) => RawStep(ev, s, lmax, st, modes[|modes| - 1])
  }

  /** What all_modes_surrogate returns. */
  function RawModes(ev: Evaluation, s: SurrogateData, lmax: int, modes: seq<Mode>): Result<ModeDict> {
    match RawFrom(ev, s, lmax, modes)
    case Err(e) => Err(e)
    case Ok(st) => Ok(st.out)
  }

  method AllModesSurrogate(ev: Evaluation, s: SurrogateData, lmax: int, modes: seq<Mode>)
    returns (r: Result<ModeDict>)
    ensures r == RawModes(ev, s, lmax, modes)
  {
    var out: ModeDict := [];
    var phase: Option<seq<real>> := None;
    var i := 0;
    while i < |modes|
      invariant 0 <= i <= |modes|
      invariant RawFrom(ev, s, lmax, modes[..i]) == Ok(RawState(out, phase))
    {
      RawFromStep(ev, s, lmax, modes, i, RawState(out, phase));
      var next := Iteration(ev, s, lmax, out, phase, modes[i]);
      if next.Err? {
        RawPrefixError(ev, s, lmax, modes, i + 1);
        return Err(next.error);
      }
      out, phase := next.value.out, next.value.phase;
      i := i + 1;
    }
    assert modes[..|modes|] == modes;
    return Ok(out);
  }

  /** The body of the loop for one mode, on the dict and the phase so far. */
  method Iteration(ev: Evaluation, s: SurrogateData, lmax: int, out: ModeDict, phase: Option<seq<real>>,
                   mode: Mode) returns (r: Result<RawState>)
    ensures r == RawStep(ev, s, lmax, RawState(out, phase), mode)
  {
    if mode == Mode22 {
      var h := TwoTwoMode(ev, s);
      if h.Err? {
        return Err(h.error);
      }
      return Ok(RawState(Put(out, mode, h.value), Some(OrbitalPhase(ev.nx, h.value))));
    } else if mode.l <= lmax {
      if !HasFits(s, mode) {
        return Err(KeyMissing);
      }
      if phase.None? {
        return Err(UnboundName);
      }
      var h := HigherMode(ev, s, mode, phase.value);
      if h.Err? {
        return Err(h.error);
      }
      return Ok(RawState(Put(out, mode, h.value), phase));
    }
    return Ok(RawState(out, phase));
  }

  /** One more mode of the prefix is one more step from the state reached. */
  lemma RawFromStep(ev: Evaluation, s: SurrogateData, lmax: int, modes: seq<Mode>, i: nat, st: RawState)
    requires i < |modes| && RawFrom(ev, s, lmax, modes[..i]) == Ok(st)
    ensures RawFrom(ev, s, lmax, modes[..i + 1]) == RawStep(ev, s, lmax, st, modes[i])
  {
    assert modes[..i + 1][..i] == modes[..i];
  }

  /** Once a prefix of the loop fails, the whole loop fails with the same error. */
  lemma {:induction false} RawPrefixError(ev: Evaluation, s: SurrogateData, lmax: int, modes: seq<Mode>, n: nat)
    requires n <= |modes| && RawFrom(ev, s, lmax, modes[..n]).Err?
    ensures RawFrom(ev, s, lmax, modes) == Err(RawFrom(ev, s, lmax, modes[..n]).error)
    decreases |modes| - n
  {
    if n < |modes| {
      assert modes[..n + 1][..n] == modes[..n];
      RawPrefixError(ev, s, lmax, modes, n + 1);
    } else {
      assert modes[..n] == modes;
    }
  }

  /** The value a key of the output holds: (2,2) from its own fits, a higher
      mode from its fits and the orbital phase of the (2,2) output. */
  ghost predicate Produced(ev: Evaluation, s: SurrogateData, k: Mode, h: Series) {
    if k == Mode22 then TwoTwoMode(ev, s) == Ok(h)
    else TwoTwoMode(ev, s).Ok? && HasFits(s, k) &&
         HigherMode(ev, s, k, OrbitalPhase(ev.nx, TwoTwoMode(ev, s).value)) == Ok(h)
  }

  /** What the loop state holds after the modes `done`: distinct keys, exactly
      the requested ones that pass the lmax filter, each with its produced
      value, and the orbital phase bound exactly when (2,2) has been seen. */
  ghost predicate Consistent(ev: Evaluation, s: SurrogateData, lmax: int, done: seq<Mode>, st: RawState) {
    Distinct(st.out) &&
    (forall k :: k in Keys(st.out) <==> k in done && (k == Mode22 || k.l <= lmax)) &&
    (forall k :: k in Keys(st.out) ==> Get(st.out, k).Some? && Produced(ev, s, k, Get(st.out, k).value)) &&
    (Mode22 in done ==> TwoTwoMode(ev, s).Ok? && st.phase == Some(OrbitalPhase(ev.nx, TwoTwoMode(ev, s).value))) &&
    (Mode22 !in done ==> st.phase.None?)
  }

  /** Storing a produced value under a mode that passes the filter keeps the
      state consistent. */
  lemma {:induction false} PutConsistent(ev: Evaluation, s: SurrogateData, lmax: int, done: seq<Mode>,
                                         st: RawState, mode: Mode, h: Series, phase: Option<seq<real>>)
    requires Consistent(ev, s, lmax, done, st)
    requires mode == Mode22 || mode.l <= lmax
    requires Produced(ev, s, mode, h)
    requires mode == Mode22 ==> phase == Some(OrbitalPhase(ev.nx, h))
    requires mode != Mode22 ==> phase == st.phase
    ensures Consistent(ev, s, lmax, done + [mode], RawState(Put(st.out, mode, h), phase))
  {
    var out := Put(st.out, mode, h);
    var done' := done + [mode];
    assert forall k :: k in done' <==> k in done || k == mode;
    PutDistinct(st.out, mode, h);
    forall k | k in Keys(out)
      ensures Get(out, k).Some? && Produced(ev, s, k, Get(out, k).value)
    {
      GetPut(st.out, mode, h, k);
    }
  }

  lemma {:induction false} RawStepConsistent(ev: Evaluation, s: SurrogateData, lmax: int, done: seq<Mode>,
                                             st: RawState, mode: Mode)
    requires Consistent(ev, s, lmax, done, st)
    requires RawStep(ev, s, lmax, st, mode).Ok?
    ensures Consistent(ev, s, lmax, done + [mode], RawStep(ev, s, lmax, st, mode).value)
  {
    var done' := done + [mode];
    assert forall k :: k in done' <==> k in done || k == mode;
    if mode == Mode22 {
      PutConsistent(ev, s, lmax, done, st, mode, TwoTwoMode(ev, s).value,
                    Some(OrbitalPhase(ev.nx, TwoTwoMode(ev, s).value)));
    } else if mode.l <= lmax {
      var h := HigherMode(ev, s, mode, st.phase.value).value;
      PutConsistent(ev, s, lmax, done, st, mode, h, st.phase);
    }
  }

  lemma {:induction false} RawPrefixConsistent(ev: Evaluation, s: SurrogateData, lmax: int, modes: seq<Mode>)
    requires RawFrom(ev, s, lmax, modes).Ok?
    ensures Consistent(ev, s, lmax, modes, RawFrom(ev, s, lmax, modes).value)
  {
    if |modes| > 0 {
      var q := modes[..|modes| - 1];
      RawPrefixConsistent(ev, s, lmax, q);
      assert modes == q + [modes[|modes| - 1]];
      RawStepConsistent(ev, s, lmax, q, RawFrom(ev, s, lmax, q).value, modes[|modes| - 1]);
    }
  }

  /** all_modes_surrogate, when it succeeds: the output keys are distinct and
      are exactly the requested modes that are (2,2) or have l <= lmax, so
      (2,2) is kept whatever lmax is and nothing unrequested appears; (2,2)
      holds its amplitude/phase evaluation, and every higher mode its re/im
      evaluation rotated by the one orbital phase unwrap(angle(h22)) / 2 of
      the conjugated and normalised (2,2) output. */
  lemma RawModesShape(ev: Evaluation, s: SurrogateData, lmax: int, modes: seq<Mode>)
    ensures var r := RawModes(ev, s, lmax, modes);
      r.Ok? ==>
        Distinct(r.value) &&
        (forall k :: k in Keys(r.value) <==> k in modes && (k == Mode22 || k.l <= lmax)) &&
        (Mode22 in modes ==> Get(r.value, Mode22).Some? && TwoTwoMode(ev, s) == Ok(Get(r.value, Mode22).value)) &&
        (forall k :: k in Keys(r.value) && k != Mode22 ==>
          (TwoTwoMode(ev, s).Ok? && HasFits(s, k) && Get(r.value, k).Some? &&
           HigherMode(ev, s, k, OrbitalPhase(ev.nx, TwoTwoMode(ev, s).value)) == Ok(Get(r.value, k).value)))
  {
    if RawFrom(ev, s, lmax, modes).Ok? {
      RawPrefixConsistent(ev, s, lmax, modes);
    }
  }

  /** Modes skipped by the lmax filter leave the state as it was. */
  lemma {:induction false} RawSkipped(ev: Evaluation, s: SurrogateData, lmax: int, modes: seq<Mode>, n: nat)
    requires n <= |modes| && forall i :: 0 <= i < n ==> modes[i] != Mode22 && modes[i].l > lmax
    ensures RawFrom(ev, s, lmax, modes[..n]) == Ok(RawState([], None))
  {
    if n > 0 {
      RawSkipped(ev, s, lmax, modes, n - 1);
      assert modes[..n][..n - 1] == modes[..n - 1];
    }
  }

  /** A higher mode with l <= lmax reached before any (2,2) fails: with its
      tables present, because the orbital phase is read while unbound. */
  lemma RawHigherModeBeforeTwoTwo(ev: Evaluation, s: SurrogateData, lmax: int, modes: seq<Mode>, j: nat)
    requires j < |modes| && modes[j] != Mode22 && modes[j].l <= lmax
    requires forall i :: 0 <= i < j ==> modes[i] != Mode22 && modes[i].l > lmax
    ensures RawModes(ev, s, lmax, modes) == Err(if HasFits(s, modes[j]) then UnboundName else KeyMissing)
  {
    RawSkipped(ev, s, lmax, modes, j);
    assert modes[..j + 1][..j] == modes[..j];
    RawPrefixError(ev, s, lmax, modes, j + 1);
  }

  /** With (2,2) first in the list the orbital phase is bound before any
      higher mode reads it, from the first iteration on. */
  lemma {:induction false} RawPhaseBoundAfterTwoTwo(ev: Evaluation, s: SurrogateData, lmax: int,
                                                    modes: seq<Mode>, n: nat)
    requires 1 <= n <= |modes| && modes[0] == Mode22 && ev.kind != OtherFit
    ensures var r := RawFrom(ev, s, lmax, modes[..n]);
      (r.Err? ==> r.error != UnboundName) && (r.Ok? ==> r.value.phase.Some?)
  {
    assert modes[..n][..n - 1] == modes[..n - 1];
    if n > 1 {
      RawPhaseBoundAfterTwoTwo(ev, s, lmax, modes, n - 1);
    }
  }

  /** A list that starts with (2,2) never fails for an unbound orbital phase
      (an unknown fit_func flag fails that way at (2,2) itself). */
  lemma RawTwoTwoFirstNeverUnbound(ev: Evaluation, s: SurrogateData, lmax: int, modes: seq<Mode>)
    requires |modes| > 0 && modes[0] == Mode22 && ev.kind != OtherFit
    ensures RawModes(ev, s, lmax, modes) != Err(UnboundName)
  {
    RawPhaseBoundAfterTwoTwo(ev, s, lmax, modes, |modes|);
    assert modes[..|modes|] == modes;
  }

  /** With (2,2) first and every later mode so far either (2,2) again or
      above lmax, the loop succeeds and the orbital phase is bound. */
  lemma {:induction false} RawTwoTwoPrefixOk(ev: Evaluation, s: SurrogateData, lmax: int, modes: seq<Mode>, n: nat)
    requires 1 <= n <= |modes| && modes[0] == Mode22 && TwoTwoMode(ev, s).Ok?
    requires forall i :: 0 < i < n ==> modes[i] == Mode22 || modes[i].l > lmax
    ensures RawFrom(ev, s, lmax, modes[..n]).Ok? && RawFrom(ev, s, lmax, modes[..n]).value.phase.Some?
  {
    assert modes[..n][..n - 1] == modes[..n - 1];
    if n > 1 {
      RawTwoTwoPrefixOk(ev, s, lmax, modes, n - 1);
    }
  }

  /** As written, the first higher mode with l <= lmax after (2,2) raises
      TypeError once its tables are present and its fits evaluate, even when
      every table is well shaped. */
  lemma RawAsWrittenRaisesAtHigherMode(ev: Evaluation, s: SurrogateData, lmax: int, modes: seq<Mode>, j: nat)
    requires ev.callee == AsWritten && ev.kind == Spline1d
    requires WellShaped(s.amp, s.bAmp) && WellShaped(s.ph, s.bPh) && s.bAmp.width == s.bPh.width
    requires 0 < j < |modes| && modes[0] == Mode22 && modes[j] != Mode22 && modes[j].l <= lmax
    requires forall i :: 0 < i < j ==> modes[i] == Mode22 || modes[i].l > lmax
    requires HasFits(s, modes[j])
    requires WellShaped(s.re[modes[j]], s.bRe[modes[j]]) && WellShaped(s.im[modes[j]], s.bIm[modes[j]])
    ensures RawModes(ev, s, lmax, modes) == Err(WrongArgumentCount)
  {
    AmpPhaseMode(ev.nx, ev.x, s.amp, s.ph, s.bAmp, s.bPh, ev.norm, None);
    RawTwoTwoPrefixOk(ev, s, lmax, modes, j);
    RawFromStep(ev, s, lmax, modes, j, RawFrom(ev, s, lmax, modes[..j]).value);
    RawPrefixError(ev, s, lmax, modes, j + 1);
  }

  /** The corrected generator on the same input succeeds at that mode. */
  lemma RawRotatingEvaluatesHigherMode(ev: Evaluation, s: SurrogateData, mode: Mode, phi: seq<real>)
    requires ev.callee == Rotating && ev.kind == Spline1d && HasFits(s, mode)
    requires WellShaped(s.re[mode], s.bRe[mode]) && WellShaped(s.im[mode], s.bIm[mode])
    requires s.bRe[mode].width == s.bIm[mode].width == |phi|
    ensures HigherMode(ev, s, mode, phi).Ok?
  {
    AsWrittenRejectsOrbitalPhase(ev.nx, ev.x, s.re[mode], s.im[mode], s.bRe[mode], s.bIm[mode], ev.norm, mode, phi);
  }
}
