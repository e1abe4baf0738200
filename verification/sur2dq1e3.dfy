/** The top-level entry point of BHPTNRSur2dq1e3 (surrogates/BHPTNRSur2dq1e3.py,
    generate_surrogate): the tables of the spin-sign bucket of spin1, the
    model's fixed configuration, and one call of the generic driver. */
module Sur2dq1e3 {
  import opened Errors
  import opened Numerics
  import opened Modes
  import opened Fits
  import opened CheckInputs
  import opened Utils
  import opened EvalSurrogates

  /** The two keys of the loaded tables, 'negative_spin' and 'positive_spin'. */
  datatype SpinBucket = NegativeSpin | PositiveSpin

  /** The tables loaded at import time, each keyed by spin-sign bucket. */
  datatype LoadedTables = LoadedTables(
    times: map<SpinBucket, seq<real>>,
    fit1: map<SpinBucket, map<Mode, FitData>>, fit2: map<SpinBucket, map<Mode, FitData>>,
    b1: map<SpinBucket, map<Mode, Matrix>>, b2: map<SpinBucket, map<Mode, Matrix>>)

  /** The five tables of one bucket. */
  datatype SpinTables = SpinTables(
    times: seq<real>, fit1: map<Mode, FitData>, fit2: map<Mode, FitData>,
    b1: map<Mode, Matrix>, b2: map<Mode, Matrix>)

  /** How two datapieces are combined into a mode (`decomposition_funcs`). */
  datatype Decomposition = AmpPhase | ReIm

  /** `fits.all_modes_surrogate` with the tables, the fit_func flag, the
      decomposition functions and the normalisation it is given. Its
      definition is not part of this model. */
  type RawGeneratorFor = (SpinTables, FitKind, seq<Decomposition>, real) -> RawGenerator

  /** The eight modes of the model. */
  function AvailableModes(): (r: seq<Mode>)
    ensures |r| == 8 && r[0] == Mode22
    ensures forall i :: 0 <= i < |r| ==> 2 <= r[i].l <= 4 && 0 < r[i].m <= r[i].l
    ensures forall i, j :: 0 <= i < j < |r| ==> r[i] != r[j]
  {
    [Mode(2, 2), Mode(2, 1), Mode(3, 1), Mode(3, 2), Mode(3, 3), Mode(4, 2), Mode(4, 3), Mode(4, 4)]
  }

  /** Default keyword values of generate_surrogate. */
  const DefaultSpin1: real := 0.0
  const DefaultNegModes: bool := false
  const DefaultModeSum: bool := false
  const DefaultLmax: int := 4
  const DefaultCalibrated: bool := true

  /** The bucket of spin1: negative exactly when spin1 < 0, so spin1 = 0 is positive. */
  function BucketOf(spin1: real): (b: SpinBucket)
    ensures b == NegativeSpin <==> spin1 < 0.0
    ensures b == PositiveSpin <==> spin1 >= 0.0
  {
    if spin1 < 0.0 then NegativeSpin else PositiveSpin
  }

  /** The five lookups, in the source's order, all with the one bucket of spin1. */
  function SelectTables(t: LoadedTables, spin1: real): (r: Result<SpinTables>)
    ensures var b := BucketOf(spin1);
      r.Ok? <==> b in t.times && b in t.fit1 && b in t.fit2 && b in t.b1 && b in t.b2
    ensures r.Err? ==> r.error == KeyMissing
    ensures var b := BucketOf(spin1);
      r.Ok? ==> r.value == SpinTables(t.times[b], t.fit1[b], t.fit2[b], t.b1[b], t.b2[b])
  {
    var b := BucketOf(spin1);
    if b !in t.times || b !in t.fit1 || b !in t.fit2 || b !in t.b1 || b !in t.b2 then Err(KeyMissing)
    else Ok(SpinTables(t.times[b], t.fit1[b], t.fit2[b], t.b1[b], t.b2[b]))
  }

  /** The domain of validity: log10(q) in [log10 3, log10 1000] and spin1 in [-0.8, 0.8]. */
  function Bounds(nx: Numerics): (r: seq<seq<real>>)
    ensures |r| == 2 && |r[0]| == 2 && |r[1]| == 2
  {
    [[nx.log10(3.0), -0.8], [nx.log10(1000.0), 0.8]]
  }

  /** `norm = 1/q`, where Python float division by zero raises. */
  function Norm(q: real): (r: Result<real>)
    ensures r.Ok? <==> q != 0.0
    ensures r.Ok? ==> r.value * q == 1.0
  {
    if q == 0.0 then Err(DivisionByZero) else Ok(1.0 / q)
  }

  /** generate_surrogate; the calibration form and the raw generator, absent
      from the repository, are parameters. */
  function GenerateSurrogate(nx: Numerics, loaded: LoadedTables, coefsAlpha: map<Mode, seq<real>>,
                             coefsBeta: seq<real>, form: (seq<real>, real, real, real, real) -> real,
                             allModes: RawGeneratorFor, q: real, spin1: real, modes: Option<seq<Mode>>,
                             mTot: Option<real>, distMpc: Option<real>, orbPhase: Option<real>,
                             inclination: Option<real>, negModes: bool, modeSum: bool, lmax: int,
                             calibrated: bool): (r: Result<Output>)
    ensures SelectTables(loaded, spin1).Err? ==> r == Err(KeyMissing)
    ensures SelectTables(loaded, spin1).Ok? && q == 0.0 ==> r == Err(DivisionByZero)
  {
    var requested := if modes.None? then AvailableModes() else modes.value;
    var tables :- SelectTables(loaded, spin1);
    var xSur := Vector([nx.log10(q), spin1]);
    var xCalib := [q, spin1];
    var norm :- Norm(q);
    EvaluateSurrogate(nx, xSur, xCalib, Bounds(nx), tables.times, requested, AvailableModes(), coefsAlpha,
                      coefsBeta, form, calibrated, mTot, distMpc, orbPhase, inclination,
                      allModes(tables, GprFits, [AmpPhase, AmpPhase], norm), modeSum, negModes, lmax, false)
  }

  /** The call the model makes: the spin1 bucket's time grid and tables, the
      default mode list for `modes=None`, X_sur = [log10 q, spin1],
      X_calib = [q, spin1], GPR fits, amp/phase for both pieces, norm = 1/q
      and no coorbital transform. */
  lemma Configuration(nx: Numerics, loaded: LoadedTables, coefsAlpha: map<Mode, seq<real>>,
                      coefsBeta: seq<real>, form: (seq<real>, real, real, real, real) -> real,
                      allModes: RawGeneratorFor, q: real, spin1: real, modes: Option<seq<Mode>>,
                      mTot: Option<real>, distMpc: Option<real>, orbPhase: Option<real>,
                      inclination: Option<real>, negModes: bool, modeSum: bool, lmax: int, calibrated: bool)
    requires q != 0.0
    ensures var b := BucketOf(spin1);
      var r := GenerateSurrogate(nx, loaded, coefsAlpha, coefsBeta, form, allModes, q, spin1, modes, mTot, distMpc,
                                 orbPhase, inclination, negModes, modeSum, lmax, calibrated);
      var present := b in loaded.times && b in loaded.fit1 && b in loaded.fit2 && b in loaded.b1 && b in loaded.b2;
      (!present ==> r == Err(KeyMissing)) &&
      (present ==>
        var tables := SpinTables(loaded.times[b], loaded.fit1[b], loaded.fit2[b], loaded.b1[b], loaded.b2[b]);
        r == EvaluateSurrogate(nx, Vector([nx.log10(q), spin1]), [q, spin1], Bounds(nx), loaded.times[b],
                               if modes.None? then AvailableModes() else modes.value, AvailableModes(),
                               coefsAlpha, coefsBeta, form, calibrated, mTot, distMpc, orbPhase, inclination,
                               allModes(tables, GprFits, [AmpPhase, AmpPhase], 1.0 / q),
                               modeSum, negModes, lmax, false))
  {
  }

  /** The domain check of [log10 q, spin1] against Bounds never raises, and
      warns about spin1 exactly when it lies outside [-0.8, 0.8]. */
  lemma SpinWarnedOutsideBounds(nx: Numerics, q: real, spin1: real)
    ensures var r := CheckDomainOfValidity(Vector([nx.log10(q), spin1]), Bounds(nx));
      r.Ok? && (1 in r.value <==> spin1 < -0.8 || spin1 > 0.8)
  {
    DomainCheckNeverRaises(Vector([nx.log10(q), spin1]), Bounds(nx)[0], Bounds(nx)[1]);
  }

  /** With the default mode list the mode check always passes. */
  lemma DefaultModesAvailable()
    ensures CheckInputModes(AvailableModes(), AvailableModes()) == Ok(())
  {
  }
}
