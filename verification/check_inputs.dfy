/** Validation of user inputs (surrogates/common_utils/check_inputs.py).

    Each check either passes or raises; the domain check never raises on a
    well-shaped bounds table and only reports, as warnings, the indices whose
    parameter lies outside the training bounds. */
module CheckInputs {
  import opened Errors
  import opened Modes
  import opened Numerics

  /** check_input_modes: every requested mode must be an available one. */
  function CheckInputModes(requested: seq<Mode>, available: seq<Mode>): (r: Result<()>)
    ensures r.Ok? <==> forall k :: k in requested ==> k in available
    ensures r.Err? ==> r.error == ModesNotAvailable
  {
    if forall k :: k in requested ==> k in available then Ok(()) else Err(ModesNotAvailable)
  }

  /** A plain number is checked as a one-element parameter list. */
  function AsList(x: Param): seq<real> {
    match x
    case Scalar(v) => [v]
    case Vector(vs) => vs
  }

  /** Index `i` can be compared: its lower bound exists, and its upper bound too
      unless the lower comparison already succeeded (`or` short-circuits). */
  predicate Checkable(xs: seq<real>, bounds: seq<seq<real>>, i: nat)
    requires i < |xs|
  {
    |bounds| >= 1 && i < |bounds[0]| &&
    (xs[i] < bounds[0][i] || (|bounds| >= 2 && i < |bounds[1]|))
  }

  /** The parameter at index `i` lies outside [bounds[0][i], bounds[1][i]]. */
  predicate OutOfBounds(xs: seq<real>, bounds: seq<seq<real>>, i: nat)
    requires i < |xs| && Checkable(xs, bounds, i)
  {
    xs[i] < bounds[0][i] || xs[i] > bounds[1][i]
  }

  /** The comparison of one loop iteration: Ok(true) when a warning is printed. */
  function WarnAt(xs: seq<real>, bounds: seq<seq<real>>, i: nat): (r: Result<bool>)
    requires i < |xs|
    ensures r.Ok? <==> Checkable(xs, bounds, i)
    ensures r.Ok? ==> (r.value <==> OutOfBounds(xs, bounds, i))
    ensures r.Err? ==> r.error == IndexOutOfRange
  {
    if |bounds| == 0 || i >= |bounds[0]| then Err(IndexOutOfRange)
    else if xs[i] < bounds[0][i] then Ok(true)
    else if |bounds| < 2 || i >= |bounds[1]| then Err(IndexOutOfRange)
    else Ok(xs[i] > bounds[1][i])
  }

  /** The warnings of the loop from index `i` on, in increasing index order. */
  function WarningsFrom(xs: seq<real>, bounds: seq<seq<real>>, i: nat): (r: Result<seq<nat>>)
    requires i <= |xs|
    decreases |xs| - i
    ensures r.Ok? <==> forall j :: i <= j < |xs| ==> Checkable(xs, bounds, j)
    ensures r.Ok? ==> forall j: nat :: j in r.value <==> i <= j < |xs| && OutOfBounds(xs, bounds, j)
    ensures r.Ok? ==> Increasing(r.value)
    ensures r.Err? ==> r.error == IndexOutOfRange
  {
    if i == |xs| then Ok([])
    else
      match WarnAt(xs, bounds, i)
      case Err(e) => Err(e)
      case Ok(w) =>
        match WarningsFrom(xs, bounds, i + 1)
        case Err(e) => Err(e)
        case Ok(rest) =>
          PrependIncreasing(i, rest);
          Ok(if w then [i] + rest else rest)
  }

  predicate Increasing(w: seq<nat>) {
    forall a, b :: 0 <= a < b < |w| ==> w[a] < w[b]
  }

  lemma PrependIncreasing(i: nat, rest: seq<nat>)
    requires Increasing(rest) && forall j :: j in rest ==> i < j
    ensures Increasing([i] + rest)
  {
    assert forall a :: 0 < a < |[i] + rest| ==> ([i] + rest)[a] == rest[a - 1] && rest[a - 1] in rest;
  }

  /** check_domain_of_validity: never raises when the bounds table covers every
      index; warns exactly for the indices outside the bounds, once each. */
  function CheckDomainOfValidity(x: Param, bounds: seq<seq<real>>): (r: Result<seq<nat>>)
    ensures r.Ok? <==> forall j :: 0 <= j < |AsList(x)| ==> Checkable(AsList(x), bounds, j)
    ensures r.Ok? ==> forall j: nat :: j in r.value <==> j < |AsList(x)| && OutOfBounds(AsList(x), bounds, j)
    ensures r.Ok? ==> Increasing(r.value)
    ensures r.Err? ==> r.error == IndexOutOfRange
  {
    WarningsFrom(AsList(x), bounds, 0)
  }

  /** A bounds table with a lower and an upper row covering every index never makes the check raise. */
  lemma DomainCheckNeverRaises(x: Param, lower: seq<real>, upper: seq<real>)
    requires |lower| >= |AsList(x)| && |upper| >= |AsList(x)|
    ensures CheckDomainOfValidity(x, [lower, upper]).Ok?
  {
  }

  /** check_extrinsic_params. */
  function CheckExtrinsicParams(mTot: Option<real>, dist: Option<real>, orbPhase: Option<real>,
                                inclination: Option<real>, modeSum: bool): (r: Result<()>)
    ensures r.Ok? <==>
      mTot.None? == dist.None? && orbPhase.None? == inclination.None? &&
      !(modeSum && mTot.None? && dist.None? && orbPhase.None? && inclination.None?)
    ensures mTot.None? != dist.None? ==> r == Err(MassDistanceUnpaired)
    ensures mTot.None? == dist.None? && orbPhase.None? != inclination.None? ==> r == Err(AnglesUnpaired)
    ensures r.Err? ==> r.error in {MassDistanceUnpaired, AnglesUnpaired, ModeSumWithoutExtrinsics}
  {
    if mTot.None? != dist.None? then Err(MassDistanceUnpaired)
    else if orbPhase.None? != inclination.None? then Err(AnglesUnpaired)
    else if modeSum && mTot.None? && dist.None? && orbPhase.None? && inclination.None? then
      Err(ModeSumWithoutExtrinsics)
    else Ok(())
  }

  /** With mode summation, mass and distance without the two angles pass validation. */
  lemma ModeSumPassesWithoutAngles(mTot: real, dist: real)
    ensures CheckExtrinsicParams(Some(mTot), Some(dist), None, None, true).Ok?
  {
  }

  /** check_user_inputs: extrinsic parameters, then the domain, then the modes;
      the first failing check decides the error, and the warnings are returned. */
  function CheckUserInputs(x: Param, bounds: seq<seq<real>>, requested: seq<Mode>, available: seq<Mode>,
                           mTot: Option<real>, dist: Option<real>, orbPhase: Option<real>,
                           inclination: Option<real>, modeSum: bool): (r: Result<seq<nat>>)
    ensures CheckExtrinsicParams(mTot, dist, orbPhase, inclination, modeSum).Err? ==>
      r == Err(CheckExtrinsicParams(mTot, dist, orbPhase, inclination, modeSum).error)
    ensures (CheckExtrinsicParams(mTot, dist, orbPhase, inclination, modeSum).Ok? &&
             CheckDomainOfValidity(x, bounds).Err?) ==> r == Err(IndexOutOfRange)
    ensures r.Ok? <==>
      CheckExtrinsicParams(mTot, dist, orbPhase, inclination, modeSum).Ok? &&
      CheckDomainOfValidity(x, bounds).Ok? && CheckInputModes(requested, available).Ok?
    ensures r.Ok? ==> r.value == CheckDomainOfValidity(x, bounds).value
  {
    var _ :- CheckExtrinsicParams(mTot, dist, orbPhase, inclination, modeSum);
    var warnings :- CheckDomainOfValidity(x, bounds);
    var _ :- CheckInputModes(requested, available);
    Ok(warnings)
  }

  /** An inconsistent extrinsic pair is reported even when the modes are invalid too. */
  lemma ExtrinsicErrorFirst(x: Param, bounds: seq<seq<real>>, requested: seq<Mode>, available: seq<Mode>,
                            mTot: real, orbPhase: Option<real>, inclination: Option<real>, modeSum: bool)
    requires exists k :: k in requested && k !in available
    ensures CheckUserInputs(x, bounds, requested, available, Some(mTot), None, orbPhase, inclination, modeSum)
         == Err(MassDistanceUnpaired)
  {
  }
}
