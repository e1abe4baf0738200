/** Composition of two real datapieces into one complex mode
    (amp_ph_to_comp and re_im_to_comp in surrogates/common_utils/utils.py, and
    the four-argument re_im_to_comp of the older
    surrogates/surrogate_utils/BHPTNRSur1dq1e4/generate_raw_surrogate.py). */
module Composition {
  import opened Errors
  import opened Complex
  import opened Numerics

  /** `amp * np.exp(1j * phase)`. */
  function AmpPhToComp(nx: Numerics, amp: seq<real>, phase: seq<real>): (r: Result<Series>)
    ensures r.Ok? <==> Broadcastable(|amp|, |phase|)
    ensures r.Err? ==> r.error == ShapeMismatch
    ensures |amp| == |phase| ==> (r.Ok? && |r.value| == |amp| &&
      forall i :: 0 <= i < |amp| ==> r.value[i] == Mul(FromReal(amp[i]), nx.cis(phase[i])))
  {
    ZipWith(amp, phase, (a: real, p: real) => Mul(FromReal(a), nx.cis(p)))
  }

  /** `re + 1j * im`: the coorbital-frame mode. */
  function ReImToComp(re: seq<real>, im: seq<real>): (r: Result<Series>)
    ensures r.Ok? <==> Broadcastable(|re|, |im|)
    ensures r.Err? ==> r.error == ShapeMismatch
    ensures |re| == |im| ==> (r.Ok? && |r.value| == |re| &&
      forall i :: 0 <= i < |re| ==> r.value[i] == Complex(re[i], im[i]))
  {
    ZipWith(re, im, (a: real, b: real) => Complex(a, b))
  }

  /** The rotation angle `m * phi` of mode m at orbital phase phi. */
  function Angle(m: int, phi: real): real {
    m as real * phi
  }

  /** `h * np.exp(1j * m * np.array(phi))`: mode m turned by its angle at each orbital phase sample. */
  function Rotate(nx: Numerics, h: Series, m: int, phi: seq<real>): (r: Result<Series>)
    ensures r.Ok? <==> Broadcastable(|h|, |phi|)
    ensures r.Err? ==> r.error == ShapeMismatch
    ensures |h| == |phi| ==> (r.Ok? && |r.value| == |h| &&
      forall i :: 0 <= i < |h| ==> r.value[i] == Mul(h[i], nx.cis(Angle(m, phi[i]))))
  {
    ZipWith(h, phi, (z: Complex, p: real) => Mul(z, nx.cis(Angle(m, p))))
  }

  /** `(re + 1j * im) * np.exp(1j * m * orbital_phase)`: the coorbital mode
      composed and turned into the inertial frame in one step. */
  function ReImToCompRotated(nx: Numerics, re: seq<real>, im: seq<real>, m: int, orbitalPhase: seq<real>)
    : (r: Result<Series>)
    ensures |re| == |im| == |orbitalPhase| ==> (r.Ok? && |r.value| == |re| &&
      forall i :: 0 <= i < |re| ==>
        r.value[i] == Mul(Complex(re[i], im[i]), nx.cis(Angle(m, orbitalPhase[i]))))
    ensures !Broadcastable(|re|, |im|) ==> r == Err(ShapeMismatch)
    ensures r.Err? ==> r.error == ShapeMismatch
  {
    match ReImToComp(re, im)
    case Err(e) => Err(e)
    case Ok(h) => Rotate(nx, h, m, orbitalPhase)
  }
}
