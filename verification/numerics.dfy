/** The numerical collaborators the pipeline calls but does not define.

    scipy's `splev`, numpy's `exp(1j*x)` and `unwrap(angle(h))`, gwtools' `sYlm`
    and `log10`, and the physical constants are not modelled: a `Numerics`
    value supplies them, and every statement proved below holds for every such
    value. */
module Numerics {
  import opened Complex

  /** One univariate spline descriptor (knots, coefficients, degree), as splev takes it. */
  datatype Spline = Spline(knots: seq<real>, coefs: seq<real>, degree: nat)

  /** A surrogate parameter: a plain number or a list of numbers. */
  datatype Param = Scalar(x: real) | Vector(xs: seq<real>)

  datatype Numerics = Numerics(
    splev: (Spline, Param) -> real,             // scipy.interpolate.splev at X
    cis: real -> Complex,                       // np.exp(1j * x)
    unwrapAngle: (Series, int) -> real,         // sample k of np.unwrap(np.angle(h))
    sYlm: (int, int, int, real, real) -> Complex, // gwtools sYlm(s, ll, mm, theta, phi)
    log10: real -> real,                        // np.log10
    gSI: real,                                  // gwtools.G
    msunSI: real,                               // gwtools.MSUN_SI
    pcSI: real,                                 // gwtools.PC_SI
    cSI: real                                   // gwtools.c
  )

  /** `np.unwrap(np.angle(h)) / 2`: the orbital phase derived from the (2,2) mode,
      one value per sample of `h`. */
  function OrbitalPhase(nx: Numerics, h: Series): (phi: seq<real>)
    ensures |phi| == |h|
    ensures forall k :: 0 <= k < |h| ==> phi[k] == nx.unwrapAngle(h, k) / 2.0
  {
    seq(|h|, k requires 0 <= k < |h| => nx.unwrapAngle(h, k) / 2.0)
  }

  /** exp(-i a) is the conjugate of exp(i a), a property of the exponential
      that the model leaves uninterpreted. */
  ghost predicate CisConjugate(nx: Numerics) {
    forall a, b :: a == -b ==> nx.cis(a) == Conj(nx.cis(b))
  }

  /** unwrap(angle(conj(h))) = -unwrap(angle(h)) sample by sample: angle
      changes sign under conjugation and unwrap commutes with negation, away
      from the branch point where a jump of exactly pi is met. */
  ghost predicate UnwrapOddUnderConj(nx: Numerics) {
    forall h: Series, k: int :: nx.unwrapAngle(ConjSeries(h), k) == -nx.unwrapAngle(h, k)
  }

  /** Under that property the orbital phase of a conjugated mode is the
      negated orbital phase of the mode. */
  lemma ConjNegatesOrbitalPhase(nx: Numerics, h: Series)
    requires UnwrapOddUnderConj(nx)
    ensures |OrbitalPhase(nx, ConjSeries(h))| == |h|
    ensures forall k :: 0 <= k < |h| ==> OrbitalPhase(nx, ConjSeries(h))[k] == -OrbitalPhase(nx, h)[k]
  {
    forall k | 0 <= k < |h| ensures OrbitalPhase(nx, ConjSeries(h))[k] == -OrbitalPhase(nx, h)[k] {
      assert nx.unwrapAngle(ConjSeries(h), k) == -nx.unwrapAngle(h, k);
    }
  }
}
