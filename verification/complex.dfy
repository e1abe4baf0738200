/** Complex samples as pairs of reals, and the numpy array arithmetic the
    pipeline uses on one-dimensional arrays (elementwise operations with
    broadcasting, scaling by a scalar, conjugation). */
module Complex {
  import opened Errors

  datatype Complex = Complex(re: real, im: real)

  const Zero: Complex := Complex(0.0, 0.0)

  function FromReal(x: real): Complex {
    Complex(x, 0.0)
  }

  function Add(a: Complex, b: Complex): Complex {
    Complex(a.re + b.re, a.im + b.im)
  }

  function Mul(a: Complex, b: Complex): Complex {
    Complex(a.re * b.re - a.im * b.im, a.re * b.im + a.im * b.re)
  }

  function Conj(a: Complex): Complex {
    Complex(a.re, -a.im)
  }

  /** `a * k` for a real scalar `k`. */
  function Scale(a: Complex, k: real): Complex {
    Complex(a.re * k, a.im * k)
  }

  /** `x ** n` for a natural exponent. */
  function Pow(x: real, n: nat): real {
    if n == 0 then 1.0 else x * Pow(x, n - 1)
  }

  /** A complex time series (a one-dimensional complex numpy array). */
  type Series = seq<Complex>

  /** `np.array(h) * k` for a real scalar `k`. */
  function ScaleSeries(h: Series, k: real): (r: Series)
    ensures |r| == |h|
    ensures forall i :: 0 <= i < |h| ==> r[i] == Scale(h[i], k)
  {
    seq(|h|, i requires 0 <= i < |h| => Scale(h[i], k))
  }

  /** `h * c` for a complex scalar `c`. */
  function MulSeries(h: Series, c: Complex): (r: Series)
    ensures |r| == |h|
    ensures forall i :: 0 <= i < |h| ==> r[i] == Mul(h[i], c)
  {
    seq(|h|, i requires 0 <= i < |h| => Mul(h[i], c))
  }

  /** `c * h` for a complex scalar `c` on the left. */
  function ScalarMulSeries(c: Complex, h: Series): (r: Series)
    ensures |r| == |h|
    ensures forall i :: 0 <= i < |h| ==> r[i] == Mul(c, h[i])
  {
    seq(|h|, i requires 0 <= i < |h| => Mul(c, h[i]))
  }

  /** `np.conj(h)`. */
  function ConjSeries(h: Series): (r: Series)
    ensures |r| == |h|
    ensures forall i :: 0 <= i < |h| ==> r[i] == Conj(h[i])
  {
    seq(|h|, i requires 0 <= i < |h| => Conj(h[i]))
  }

  /** `np.array(t) * k` for a real array. */
  function ScaleReals(t: seq<real>, k: real): (r: seq<real>)
    ensures |r| == |t|
    ensures forall i :: 0 <= i < |t| ==> r[i] == t[i] * k
  {
    seq(|t|, i requires 0 <= i < |t| => t[i] * k)
  }

  /** `np.zeros(n)`, already widened to complex as the first addition does. */
  function Zeros(n: nat): (r: Series)
    ensures |r| == n
    ensures forall i :: 0 <= i < n ==> r[i] == Zero
  {
    seq(n, i requires 0 <= i < n => Zero)
  }

  /** numpy's broadcasting rule for two one-dimensional arrays. */
  predicate Broadcastable(n1: nat, n2: nat) {
    n1 == n2 || n1 == 1 || n2 == 1
  }

  function BroadcastLength(n1: nat, n2: nat): nat {
    if n1 == 1 then n2 else n1
  }

  /** An elementwise binary numpy operation `f(a, b)` on one-dimensional arrays:
      equal lengths pair up index by index, an array of length one is stretched
      to the other's length, and any other pair of lengths raises. */
  function ZipWith<A, B, C>(a: seq<A>, b: seq<B>, f: (A, B) -> C): (r: Result<seq<C>>)
    ensures r.Ok? <==> Broadcastable(|a|, |b|)
    ensures r.Ok? ==> |r.value| == BroadcastLength(|a|, |b|)
    ensures r.Ok? ==> forall i :: 0 <= i < |r.value| ==>
      r.value[i] == f(a[if |a| == 1 then 0 else i], b[if |b| == 1 then 0 else i])
    ensures |a| == |b| ==> (r.Ok? && forall i :: 0 <= i < |a| ==> r.value[i] == f(a[i], b[i]))
    ensures r.Err? ==> r.error == ShapeMismatch
  {
    if !Broadcastable(|a|, |b|) then Err(ShapeMismatch)
    else
      var n := BroadcastLength(|a|, |b|);
      Ok(seq(n, i requires 0 <= i < n => f(a[if |a| == 1 then 0 else i], b[if |b| == 1 then 0 else i])))
  }
}
