/** The resonance model evaluator: the per-sample model value X + iY for
    each variant, the interleaved residual vector handed to the optimizer,
    and the Jacobian columns of the parameters the model is affine in. */
module Model {
  import opened Variants
  import opened ComplexArith

  /** One measured point: frequency and the real/imaginary parts of the response. */
  datatype Sample = Sample(freq: real, re: real, im: real)

  /** A parameter vector read by name. Slots a variant does not have read as zero. */
  datatype Pars = Pars(a: real, b: real, c: real, d: real, w0: real, dw: real,
                       e: real, f: real,
                       c2: real, d2: real, w02: real, dw2: real)

  /** Reads a parameter vector the way the evaluator does: slots 6 and 7 are
      E and F when there are eight parameters, C2 and D2 when there are ten;
      slots 8 and 9 are w02 and dw2. */
  function Unpack(p: seq<real>): (q: Pars)
    requires |p| >= 6
  {
    Pars(p[0], p[1], p[2], p[3], p[4], p[5],
         if |p| == 8 then p[6] else 0.0,
         if |p| == 8 then p[7] else 0.0,
         if |p| == 10 then p[6] else 0.0,
         if |p| == 10 then p[7] else 0.0,
         if |p| == 10 then p[8] else 0.0,
         if |p| == 10 then p[9] else 0.0)
  }

  function Freqs(s: seq<Sample>): (r: seq<real>)
    ensures |r| == |s| && forall i :: 0 <= i < |s| ==> r[i] == s[i].freq
  {
    seq(|s|, i requires 0 <= i < |s| => s[i].freq)
  }

  function Reals(s: seq<Sample>): (r: seq<real>)
    ensures |r| == |s| && forall i :: 0 <= i < |s| ==> r[i] == s[i].re
  {
    seq(|s|, i requires 0 <= i < |s| => s[i].re)
  }

  function Imags(s: seq<Sample>): (r: seq<real>)
    ensures |r| == |s| && forall i :: 0 <= i < |s| ==> r[i] == s[i].im
  {
    seq(|s|, i requires 0 <= i < |s| => s[i].im)
  }

  // Shared building blocks: wa = w0^2 - w^2, wb = w*dw, z = wa^2 + wb^2.

  function Wa(w0: real, w: real): real { w0 * w0 - w * w }

  function Wb(dw: real, w: real): real { w * dw }

  function Den(w0: real, dw: real, w: real): real {
    Wa(w0, w) * Wa(w0, w) + Wb(dw, w) * Wb(dw, w)
  }

  /** The resonance term (c + i d)/(wa + i wb), written out as the evaluator
      computes it: ((c wa + d wb) + i (d wa - c wb)) / z. */
  function Resonance(c: real, d: real, w0: real, dw: real, w: real): Complex
    requires Den(w0, dw, w) != 0.0
  {
    var wa, wb, z := Wa(w0, w), Wb(dw, w), Den(w0, dw, w);
    Complex((c * wa + d * wb) / z, (d * wa - c * wb) / z)
  }

  /** The model is defined at frequency w: z != 0, and z2 != 0 for two resonances. */
  predicate Regular(v: Variant, q: Pars, w: real) {
    Den(q.w0, q.dw, w) != 0.0 && (v.IsDouble() ==> Den(q.w02, q.dw2, w) != 0.0)
  }

  predicate AllRegular(v: Variant, p: seq<real>, s: seq<Sample>)
    requires |p| >= 6
  {
    forall i :: 0 <= i < |s| ==> Regular(v, Unpack(p), s[i].freq)
  }

  /** The per-variant formulas for X + iY, given the first resonance term o1
      and, for two resonances, the second term o2 (ignored otherwise). */
  function Assemble(v: Variant, q: Pars, w: real, o1: Complex, o2: Complex): Complex {
    match v
    case OscxCoffs =>
      Complex(q.a + o1.re, q.b + o1.im)
    case OscxLoffs =>
      Complex(q.a + o1.re + q.e * (w - q.w0), q.b + o1.im + q.f * (w - q.w0))
    case OscvCoffs =>
      Complex(q.a - w * o1.im, q.b + w * o1.re)
    case OscvLoffs =>
      Complex(q.a - w * o1.im + q.e * (w - q.w0), q.b + w * o1.re + q.f * (w - q.w0))
    case DoscxCoffs =>
      Complex(q.a + o1.re + o2.re, q.b + o1.im + o2.im)
    case DoscvCoffs =>
      Complex(q.a - w * o1.im - w * o2.im, q.b + w * o1.re + w * o2.re)
  }

  /** The second resonance term, zero for single-resonance variants. */
  function SecondTerm(v: Variant, q: Pars, w: real): Complex
    requires Regular(v, q, w)
  {
    if v.IsDouble() then Resonance(q.c2, q.d2, q.w02, q.dw2, w) else Zero
  }

  /** The model value X(w) + iY(w) of variant v at frequency w. */
  function Eval(v: Variant, q: Pars, w: real): Complex
    requires Regular(v, q, w)
  {
    Assemble(v, q, w, Resonance(q.c, q.d, q.w0, q.dw, w), SecondTerm(v, q, w))
  }

  /** The measured value re + i im of one sample. */
  function Observed(x: Sample): Complex {
    Complex(x.re, x.im)
  }

  /** Lays out one complex value per sample as the solver's real vector:
      entry 2i is the real part of value i and entry 2i+1 its imaginary part. */
  function Interleave(cs: seq<Complex>): (r: seq<real>)
    ensures |r| == 2 * |cs|
    ensures forall i :: 0 <= i < |cs| ==> r[2 * i] == cs[i].re && r[2 * i + 1] == cs[i].im
    decreases |cs|
  {
    if |cs| == 0 then []
    else
      var rest := Interleave(cs[1..]);
      assert forall i :: 1 <= i < |cs| ==> cs[i] == cs[1..][i - 1];
      [cs[0].re, cs[0].im] + rest
  }

  /** Measured minus modelled value at every sample. */
  function Misfits(v: Variant, p: seq<real>, s: seq<Sample>): (m: seq<Complex>)
    requires |p| == v.ParCount()
    requires AllRegular(v, p, s)
    ensures |m| == |s|
    ensures forall i {:trigger m[i]} :: 0 <= i < |s| ==>
              m[i] == Sub(Observed(s[i]), Eval(v, Unpack(p), s[i].freq))
  {
    seq(|s|, i requires 0 <= i < |s| => Sub(Observed(s[i]), Eval(v, Unpack(p), s[i].freq)))
  }

  /** The residual vector handed to the solver: entry 2i is re - X(freq) and
      entry 2i+1 is im - Y(freq) of sample i. */
  function Residuals(v: Variant, p: seq<real>, s: seq<Sample>): (r: seq<real>)
    requires |p| == v.ParCount()
    requires AllRegular(v, p, s)
    ensures |r| == 2 * |s|
  {
    Interleave(Misfits(v, p, s))
  }

  /** Parameter slots the model is affine in: the offsets A, B, the amplitudes
      C, D, and E, F or C2, D2 when the variant has them. */
  predicate IsAffineSlot(v: Variant, k: nat) {
    k <= 3 || ((v.HasSlope() || v.IsDouble()) && (k == 6 || k == 7))
  }

  /** Entry (-dX/dp_k, -dY/dp_k) of the Jacobian, as the Jacobian routine fills
      it for the affine slots; -w*wb/z is written -w*(wb/z) and so on. */
  function Column(v: Variant, q: Pars, w: real, k: nat): Complex
    requires IsAffineSlot(v, k)
    requires Regular(v, q, w)
  {
    if k == 0 then Complex(-1.0, 0.0)
    else if k == 1 then Complex(0.0, -1.0)
    else if k == 2 || k == 3 then
      AmplitudeColumn(v, Wa(q.w0, w) / Den(q.w0, q.dw, w), Wb(q.dw, w) / Den(q.w0, q.dw, w), w, k == 2)
    else if v.HasSlope() then
      (if k == 6 then Complex(q.w0 - w, 0.0) else Complex(0.0, q.w0 - w))
    else
      AmplitudeColumn(v, Wa(q.w02, w) / Den(q.w02, q.dw2, w), Wb(q.dw2, w) / Den(q.w02, q.dw2, w), w, k == 6)
  }

  /** Entries for the amplitudes c (isC) or d of one resonance term, given
      ga = wa/z and gb = wb/z of that term. */
  function AmplitudeColumn(v: Variant, ga: real, gb: real, w: real, isC: bool): Complex {
    if isC then
      (if v.IsVelocity() then Complex(-w * gb, -w * ga) else Complex(-ga, gb))
    else
      (if v.IsVelocity() then Complex(w * ga, -w * gb) else Complex(-gb, -ga))
  }

  /** The Jacobian entries of slot k, one per sample. */
  function Columns(v: Variant, p: seq<real>, s: seq<Sample>, k: nat): (cs: seq<Complex>)
    requires |p| == v.ParCount()
    requires IsAffineSlot(v, k)
    requires AllRegular(v, p, s)
    ensures |cs| == |s|
    ensures forall i {:trigger cs[i]} :: 0 <= i < |s| ==> cs[i] == Column(v, Unpack(p), s[i].freq, k)
  {
    seq(|s|, i requires 0 <= i < |s| => Column(v, Unpack(p), s[i].freq, k))
  }

  /** Column k of the 2n-row Jacobian, rows interleaved as in the residual vector. */
  function JacobianColumn(v: Variant, p: seq<real>, s: seq<Sample>, k: nat): (j: seq<real>)
    requires |p| == v.ParCount()
    requires IsAffineSlot(v, k)
    requires AllRegular(v, p, s)
    ensures |j| == 2 * |s|
  {
    Interleave(Columns(v, p, s, k))
  }
}
