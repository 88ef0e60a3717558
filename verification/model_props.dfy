/** Properties of the resonance model evaluator: agreement with the compact
    complex form, nesting of the variants, exact fits, and exactness of the
    affine Jacobian columns. */
module ModelProps {
  import opened Variants
  import opened ComplexArith
  import opened Model

  // ---------------------------------------------------------------------
  // The compact complex form.

  /** The model in complex form: offset A + iB, plus the resonance term(s)
      (c + i d)/(w0^2 - w^2 + i w dw), multiplied by i*w for a velocity
      response, plus the background (E + iF)(w - w0) when present. */
  function ComplexForm(v: Variant, q: Pars, w: real): Complex
    requires Regular(v, q, w)
  {
    var osc1 := Div(Complex(q.c, q.d), Complex(Wa(q.w0, w), Wb(q.dw, w)));
    var osc2 := if v.IsDouble() then Div(Complex(q.c2, q.d2), Complex(Wa(q.w02, w), Wb(q.dw2, w))) else Zero;
    Combine(v, q, w, osc1, osc2)
  }

  /** Offset, drive and background combined in complex arithmetic. */
  function Combine(v: Variant, q: Pars, w: real, osc1: Complex, osc2: Complex): Complex {
    var osc := if v.IsDouble() then Add(osc1, osc2) else osc1;
    var slope := if v.HasSlope() then Scale(w - q.w0, Complex(q.e, q.f)) else Zero;
    Add(Add(Complex(q.a, q.b), Drive(v, w, osc)), slope)
  }

  /** The response to a resonance term: itself for a coordinate response,
      i*w times it for a velocity response. */
  function Drive(v: Variant, w: real, x: Complex): Complex {
    if v.IsVelocity() then Mul(Complex(0.0, w), x) else x
  }

  /** The component formulas of every variant are the real and imaginary
      parts of the complex form. */
  lemma EvalIsComplexForm(v: Variant, q: Pars, w: real)
    requires Regular(v, q, w)
    ensures Eval(v, q, w) == ComplexForm(v, q, w)
  {
    EvalIsCombine(v, q, w);
    ResonanceIsQuotient(q.c, q.d, q.w0, q.dw, w);
    if v.IsDouble() {
      ResonanceIsQuotient(q.c2, q.d2, q.w02, q.dw2, w);
    }
  }

  /** The written-out resonance term is the complex quotient (c + i d)/(wa + i wb). */
  lemma ResonanceIsQuotient(c: real, d: real, w0: real, dw: real, w: real)
    requires Den(w0, dw, w) != 0.0
    ensures NormSq(Complex(Wa(w0, w), Wb(dw, w))) == Den(w0, dw, w)
    ensures Resonance(c, d, w0, dw, w) == Div(Complex(c, d), Complex(Wa(w0, w), Wb(dw, w)))
  {
  }

  /** The evaluator computes Combine of its two resonance terms. */
  lemma EvalIsCombine(v: Variant, q: Pars, w: real)
    requires Regular(v, q, w)
    ensures Eval(v, q, w) == Combine(v, q, w, Resonance(q.c, q.d, q.w0, q.dw, w), SecondTerm(v, q, w))
  {
    AssembleIsCombine(v, q, w, Resonance(q.c, q.d, q.w0, q.dw, w), SecondTerm(v, q, w));
  }

  /** The switch over the six variants computes Combine; one lemma per variant
      keeps each proof obligation small. */
  lemma AssembleIsCombine(v: Variant, q: Pars, w: real, o1: Complex, o2: Complex)
    ensures Assemble(v, q, w, o1, o2) == Combine(v, q, w, o1, o2)
  {
    match v
    case OscxCoffs => OscxCoffsIsCombine(q, w, o1, o2);
    case OscxLoffs => OscxLoffsIsCombine(q, w, o1, o2);
    case OscvCoffs => OscvCoffsIsCombine(q, w, o1, o2);
    case OscvLoffs => OscvLoffsIsCombine(q, w, o1, o2);
    case DoscxCoffs => DoscxCoffsIsCombine(q, w, o1, o2);
    case DoscvCoffs => DoscvCoffsIsCombine(q, w, o1, o2);
  }

  lemma OscxCoffsIsCombine(q: Pars, w: real, o1: Complex, o2: Complex)
    ensures Assemble(OscxCoffs, q, w, o1, o2) == Combine(OscxCoffs, q, w, o1, o2)
  {
  }

  lemma OscxLoffsIsCombine(q: Pars, w: real, o1: Complex, o2: Complex)
    ensures Assemble(OscxLoffs, q, w, o1, o2) == Combine(OscxLoffs, q, w, o1, o2)
  {
  }

  lemma OscvCoffsIsCombine(q: Pars, w: real, o1: Complex, o2: Complex)
    ensures Assemble(OscvCoffs, q, w, o1, o2) == Combine(OscvCoffs, q, w, o1, o2)
  {
  }

  lemma OscvLoffsIsCombine(q: Pars, w: real, o1: Complex, o2: Complex)
    ensures Assemble(OscvLoffs, q, w, o1, o2) == Combine(OscvLoffs, q, w, o1, o2)
  {
  }

  lemma DoscxCoffsIsCombine(q: Pars, w: real, o1: Complex, o2: Complex)
    ensures Assemble(DoscxCoffs, q, w, o1, o2) == Combine(DoscxCoffs, q, w, o1, o2)
  {
  }

  lemma DoscvCoffsIsCombine(q: Pars, w: real, o1: Complex, o2: Complex)
    ensures Assemble(DoscvCoffs, q, w, o1, o2) == Combine(DoscvCoffs, q, w, o1, o2)
  {
  }

  /** The resonance term as the compact form of the documentation writes it,
      (c + i d)/(wa - i wb), written out: ((c wa - d wb) + i (d wa + c wb)) / z. */
  function DocumentedResonance(c: real, d: real, w0: real, dw: real, w: real): Complex
    requires Den(w0, dw, w) != 0.0
  {
    var wa, wb, z := Wa(w0, w), Wb(dw, w), Den(w0, dw, w);
    Complex((c * wa - d * wb) / z, (d * wa + c * wb) / z)
  }

  /** The written-out documented term is the complex quotient with
      denominator w0^2 - w^2 - i w dw. */
  lemma DocumentedResonanceIsQuotient(c: real, d: real, w0: real, dw: real, w: real)
    requires Den(w0, dw, w) != 0.0
    ensures NormSq(Complex(Wa(w0, w), -Wb(dw, w))) == Den(w0, dw, w)
    ensures DocumentedResonance(c, d, w0, dw, w) == Div(Complex(c, d), Complex(Wa(w0, w), -Wb(dw, w)))
  {
  }

  /** The documented compact form agrees with the term the component
      formulas compute only where it cannot matter: at zero amplitude, or
      where w dw = 0 and the denominator is real. */
  lemma DocumentedResonanceDisagrees(c: real, d: real, w0: real, dw: real, w: real)
    requires Den(w0, dw, w) != 0.0
    ensures DocumentedResonance(c, d, w0, dw, w) == Resonance(c, d, w0, dw, w)
            <==> Wb(dw, w) == 0.0 || (c == 0.0 && d == 0.0)
  {
    var wa, wb, z := Wa(w0, w), Wb(dw, w), Den(w0, dw, w);
    SameQuotient(c * wa - d * wb, c * wa + d * wb, z);
    SameQuotient(d * wa + c * wb, d * wa - c * wb, z);
  }

  /** At c = 0, d = 1, w0 = 0, dw = 1, w = 1 the evaluator's term is
      1/2 - i/2 while the documented one is -1/2 - i/2. */
  lemma DocumentedResonanceExample()
    ensures Den(0.0, 1.0, 1.0) == 2.0
    ensures DocumentedResonance(0.0, 1.0, 0.0, 1.0, 1.0) == Complex(-0.5, -0.5)
    ensures Resonance(0.0, 1.0, 0.0, 1.0, 1.0) == Complex(0.5, -0.5)
  {
  }

  lemma SameQuotient(x: real, y: real, z: real)
    requires z != 0.0
    ensures x / z == y / z <==> x == y
  {
    if x / z == y / z {
      assert x == (x / z) * z;
    }
  }

  // ---------------------------------------------------------------------
  // Nesting of the variants.

  /** Each misfit is the measured value minus the complex-form model at
      that sample's frequency. */
  lemma MisfitsMatchComplexForm(v: Variant, p: seq<real>, s: seq<Sample>)
    requires |p| == v.ParCount() && AllRegular(v, p, s)
    ensures forall i :: 0 <= i < |s| ==>
              Misfits(v, p, s)[i] == Sub(Observed(s[i]), ComplexForm(v, Unpack(p), s[i].freq))
  {
    forall i | 0 <= i < |s|
      ensures Misfits(v, p, s)[i] == Sub(Observed(s[i]), ComplexForm(v, Unpack(p), s[i].freq))
    {
      EvalIsComplexForm(v, Unpack(p), s[i].freq);
    }
  }

  /** Entry 2i of the residual vector is re - X and entry 2i+1 is im - Y of
      sample i, X + iY being the model value at that sample's frequency. */
  lemma ResidualEntries(v: Variant, p: seq<real>, s: seq<Sample>, i: nat)
    requires |p| == v.ParCount() && AllRegular(v, p, s) && i < |s|
    ensures Residuals(v, p, s)[2 * i] == s[i].re - Eval(v, Unpack(p), s[i].freq).re
    ensures Residuals(v, p, s)[2 * i + 1] == s[i].im - Eval(v, Unpack(p), s[i].freq).im
  {
    var m := Misfits(v, p, s);
    assert m[i] == Sub(Observed(s[i]), Eval(v, Unpack(p), s[i].freq));
  }

  /** Residuals depend on the parameters only through the model values at the
      sample frequencies. */
  lemma ResidualsRespectEval(v1: Variant, p1: seq<real>, v2: Variant, p2: seq<real>, s: seq<Sample>)
    requires |p1| == v1.ParCount() && |p2| == v2.ParCount()
    requires AllRegular(v1, p1, s) && AllRegular(v2, p2, s)
    requires forall i :: 0 <= i < |s| ==> Eval(v1, Unpack(p1), s[i].freq) == Eval(v2, Unpack(p2), s[i].freq)
    ensures Residuals(v1, p1, s) == Residuals(v2, p2, s)
  {
    var m1, m2 := Misfits(v1, p1, s), Misfits(v2, p2, s);
    assert forall i :: 0 <= i < |s| ==> m1[i] == m2[i];
    assert m1 == m2;
  }

  /** A linear-offset variant with E = F = 0 is the constant-offset variant of
      the same response kind on the first six parameters. */
  lemma LinearOffsetNestsConstant(v: Variant, p: seq<real>, s: seq<Sample>)
    requires v.HasSlope() && |p| == v.ParCount()
    requires p[6] == 0.0 && p[7] == 0.0
    requires AllRegular(v, p, s)
    ensures AllRegular(v.Base(), p[..6], s)
    ensures Residuals(v, p, s) == Residuals(v.Base(), p[..6], s)
  {
    var q := Unpack(p);
    var q6 := Unpack(p[..6]);
    assert q6 == q.(e := 0.0, f := 0.0);
    forall i | 0 <= i < |s|
      ensures Eval(v, q, s[i].freq) == Eval(v.Base(), q6, s[i].freq)
    {
    }
    ResidualsRespectEval(v, p, v.Base(), p[..6], s);
  }

  /** A two-resonance variant with C2 = D2 = 0 is the single-resonance
      constant-offset variant of the same response kind on the first six
      parameters (the second term still needs z2 != 0 to be defined). */
  lemma DoubleNestsSingle(v: Variant, p: seq<real>, s: seq<Sample>)
    requires v.IsDouble() && |p| == v.ParCount()
    requires p[6] == 0.0 && p[7] == 0.0
    requires AllRegular(v, p, s)
    ensures AllRegular(v.Base(), p[..6], s)
    ensures Residuals(v, p, s) == Residuals(v.Base(), p[..6], s)
  {
    var q := Unpack(p);
    var q6 := Unpack(p[..6]);
    assert q6 == q.(c2 := 0.0, d2 := 0.0, w02 := 0.0, dw2 := 0.0);
    forall i | 0 <= i < |s|
      ensures Eval(v, q, s[i].freq) == Eval(v.Base(), q6, s[i].freq)
    {
      var w := s[i].freq;
      assert Resonance(0.0, 0.0, q.w02, q.dw2, w) == Zero;
    }
    ResidualsRespectEval(v, p, v.Base(), p[..6], s);
  }

  // ---------------------------------------------------------------------
  // Exact fits.

  /** Noise-free samples of variant v at parameters p, at the given frequencies. */
  function Synthesize(v: Variant, p: seq<real>, ws: seq<real>): (s: seq<Sample>)
    requires |p| == v.ParCount()
    requires forall i :: 0 <= i < |ws| ==> Regular(v, Unpack(p), ws[i])
    ensures |s| == |ws| && AllRegular(v, p, s)
    ensures forall i :: 0 <= i < |s| ==>
              s[i].freq == ws[i] && Observed(s[i]) == Eval(v, Unpack(p), ws[i])
  {
    seq(|ws|, i requires 0 <= i < |ws| =>
      var m := Eval(v, Unpack(p), ws[i]); Sample(ws[i], m.re, m.im))
  }

  /** Interleaving zeros gives zeros. */
  lemma {:induction false} InterleaveZeros(cs: seq<Complex>)
    requires forall i :: 0 <= i < |cs| ==> cs[i] == Zero
    ensures Interleave(cs) == seq(2 * |cs|, _ => 0.0)
    decreases |cs|
  {
    if |cs| > 0 {
      assert cs[0] == Zero;
      assert forall i :: 0 <= i < |cs[1..]| ==> cs[1..][i] == cs[i + 1];
      InterleaveZeros(cs[1..]);
      assert seq(2 * |cs|, _ => 0.0) == [0.0, 0.0] + seq(2 * |cs[1..]|, _ => 0.0);
    }
  }

  /** When every sample lies exactly on the model, the residual vector is zero. */
  lemma ExactFitZeroResidual(v: Variant, p: seq<real>, s: seq<Sample>)
    requires |p| == v.ParCount()
    requires AllRegular(v, p, s)
    requires forall i :: 0 <= i < |s| ==> Observed(s[i]) == Eval(v, Unpack(p), s[i].freq)
    ensures Residuals(v, p, s) == seq(2 * |s|, _ => 0.0)
  {
    var m := Misfits(v, p, s);
    assert forall i :: 0 <= i < |s| ==> m[i] == Zero;
    InterleaveZeros(m);
  }

  /** Synthesizing samples from parameters and evaluating the residuals at the
      same parameters gives the zero vector. */
  lemma SynthesizedFitsExactly(v: Variant, p: seq<real>, ws: seq<real>)
    requires |p| == v.ParCount()
    requires forall i :: 0 <= i < |ws| ==> Regular(v, Unpack(p), ws[i])
    ensures Residuals(v, p, Synthesize(v, p, ws)) == seq(2 * |ws|, _ => 0.0)
  {
    var s := Synthesize(v, p, ws);
    assert forall i :: 0 <= i < |s| ==> Observed(s[i]) == Eval(v, Unpack(p), s[i].freq);
    ExactFitZeroResidual(v, p, s);
  }

  // ---------------------------------------------------------------------
  // The affine Jacobian columns are exact.

  lemma DriveLinear(v: Variant, w: real, x: Complex, y: Complex, t: real)
    ensures Drive(v, w, Add(x, y)) == Add(Drive(v, w, x), Drive(v, w, y))
    ensures Drive(v, w, Scale(t, x)) == Scale(t, Drive(v, w, x))
  {
    if v.IsVelocity() {
      assert w * (x.re + y.re) == w * x.re + w * y.re;
      assert w * (x.im + y.im) == w * x.im + w * y.im;
      assert w * (t * x.re) == t * (w * x.re);
      assert w * (t * x.im) == t * (w * x.im);
    }
  }

  lemma CombineShiftA(v: Variant, q: Pars, w: real, o1: Complex, o2: Complex, t: real)
    ensures Combine(v, q.(a := q.a + t), w, o1, o2) == Add(Combine(v, q, w, o1, o2), Complex(t, 0.0))
  {
  }

  lemma CombineShiftB(v: Variant, q: Pars, w: real, o1: Complex, o2: Complex, t: real)
    ensures Combine(v, q.(b := q.b + t), w, o1, o2) == Add(Combine(v, q, w, o1, o2), Complex(0.0, t))
  {
  }

  lemma CombineShiftE(v: Variant, q: Pars, w: real, o1: Complex, o2: Complex, t: real)
    requires v.HasSlope()
    ensures Combine(v, q.(e := q.e + t), w, o1, o2) == Add(Combine(v, q, w, o1, o2), Scale(t, Complex(w - q.w0, 0.0)))
  {
  }

  lemma CombineShiftF(v: Variant, q: Pars, w: real, o1: Complex, o2: Complex, t: real)
    requires v.HasSlope()
    ensures Combine(v, q.(f := q.f + t), w, o1, o2) == Add(Combine(v, q, w, o1, o2), Scale(t, Complex(0.0, w - q.w0)))
  {
  }

  lemma CombineShiftOsc1(v: Variant, q: Pars, w: real, o1: Complex, o2: Complex, delta: Complex)
    ensures Combine(v, q, w, Add(o1, delta), o2) == Add(Combine(v, q, w, o1, o2), Drive(v, w, delta))
  {
    var osc := if v.IsDouble() then Add(o1, o2) else o1;
    var osc' := if v.IsDouble() then Add(Add(o1, delta), o2) else Add(o1, delta);
    assert osc' == Add(osc, delta);
    DriveLinear(v, w, osc, delta, 1.0);
  }

  lemma CombineShiftOsc2(v: Variant, q: Pars, w: real, o1: Complex, o2: Complex, delta: Complex)
    requires v.IsDouble()
    ensures Combine(v, q, w, o1, Add(o2, delta)) == Add(Combine(v, q, w, o1, o2), Drive(v, w, delta))
  {
    assert Add(o1, Add(o2, delta)) == Add(Add(o1, o2), delta);
    DriveLinear(v, w, Add(o1, o2), delta, 1.0);
  }

  /** The resonance term is linear in its amplitude c ... */
  lemma ResonanceShiftC(c: real, d: real, w0: real, dw: real, w: real, t: real)
    requires Den(w0, dw, w) != 0.0
    ensures Resonance(c + t, d, w0, dw, w)
            == Add(Resonance(c, d, w0, dw, w), Scale(t, Complex(Wa(w0, w) / Den(w0, dw, w), -(Wb(dw, w) / Den(w0, dw, w)))))
  {
    var wa, wb, z := Wa(w0, w), Wb(dw, w), Den(w0, dw, w);
    assert ((c + t) * wa + d * wb) / z == (c * wa + d * wb) / z + t * (wa / z);
    assert (d * wa - (c + t) * wb) / z == (d * wa - c * wb) / z + t * -(wb / z);
  }

  /** ... and in its amplitude d. */
  lemma ResonanceShiftD(c: real, d: real, w0: real, dw: real, w: real, t: real)
    requires Den(w0, dw, w) != 0.0
    ensures Resonance(c, d + t, w0, dw, w)
            == Add(Resonance(c, d, w0, dw, w), Scale(t, Complex(Wb(dw, w) / Den(w0, dw, w), Wa(w0, w) / Den(w0, dw, w))))
  {
    var wa, wb, z := Wa(w0, w), Wb(dw, w), Den(w0, dw, w);
    assert (c * wa + (d + t) * wb) / z == (c * wa + d * wb) / z + t * (wb / z);
    assert ((d + t) * wa - c * wb) / z == (d * wa - c * wb) / z + t * (wa / z);
  }

  /** The amplitude entries are minus the response to a unit change of the
      resonance term. */
  lemma AmplitudeColumnIsDrive(v: Variant, ga: real, gb: real, w: real)
    ensures AmplitudeColumn(v, ga, gb, w, true) == Sub(Zero, Drive(v, w, Complex(ga, -gb)))
    ensures AmplitudeColumn(v, ga, gb, w, false) == Sub(Zero, Drive(v, w, Complex(gb, ga)))
  {
  }

  lemma SubScaledNegation(x: Complex, y: Complex, t: real)
    ensures Sub(x, Scale(t, Sub(Zero, y))) == Add(x, Scale(t, y))
  {
  }

  /** Moving affine slot k by t changes the model value by exactly -t times
      the Jacobian entry of that slot: each entry is the exact change of
      -X and -Y per unit change of the parameter. */
  lemma ColumnIsExactSlope(v: Variant, p: seq<real>, w: real, k: nat, t: real)
    requires |p| == v.ParCount() && IsAffineSlot(v, k)
    requires Regular(v, Unpack(p), w)
    ensures k < |p| && Regular(v, Unpack(p[k := p[k] + t]), w)
    ensures Eval(v, Unpack(p[k := p[k] + t]), w)
            == Sub(Eval(v, Unpack(p), w), Scale(t, Column(v, Unpack(p), w, k)))
  {
    var q := Unpack(p);
    var q' := Unpack(p[k := p[k] + t]);
    if k == 0 {
      assert q' == q.(a := q.a + t);
      OffsetSlope(v, q, q', w, k, t);
    } else if k == 1 {
      assert q' == q.(b := q.b + t);
      OffsetSlope(v, q, q', w, k, t);
    } else if k == 2 {
      assert q' == q.(c := q.c + t);
      AmplitudeSlope(v, q, q', w, k, t);
    } else if k == 3 {
      assert q' == q.(d := q.d + t);
      AmplitudeSlope(v, q, q', w, k, t);
    } else if v.HasSlope() {
      if k == 6 {
        assert q' == q.(e := q.e + t);
        BackgroundSlopeE(v, q, w, t);
      } else {
        assert q' == q.(f := q.f + t);
        BackgroundSlopeF(v, q, w, t);
      }
    } else if k == 6 {
      assert q' == q.(c2 := q.c2 + t);
      SecondAmplitudeSlope(v, q, q', w, k, t);
    } else {
      assert q' == q.(d2 := q.d2 + t);
      SecondAmplitudeSlope(v, q, q', w, k, t);
    }
  }

  /** Slots a and b. */
  lemma OffsetSlope(v: Variant, q: Pars, q': Pars, w: real, k: nat, t: real)
    requires Regular(v, q, w)
    requires (k == 0 && q' == q.(a := q.a + t)) || (k == 1 && q' == q.(b := q.b + t))
    ensures Regular(v, q', w)
    ensures Eval(v, q', w) == Sub(Eval(v, q, w), Scale(t, Column(v, q, w, k)))
  {
    var o1 := Resonance(q.c, q.d, q.w0, q.dw, w);
    var o2 := SecondTerm(v, q, w);
    assert Resonance(q'.c, q'.d, q'.w0, q'.dw, w) == o1 && SecondTerm(v, q', w) == o2;
    AssembleIsCombine(v, q, w, o1, o2);
    AssembleIsCombine(v, q', w, o1, o2);
    if k == 0 {
      assert Column(v, q, w, k) == Complex(-1.0, 0.0);
      CombineShiftA(v, q, w, o1, o2, t);
    } else {
      assert Column(v, q, w, k) == Complex(0.0, -1.0);
      CombineShiftB(v, q, w, o1, o2, t);
    }
  }

  lemma BackgroundColumns(v: Variant, q: Pars, w: real)
    requires v.HasSlope() && Regular(v, q, w)
    ensures Column(v, q, w, 6) == Sub(Zero, Complex(w - q.w0, 0.0))
    ensures Column(v, q, w, 7) == Sub(Zero, Complex(0.0, w - q.w0))
  {
  }

  /** Slot e of the linear background. */
  lemma BackgroundSlopeE(v: Variant, q: Pars, w: real, t: real)
    requires v.HasSlope() && Regular(v, q, w)
    ensures Regular(v, q.(e := q.e + t), w)
    ensures Eval(v, q.(e := q.e + t), w) == Sub(Eval(v, q, w), Scale(t, Column(v, q, w, 6)))
  {
    EvalShiftE(v, q, w, t);
    BackgroundColumns(v, q, w);
    SubScaledNegation(Eval(v, q, w), Complex(w - q.w0, 0.0), t);
  }

  lemma EvalShiftE(v: Variant, q: Pars, w: real, t: real)
    requires v.HasSlope() && Regular(v, q, w)
    ensures Regular(v, q.(e := q.e + t), w)
    ensures Eval(v, q.(e := q.e + t), w) == Add(Eval(v, q, w), Scale(t, Complex(w - q.w0, 0.0)))
  {
    var q' := q.(e := q.e + t);
    var o1 := Resonance(q.c, q.d, q.w0, q.dw, w);
    EvalIsCombine(v, q, w);
    EvalIsCombine(v, q', w);
    assert Resonance(q'.c, q'.d, q'.w0, q'.dw, w) == o1 && SecondTerm(v, q', w) == SecondTerm(v, q, w);
    CombineShiftE(v, q, w, o1, SecondTerm(v, q, w), t);
  }

  /** Slot f of the linear background. */
  lemma BackgroundSlopeF(v: Variant, q: Pars, w: real, t: real)
    requires v.HasSlope() && Regular(v, q, w)
    ensures Regular(v, q.(f := q.f + t), w)
    ensures Eval(v, q.(f := q.f + t), w) == Sub(Eval(v, q, w), Scale(t, Column(v, q, w, 7)))
  {
    EvalShiftF(v, q, w, t);
    BackgroundColumns(v, q, w);
    SubScaledNegation(Eval(v, q, w), Complex(0.0, w - q.w0), t);
  }

  lemma EvalShiftF(v: Variant, q: Pars, w: real, t: real)
    requires v.HasSlope() && Regular(v, q, w)
    ensures Regular(v, q.(f := q.f + t), w)
    ensures Eval(v, q.(f := q.f + t), w) == Add(Eval(v, q, w), Scale(t, Complex(0.0, w - q.w0)))
  {
    var q' := q.(f := q.f + t);
    var o1 := Resonance(q.c, q.d, q.w0, q.dw, w);
    EvalIsCombine(v, q, w);
    EvalIsCombine(v, q', w);
    assert Resonance(q'.c, q'.d, q'.w0, q'.dw, w) == o1 && SecondTerm(v, q', w) == SecondTerm(v, q, w);
    CombineShiftF(v, q, w, o1, SecondTerm(v, q, w), t);
  }

  /** Slots c and d of the first resonance. */
  lemma AmplitudeSlope(v: Variant, q: Pars, q': Pars, w: real, k: nat, t: real)
    requires Regular(v, q, w)
    requires (k == 2 && q' == q.(c := q.c + t)) || (k == 3 && q' == q.(d := q.d + t))
    ensures Regular(v, q', w)
    ensures Eval(v, q', w) == Sub(Eval(v, q, w), Scale(t, Column(v, q, w, k)))
  {
    var o1 := Resonance(q.c, q.d, q.w0, q.dw, w);
    var o2 := SecondTerm(v, q, w);
    var ga, gb := Wa(q.w0, w) / Den(q.w0, q.dw, w), Wb(q.dw, w) / Den(q.w0, q.dw, w);
    var g := if k == 2 then Complex(ga, -gb) else Complex(gb, ga);
    if k == 2 {
      ResonanceShiftC(q.c, q.d, q.w0, q.dw, w, t);
    } else {
      ResonanceShiftD(q.c, q.d, q.w0, q.dw, w, t);
    }
    var delta := Scale(t, g);
    assert Resonance(q'.c, q'.d, q'.w0, q'.dw, w) == Add(o1, delta);
    assert SecondTerm(v, q', w) == o2;
    AssembleIsCombine(v, q, w, o1, o2);
    AssembleIsCombine(v, q', w, Add(o1, delta), o2);
    CombineShiftOsc1(v, q, w, o1, o2, delta);
    assert Combine(v, q', w, Add(o1, delta), o2) == Combine(v, q, w, Add(o1, delta), o2);
    AmplitudeColumnIsDrive(v, ga, gb, w);
    DriveLinear(v, w, g, Zero, t);
    SubScaledNegation(Eval(v, q, w), Drive(v, w, g), t);
  }

  /** Slots c2 and d2 of the second resonance of the double variants. */
  lemma SecondAmplitudeSlope(v: Variant, q: Pars, q': Pars, w: real, k: nat, t: real)
    requires v.IsDouble() && Regular(v, q, w)
    requires (k == 6 && q' == q.(c2 := q.c2 + t)) || (k == 7 && q' == q.(d2 := q.d2 + t))
    ensures Regular(v, q', w)
    ensures Eval(v, q', w) == Sub(Eval(v, q, w), Scale(t, Column(v, q, w, k)))
  {
    var o1 := Resonance(q.c, q.d, q.w0, q.dw, w);
    var o2 := SecondTerm(v, q, w);
    var ga, gb := Wa(q.w02, w) / Den(q.w02, q.dw2, w), Wb(q.dw2, w) / Den(q.w02, q.dw2, w);
    var g := if k == 6 then Complex(ga, -gb) else Complex(gb, ga);
    if k == 6 {
      ResonanceShiftC(q.c2, q.d2, q.w02, q.dw2, w, t);
    } else {
      ResonanceShiftD(q.c2, q.d2, q.w02, q.dw2, w, t);
    }
    var delta := Scale(t, g);
    assert SecondTerm(v, q', w) == Add(o2, delta);
    AssembleIsCombine(v, q, w, o1, o2);
    AssembleIsCombine(v, q', w, o1, Add(o2, delta));
    CombineShiftOsc2(v, q, w, o1, o2, delta);
    AmplitudeColumnIsDrive(v, ga, gb, w);
    DriveLinear(v, w, g, Zero, t);
    SubScaledNegation(Eval(v, q, w), Drive(v, w, g), t);
  }

  /** r + t*j entry by entry. */
  function AddScaled(r: seq<real>, t: real, j: seq<real>): (u: seq<real>)
    requires |r| == |j|
    ensures |u| == |r| && forall n :: 0 <= n < |r| ==> u[n] == r[n] + t * j[n]
  {
    seq(|r|, n requires 0 <= n < |r| => r[n] + t * j[n])
  }

  lemma AddScaledAppend(x: seq<real>, t: real, y: seq<real>, x2: seq<real>, y2: seq<real>)
    requires |x| == |y| && |x2| == |y2|
    ensures AddScaled(x + x2, t, y + y2) == AddScaled(x, t, y) + AddScaled(x2, t, y2)
  {
    var a, b := AddScaled(x + x2, t, y + y2), AddScaled(x, t, y) + AddScaled(x2, t, y2);
    forall n | 0 <= n < |a|
      ensures a[n] == b[n]
    {
      if n >= |x| {
        assert (x + x2)[n] == x2[n - |x|] && (y + y2)[n] == y2[n - |x|];
      }
    }
  }

  lemma AddScaledPair(x: Complex, t: real, y: Complex)
    ensures AddScaled([x.re, x.im], t, [y.re, y.im]) == [Add(x, Scale(t, y)).re, Add(x, Scale(t, y)).im]
  {
    var u := AddScaled([x.re, x.im], t, [y.re, y.im]);
    var z := Add(x, Scale(t, y));
    assert z.re == x.re + t * y.re && z.im == x.im + t * y.im;
    assert u[0] == z.re && u[1] == z.im;
    assert |u| == 2;
  }

  /** Interleaving commutes with adding a scaled vector. */
  lemma {:induction false} InterleaveAddScaled(a: seq<Complex>, t: real, b: seq<Complex>, c: seq<Complex>)
    requires |a| == |b| == |c|
    requires forall i :: 0 <= i < |c| ==> c[i] == Add(a[i], Scale(t, b[i]))
    ensures Interleave(c) == AddScaled(Interleave(a), t, Interleave(b))
    decreases |c|
  {
    if |c| > 0 {
      assert forall i :: 0 <= i < |c| - 1 ==> c[1..][i] == c[i + 1] && a[1..][i] == a[i + 1] && b[1..][i] == b[i + 1];
      InterleaveAddScaled(a[1..], t, b[1..], c[1..]);
      assert c[0] == Add(a[0], Scale(t, b[0]));
      AddScaledAppend([a[0].re, a[0].im], t, [b[0].re, b[0].im], Interleave(a[1..]), Interleave(b[1..]));
      AddScaledPair(a[0], t, b[0]);
    }
  }

  /** Over a whole sample set: moving affine slot k by t moves the residual
      vector by exactly t times the Jacobian column of that slot. */
  lemma JacobianIsExactSlope(v: Variant, p: seq<real>, s: seq<Sample>, k: nat, t: real)
    requires |p| == v.ParCount() && IsAffineSlot(v, k)
    requires AllRegular(v, p, s)
    ensures k < |p| && AllRegular(v, p[k := p[k] + t], s)
    ensures Residuals(v, p[k := p[k] + t], s) == AddScaled(Residuals(v, p, s), t, JacobianColumn(v, p, s, k))
  {
    var p' := p[k := p[k] + t];
    forall i | 0 <= i < |s|
      ensures Regular(v, Unpack(p'), s[i].freq)
    {
      ColumnIsExactSlope(v, p, s[i].freq, k, t);
    }
    var m, m', cs := Misfits(v, p, s), Misfits(v, p', s), Columns(v, p, s, k);
    forall i | 0 <= i < |s|
      ensures m'[i] == Add(m[i], Scale(t, cs[i]))
    {
      ColumnIsExactSlope(v, p, s[i].freq, k, t);
      MisfitShift(Observed(s[i]), Eval(v, Unpack(p), s[i].freq), Scale(t, cs[i]));
    }
    InterleaveAddScaled(m, t, cs, m');
  }

  lemma MisfitShift(y: Complex, e: Complex, x: Complex)
    ensures Sub(y, Sub(e, x)) == Add(Sub(y, e), x)
  {
  }
}
