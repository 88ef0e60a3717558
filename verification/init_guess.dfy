/** The geometric initial guess: the chord through the lowest- and
    highest-frequency samples gives the offset and the background slope,
    the sample furthest from that chord gives the resonance frequency, the
    samples far enough from the chord give the width, and the amplitudes
    follow from the peak sample. The result is laid out per variant. */
module InitGuess {
  import opened Variants
  import opened ComplexArith
  import opened Model
  import opened Scan
  import opened ModelProps

  /** Why no guess exists: all frequencies are equal, so the chord slope
      divides by zero; or a velocity variant divides its amplitudes by a
      zero resonance frequency. */
  datatype Degeneracy = FlatFrequency | ZeroResonance

  datatype Result<T> = Ok(value: T) | Fail(why: Degeneracy)

  /** The line through the lowest- and highest-frequency samples: A + iB is
      the midpoint of those two samples and E, F are the slopes of its real
      and imaginary parts per unit frequency. */
  datatype Chord = Chord(ifmin: nat, ifmax: nat, a: real, b: real, e: real, f: real)

  function FitChord(s: seq<Sample>): (r: Result<Chord>)
    requires |s| >= 1
    ensures r.Fail? <==> forall j :: 0 <= j < |s| ==> s[j].freq == s[0].freq
    ensures r.Fail? ==> r.why == FlatFrequency
    ensures r.Ok? ==> IsFirstMin(Freqs(s), r.value.ifmin) && IsFirstMax(Freqs(s), r.value.ifmax)
    ensures r.Ok? ==> r.value.a == (s[r.value.ifmin].re + s[r.value.ifmax].re) / 2.0 &&
                      r.value.b == (s[r.value.ifmin].im + s[r.value.ifmax].im) / 2.0
  {
    var fr := Freqs(s);
    var ifmin, ifmax := FirstMin(fr), FirstMax(fr);
    ExtremesMeetIffConstant(fr);
    if fr[ifmax] == fr[ifmin] then Fail(FlatFrequency)
    else
      Ok(Chord(ifmin, ifmax,
               (s[ifmin].re + s[ifmax].re) / 2.0,
               (s[ifmin].im + s[ifmax].im) / 2.0,
               (s[ifmax].re - s[ifmin].re) / (fr[ifmax] - fr[ifmin]),
               (s[ifmax].im - s[ifmin].im) / (fr[ifmax] - fr[ifmin])))
  }

  /** Offset of sample i from the chord, measured at equal frequency from
      the line through sample ifmin. */
  function Offset(s: seq<Sample>, ch: Chord, i: nat): Complex
    requires ch.ifmin < |s| && i < |s|
  {
    var base := s[ch.ifmin];
    Complex(s[i].re - base.re - (s[i].freq - base.freq) * ch.e,
            s[i].im - base.im - (s[i].freq - base.freq) * ch.f)
  }

  /** The chord passes through both extreme-frequency samples. */
  lemma ChordThroughExtremes(s: seq<Sample>)
    requires |s| >= 1 && FitChord(s).Ok?
    ensures var ch := FitChord(s).value;
            ch.ifmin < |s| && ch.ifmax < |s| &&
            Offset(s, ch, ch.ifmin) == Zero && Offset(s, ch, ch.ifmax) == Zero
  {
    var ch := FitChord(s).value;
    var lo, hi := s[ch.ifmin], s[ch.ifmax];
    var span := hi.freq - lo.freq;
    assert span != 0.0 by {
      assert Freqs(s)[ch.ifmin] == lo.freq && Freqs(s)[ch.ifmax] == hi.freq;
    }
    assert span * ch.e == hi.re - lo.re && span * ch.f == hi.im - lo.im;
  }

  /** Squared distance of every sample from the chord (the square of the
      hypotenuse fit_res_init computes). */
  function Distances(s: seq<Sample>, ch: Chord): (d: seq<real>)
    requires ch.ifmin < |s|
    ensures |d| == |s|
    ensures forall i :: 0 <= i < |s| ==> d[i] == NormSq(Offset(s, ch, i)) && 0.0 <= d[i]
  {
    seq(|s|, i requires 0 <= i < |s| => NormSq(Offset(s, ch, i)))
  }

  /** Which samples lie beyond the width threshold: distance above
      dmax/sqrt(2), which for squared distances reads 2 d^2 > dmax^2. */
  function AboveThreshold(d: seq<real>, top: real): (above: seq<bool>)
    ensures |above| == |d|
    ensures forall i :: 0 <= i < |d| ==> (above[i] <==> 2.0 * d[i] > top)
  {
    seq(|d|, i requires 0 <= i < |d| => 2.0 * d[i] > top)
  }

  /** The width window around the peak sample imax: the lowest and highest
      frequency among the samples beyond the threshold, widened by one index
      on each side if it collapsed to a single sample. */
  function WidthWindow(s: seq<Sample>, d: seq<real>, imax: nat): (w: Window)
    requires |d| == |s| && imax < |s|
    ensures w.lo < |s| && w.hi < |s|
  {
    var fr, above := Freqs(s), AboveThreshold(d, d[imax]);
    Widen(|s|, Window(LowEnd(fr, above, imax), HighEnd(fr, above, imax)))
  }

  /** Everything the heuristic determines before the layout. */
  datatype Geometry = Geometry(chord: Chord, imax: nat, window: Window,
                               c: real, d: real, w0: real, dw: real)

  /** The heuristic up to the per-variant layout: peak, width and the
      amplitudes C = -w0 dw (im - B), D = w0 dw (re - A) of the peak sample. */
  function Estimate(s: seq<Sample>): (r: Result<Geometry>)
    requires |s| >= 1
    ensures r.Fail? <==> FitChord(s).Fail?
    ensures r.Fail? ==> r.why == FlatFrequency
    ensures r.Ok? ==>
              var g := r.value;
              g.chord == FitChord(s).value && g.chord.ifmin < |s| &&
              IsFirstMax(Distances(s, g.chord), g.imax) && g.w0 == s[g.imax].freq &&
              g.window == WidthWindow(s, Distances(s, g.chord), g.imax) &&
              g.dw == s[g.window.hi].freq - s[g.window.lo].freq &&
              (g.c, g.d) == PeakAmplitudes(g.w0, g.dw, PeakOffset(s[g.imax], g.chord))
  {
    match FitChord(s)
    case Fail(why) => Fail(why)
    case Ok(ch) =>
      var d := Distances(s, ch);
      var imax := Peak(d);
      var window := WidthWindow(s, d, imax);
      var w0, dw := s[imax].freq, s[window.hi].freq - s[window.lo].freq;
      var cd := PeakAmplitudes(w0, dw, PeakOffset(s[imax], ch));
      Ok(Geometry(ch, imax, window, cd.0, cd.1, w0, dw))
  }

  /** How far the peak sample lies from the offset A + iB. */
  function PeakOffset(x: Sample, ch: Chord): Complex {
    Complex(x.re - ch.a, x.im - ch.b)
  }

  /** The amplitudes C = -w0 dw (im - B) and D = w0 dw (re - A) of a single
      resonance whose value at w0 is the peak offset u. */
  function PeakAmplitudes(w0: real, dw: real, u: Complex): (cd: (real, real)) {
    (-w0 * dw * u.im, w0 * dw * u.re)
  }

  /** The peak sample is beyond the width threshold exactly when some sample
      is off the chord. */
  lemma PeakAboveThreshold(s: seq<Sample>)
    requires |s| >= 1 && FitChord(s).Ok?
    ensures var g := Estimate(s).value;
            var d := Distances(s, g.chord);
            AboveThreshold(d, d[g.imax])[g.imax] <==> exists j :: 0 <= j < |s| && d[j] != 0.0
  {
    var g := Estimate(s).value;
    var d := Distances(s, g.chord);
    if exists j :: 0 <= j < |s| && d[j] != 0.0 {
      var j :| 0 <= j < |s| && d[j] != 0.0;
      assert d[j] <= d[g.imax];
    }
  }

  /** The width is non-negative unless the window collapsed and the
      frequencies are out of ascending order. */
  lemma GuessWidthNonNegative(s: seq<Sample>)
    requires |s| >= 1 && FitChord(s).Ok?
    ensures var g := Estimate(s).value;
            var d := Distances(s, g.chord);
            var above := AboveThreshold(d, d[g.imax]);
            LowEnd(Freqs(s), above, g.imax) != HighEnd(Freqs(s), above, g.imax) || Ascending(Freqs(s)) ==>
              g.dw >= 0.0
  {
    var g := Estimate(s).value;
    var d := Distances(s, g.chord);
    var above := AboveThreshold(d, d[g.imax]);
    if LowEnd(Freqs(s), above, g.imax) != HighEnd(Freqs(s), above, g.imax) || Ascending(Freqs(s)) {
      WidthNonNegative(Freqs(s), above, g.imax);
    }
  }

  // ---------------------------------------------------------------------
  // The per-variant layout.

  /** The amplitudes stored in slots 2 and 3: (C, D) for a coordinate
      response, (D/w0, -C/w0) for a velocity response. */
  function Amplitudes(v: Variant, g: Geometry): (cd: (real, real))
    requires v.IsVelocity() ==> g.w0 != 0.0
  {
    if v.IsVelocity() then (g.d / g.w0, -g.c / g.w0) else (g.c, g.d)
  }

  /** The velocity amplitudes give the same drive as the coordinate ones up
      to the factor w/w0: i w (D/w0 - i C/w0) = (w/w0)(C + i D). In
      particular both agree at w = w0. */
  lemma VelocityAmplitudesScale(g: Geometry, w: real)
    requires g.w0 != 0.0
    ensures var cd := Amplitudes(OscvCoffs, g);
            Mul(Complex(0.0, w), Complex(cd.0, cd.1)) == Scale(w / g.w0, Complex(g.c, g.d))
  {
    assert w * (-g.c / g.w0) == (w / g.w0) * -g.c;
    assert w * (g.d / g.w0) == (w / g.w0) * g.d;
  }

  /** The initial parameter vector of variant v, slot by slot as fit_res_init
      fills it, and exactly as long as the variant's parameter count. */
  function Layout(v: Variant, g: Geometry): (p: seq<real>)
    requires v.IsVelocity() ==> g.w0 != 0.0
    ensures |p| == v.ParCount()
  {
    var (c, d) := Amplitudes(v, g);
    match v
    case OscxCoffs => [g.chord.a, g.chord.b, c, d, g.w0, g.dw]
    case OscxLoffs => [g.chord.a, g.chord.b, c, d, g.w0, g.dw, g.chord.e, g.chord.f]
    case OscvCoffs => [g.chord.a, g.chord.b, c, d, g.w0, g.dw]
    case OscvLoffs => [g.chord.a, g.chord.b, c, d, g.w0, g.dw, g.chord.e, g.chord.f]
    case DoscxCoffs => [g.chord.a, g.chord.b, c, d, g.w0 + g.dw, g.dw, c, d, g.w0 - g.dw, g.dw]
    case DoscvCoffs => [g.chord.a, g.chord.b, c, d, g.w0 + g.dw, g.dw, c, d, g.w0 - g.dw, g.dw]
  }

  /** Reading the layout back the way the evaluator reads a parameter vector
      gives the intended named parameters: offsets, amplitudes, resonance,
      E and F only for linear offsets, and for two resonances the same
      amplitudes at w0 + dw and w0 - dw. */
  lemma LayoutReadsBack(v: Variant, g: Geometry)
    requires v.IsVelocity() ==> g.w0 != 0.0
    ensures var cd := Amplitudes(v, g);
            var q := Unpack(Layout(v, g));
            q.a == g.chord.a && q.b == g.chord.b && q.c == cd.0 && q.d == cd.1 && q.dw == g.dw &&
            q.w0 == (if v.IsDouble() then g.w0 + g.dw else g.w0) &&
            (q.e, q.f) == (if v.HasSlope() then (g.chord.e, g.chord.f) else (0.0, 0.0)) &&
            (q.c2, q.d2) == (if v.IsDouble() then cd else (0.0, 0.0)) &&
            (q.w02, q.dw2) == (if v.IsDouble() then (g.w0 - g.dw, g.dw) else (0.0, 0.0))
  {
  }

  /** All samples share one frequency. */
  predicate FlatFrequencies(s: seq<Sample>) {
    forall j :: 0 <= j < |s| ==> s[j].freq == s[0].freq
  }

  /** The geometry fit_res_init arrives at when all frequencies are equal.
      Neither extreme scan moves, so ifmin = ifmax = 0 and the slopes E, F
      are 0/0, not a number. Every distance is then not a number and no
      comparison with one holds: the peak stays at index 0, no sample is
      beyond the threshold, and the collapsed window at 0 is widened. The
      slopes are recorded as 0 here; only the linear-offset layouts read
      them, and those get no guess. */
  function FlatGeometry(s: seq<Sample>): (g: Geometry)
    requires |s| >= 1
    ensures g.imax == 0 && g.w0 == s[0].freq && g.chord.a == s[0].re && g.chord.b == s[0].im
    ensures FlatFrequencies(s) ==> g.dw == 0.0 && g.c == 0.0 && g.d == 0.0
  {
    var ch := Chord(0, 0, (s[0].re + s[0].re) / 2.0, (s[0].im + s[0].im) / 2.0, 0.0, 0.0);
    var window := Widen(|s|, Window(0, 0));
    var w0, dw := s[0].freq, s[window.hi].freq - s[window.lo].freq;
    var cd := PeakAmplitudes(w0, dw, PeakOffset(s[0], ch));
    Geometry(ch, 0, window, cd.0, cd.1, w0, dw)
  }

  /** The geometry behind the guess: the estimate, or the flat-frequency
      geometry when there is no chord. */
  function GuessGeometry(s: seq<Sample>): (g: Geometry)
    requires |s| >= 1
    ensures g.imax < |s| && g.w0 == s[g.imax].freq
    ensures FlatFrequencies(s) ==> g == FlatGeometry(s)
    ensures !FlatFrequencies(s) ==> Estimate(s).Ok? && g == Estimate(s).value
  {
    match Estimate(s)
    case Fail(_) => FlatGeometry(s)
    case Ok(g) => g
  }

  /** The guess for variant v. There is none for a linear offset when all
      frequencies are equal, since its slopes E and F are then 0/0; nor for
      a velocity response whose resonance frequency is zero, since its
      amplitudes D/w0 and -C/w0 then divide by zero. Otherwise, read back
      as the evaluator reads it, it holds the offsets, the amplitudes (divided
      by w0 and rotated for a velocity response), the resonance, and the
      slopes or the second resonance where the variant has them. */
  function InitialGuess(v: Variant, s: seq<Sample>): (r: Result<seq<real>>)
    requires |s| >= 1
    ensures r.Fail? <==> (v.HasSlope() && FlatFrequencies(s)) ||
                         (v.IsVelocity() && s[GuessGeometry(s).imax].freq == 0.0)
    ensures r.Fail? ==> (r.why == FlatFrequency <==> v.HasSlope() && FlatFrequencies(s))
    ensures r.Ok? ==> |r.value| == v.ParCount() && ReadsAs(v, GuessGeometry(s), r.value)
  {
    var g := GuessGeometry(s);
    if v.HasSlope() && FlatFrequencies(s) then Fail(FlatFrequency)
    else if v.IsVelocity() && g.w0 == 0.0 then Fail(ZeroResonance)
    else
      LayoutMeaning(v, g);
      Ok(Layout(v, g))
  }

  /** Parameter vector p, read back the way the evaluator reads it, holds
      the chord's offsets, the width and the resonance of geometry g (the
      upper one of a pair split by the width for two resonances); the peak
      amplitudes, divided by w0 and rotated for a velocity response; the
      chord's slopes for a linear offset; and for two resonances a copy of
      the amplitudes at the lower resonance. Every other slot reads as 0. */
  predicate ReadsAs(v: Variant, g: Geometry, p: seq<real>)
    requires |p| >= 6
  {
    var q := Unpack(p);
    q.a == g.chord.a && q.b == g.chord.b && q.dw == g.dw &&
    q.w0 == (if v.IsDouble() then g.w0 + g.dw else g.w0) &&
    (v.IsVelocity() ==> q.c * g.w0 == g.d && q.d * g.w0 == -g.c) &&
    (!v.IsVelocity() ==> q.c == g.c && q.d == g.d) &&
    (q.e, q.f) == (if v.HasSlope() then (g.chord.e, g.chord.f) else (0.0, 0.0)) &&
    (q.c2, q.d2) == (if v.IsDouble() then (q.c, q.d) else (0.0, 0.0)) &&
    (q.w02, q.dw2) == (if v.IsDouble() then (g.w0 - g.dw, g.dw) else (0.0, 0.0))
  }

  /** The layout of a geometry reads back as that geometry. */
  lemma LayoutMeaning(v: Variant, g: Geometry)
    requires v.IsVelocity() ==> g.w0 != 0.0
    ensures ReadsAs(v, g, Layout(v, g))
  {
    LayoutReadsBack(v, g);
  }

  /** Where a chord exists, the guess is the layout of the estimate. */
  lemma GuessFromEstimate(v: Variant, s: seq<Sample>)
    requires |s| >= 1 && FitChord(s).Ok?
    requires v.IsVelocity() ==> Estimate(s).value.w0 != 0.0
    ensures InitialGuess(v, s) == Ok(Layout(v, Estimate(s).value))
  {
  }

  /** For a single-resonance variant the initial curve passes exactly through
      the peak sample whenever z(w0) != 0, i.e. w0 and dw are nonzero: at w = w0 the
      resonance term is (D - iC)/(w0 dw) = (re - A) + i (im - B) and the
      background vanishes; the velocity amplitudes give the same value. */
  lemma SeedPassesThroughPeak(v: Variant, s: seq<Sample>)
    requires |s| >= 1 && !v.IsDouble() && FitChord(s).Ok?
    requires var g := Estimate(s).value; Den(g.w0, g.dw, g.w0) != 0.0
    ensures InitialGuess(v, s).Ok?
    ensures var g, p := Estimate(s).value, InitialGuess(v, s).value;
            g.imax < |s| && Regular(v, Unpack(p), g.w0) && Eval(v, Unpack(p), g.w0) == Observed(s[g.imax])
  {
    var g := Estimate(s).value;
    GuessFromEstimate(v, s);
    GuessAtPeak(v, g, PeakOffset(s[g.imax], g.chord));
  }

  /** The same at the level of the layout: amplitudes computed from an
      offset u give the model value A + iB + u at w0. */
  lemma GuessAtPeak(v: Variant, g: Geometry, u: Complex)
    requires !v.IsDouble()
    requires (g.c, g.d) == PeakAmplitudes(g.w0, g.dw, u)
    requires Den(g.w0, g.dw, g.w0) != 0.0
    ensures g.w0 != 0.0
    ensures Regular(v, Unpack(Layout(v, g)), g.w0)
    ensures Eval(v, Unpack(Layout(v, g)), g.w0) == Complex(g.chord.a + u.re, g.chord.b + u.im)
  {
    DriveAtPeak(v, g, u);
    var q := Unpack(Layout(v, g));
    var cd := Amplitudes(v, g);
    LayoutReadsBack(v, g);
    assert q.c == cd.0 && q.d == cd.1 && q.w0 == g.w0 && q.dw == g.dw;
    EvalIsCombine(v, q, g.w0);
    CombineAtPeak(v, q, g.w0, Resonance(q.c, q.d, q.w0, q.dw, g.w0), u);
  }

  /** The resonance term of the guessed amplitudes, driven at w0, is the
      peak offset u. */
  lemma DriveAtPeak(v: Variant, g: Geometry, u: Complex)
    requires (g.c, g.d) == PeakAmplitudes(g.w0, g.dw, u)
    requires Den(g.w0, g.dw, g.w0) != 0.0
    ensures g.w0 != 0.0
    ensures var cd := Amplitudes(v, g);
            Drive(v, g.w0, Resonance(cd.0, cd.1, g.w0, g.dw, g.w0)) == u
  {
    RegularAtPeak(g.w0, g.dw);
    if v.IsVelocity() {
      VelocityAtPeak(g.w0, g.dw, u, g.c, g.d);
    } else {
      CoordinateAtPeak(g.w0, g.dw, u, g.c, g.d);
    }
  }

  /** With C = -w0 dw u.im and D = w0 dw u.re the resonance term at w0 is
      u itself for coordinate amplitudes (C, D), and i w0 times it is u for
      velocity amplitudes (D/w0, -C/w0). */
  lemma CoordinateAtPeak(w0: real, dw: real, u: Complex, c: real, d: real)
    requires (c, d) == PeakAmplitudes(w0, dw, u)
    requires Den(w0, dw, w0) != 0.0
    ensures Resonance(c, d, w0, dw, w0) == u
  {
    ResonanceAtPeak(c, d, w0, dw);
    NegatedProduct(w0, dw, u.im);
    PeakDriveCoordinate(w0 * dw, u, c, d);
  }

  lemma VelocityAtPeak(w0: real, dw: real, u: Complex, gc: real, gd: real)
    requires (gc, gd) == PeakAmplitudes(w0, dw, u)
    requires Den(w0, dw, w0) != 0.0
    ensures w0 != 0.0
    ensures Mul(Complex(0.0, w0), Resonance(gd / w0, -gc / w0, w0, dw, w0)) == u
  {
    RegularAtPeak(w0, dw);
    ResonanceAtPeak(gd / w0, -gc / w0, w0, dw);
    NegatedProduct(w0, dw, u.im);
    PeakAmplitudesVelocity(w0, dw, u, gc, gd);
    PeakDriveVelocity(w0, dw, u, gd / w0, -gc / w0);
  }

  /** z(w0) = (w0 dw)^2, so a resonance regular at its own centre has
      neither w0 nor dw zero. */
  lemma RegularAtPeak(w0: real, dw: real)
    requires Den(w0, dw, w0) != 0.0
    ensures w0 != 0.0 && dw != 0.0 && w0 * dw != 0.0
  {
    assert Wa(w0, w0) == 0.0;
    assert Den(w0, dw, w0) == (w0 * dw) * (w0 * dw);
  }

  /** At w = w0 the resonance term is (d - i c)/(w0 dw); z(w0) != 0 is the
      same as w0 dw != 0. */
  lemma ResonanceAtPeak(c: real, d: real, w0: real, dw: real)
    requires Den(w0, dw, w0) != 0.0
    ensures w0 * dw != 0.0
    ensures Resonance(c, d, w0, dw, w0) == Complex(d / (w0 * dw), -c / (w0 * dw))
  {
    assert Wa(w0, w0) == 0.0;
    assert Wb(dw, w0) == w0 * dw;
    assert Den(w0, dw, w0) == (w0 * dw) * (w0 * dw);
    CancelFactor(d, w0 * dw);
    CancelFactor(-c, w0 * dw);
    assert c * Wa(w0, w0) + d * Wb(dw, w0) == d * (w0 * dw);
    assert d * Wa(w0, w0) - c * Wb(dw, w0) == (-c) * (w0 * dw);
  }

  lemma PeakAmplitudesVelocity(w0: real, dw: real, u: Complex, gc: real, gd: real)
    requires w0 != 0.0
    requires -gc == (w0 * dw) * u.im && gd == (w0 * dw) * u.re
    ensures w0 * (gd / w0) == (w0 * dw) * u.re && w0 * (-gc / w0) == (w0 * dw) * u.im
  {
  }

  lemma PeakDriveCoordinate(k: real, u: Complex, gc: real, gd: real)
    requires k != 0.0
    requires -gc == k * u.im && gd == k * u.re
    ensures Complex(gd / k, -gc / k) == u
  {
    QuotientStep(1.0, gd, k, u.re);
    QuotientStep(1.0, -gc, k, u.im);
  }

  lemma PeakDriveVelocity(w0: real, dw: real, u: Complex, c: real, d: real)
    requires w0 * dw != 0.0
    requires w0 * c == (w0 * dw) * u.re && w0 * d == (w0 * dw) * u.im
    ensures Mul(Complex(0.0, w0), Complex(d / (w0 * dw), -c / (w0 * dw))) == u
  {
    QuotientStep(w0, c, w0 * dw, u.re);
    QuotientStep(w0, d, w0 * dw, u.im);
    assert -w0 * (-c / (w0 * dw)) == w0 * (c / (w0 * dw));
  }

  // Real-arithmetic steps the solver does not find unaided.

  lemma SquareCancel(k: real, a: real, b: real)
    requires k != 0.0 && (k * k) * a == (k * k) * b
    ensures a == b
  {
    assert (k * k) * (a - b) == 0.0;
    assert k * (k * (a - b)) == 0.0;
  }

  /** (x k)/(k k) = x/k for k != 0. */
  lemma CancelFactor(x: real, k: real)
    requires k != 0.0
    ensures (x * k) / (k * k) == x / k
  {
    assert k * k != 0.0;
    assert (k * k) * ((x * k) / (k * k)) == x * k;
    assert (k * k) * (x / k) == x * k by {
      assert k * (x / k) == x;
      assert (k * k) * (x / k) == k * (k * (x / k));
    }
    SquareCancel(k, (x * k) / (k * k), x / k);
  }

  /** a (x/k) = u whenever a x = k u and k != 0. */
  lemma QuotientStep(a: real, x: real, k: real, u: real)
    requires k != 0.0 && a * x == k * u
    ensures a * (x / k) == u
  {
    assert k * (x / k) == x;
    assert k * (a * (x / k)) == a * x;
    assert k * (a * (x / k) - u) == 0.0;
  }

  lemma NegatedProduct(a: real, b: real, c: real)
    ensures -a * b * c == -((a * b) * c)
  {
  }

  /** Offset plus a drive of u, with the background vanishing at w = w0. */
  lemma CombineAtPeak(v: Variant, q: Pars, w0: real, o: Complex, u: Complex)
    requires q.w0 == w0 && Drive(v, w0, o) == u
    ensures Combine(v, q, w0, o, Zero) == Complex(q.a + u.re, q.b + u.im)
  {
  }

  // ---------------------------------------------------------------------
  // The fixed-size parameter buffer.

  /** Slots in the caller's parameter buffer, as declared for the
      initial guess and the fit. */
  const MaxPars := 8

  /** A parameter buffer long enough for the layout of every variant. */
  const BufferSize := 10

  /** Writing a layout into a buffer either fits, leaving the unwritten
      slots zero, or writes past its end, the first such write being at
      the slot one past the buffer. */
  datatype Stored = Stored(buffer: seq<real>) | OutOfBounds(slot: nat)

  /** The layout stored slot by slot into a buffer of the given size. */
  function Store(layout: seq<real>, size: nat): (r: Stored)
    ensures r.Stored? <==> |layout| <= size
    ensures r.Stored? ==> |r.buffer| == size && r.buffer[..|layout|] == layout &&
                          forall i :: |layout| <= i < size ==> r.buffer[i] == 0.0
    ensures r.OutOfBounds? ==> r.slot == size < |layout|
  {
    if |layout| <= size then Stored(layout + seq(size - |layout|, _ => 0.0))
    else OutOfBounds(size)
  }

  /** In a buffer of MaxPars slots the layout is written out of bounds
      exactly for the two-resonance variants. */
  lemma BufferOverflowsForDouble(v: Variant, g: Geometry)
    requires v.IsVelocity() ==> g.w0 != 0.0
    ensures Store(Layout(v, g), MaxPars).OutOfBounds? <==> v.IsDouble()
    ensures v.IsDouble() ==> Store(Layout(v, g), MaxPars).slot == 8
  {
  }

  /** A buffer of BufferSize slots holds the layout of every variant, and
      its first ParCount slots read back as the layout. */
  lemma BufferHoldsEveryLayout(v: Variant, g: Geometry)
    requires v.IsVelocity() ==> g.w0 != 0.0
    ensures v.ParCount() <= BufferSize
    ensures Store(Layout(v, g), BufferSize).Stored?
    ensures Store(Layout(v, g), BufferSize).buffer[..v.ParCount()] == Layout(v, g)
  {
  }
}
