/** Exact complex arithmetic over `real`, used to state the resonance model
    in the compact complex form of the model's documentation. */
module ComplexArith {

  datatype Complex = Complex(re: real, im: real)

  const Zero := Complex(0.0, 0.0)

  function Add(a: Complex, b: Complex): Complex {
    Complex(a.re + b.re, a.im + b.im)
  }

  function Sub(a: Complex, b: Complex): Complex {
    Complex(a.re - b.re, a.im - b.im)
  }

  function Mul(a: Complex, b: Complex): Complex {
    Complex(a.re * b.re - a.im * b.im, a.re * b.im + a.im * b.re)
  }

  /** Multiplication by a real factor. */
  function Scale(k: real, a: Complex): Complex {
    Complex(k * a.re, k * a.im)
  }

  /** Squared modulus. */
  function NormSq(a: Complex): real {
    a.re * a.re + a.im * a.im
  }

  /** Complex quotient a / b, by multiplying with the conjugate of b. */
  function Div(a: Complex, b: Complex): Complex
    requires NormSq(b) != 0.0
  {
    Complex((a.re * b.re + a.im * b.im) / NormSq(b), (a.im * b.re - a.re * b.im) / NormSq(b))
  }

  /** Division inverts multiplication by a nonzero divisor. */
  lemma DivInvertsMul(a: Complex, b: Complex)
    requires NormSq(b) != 0.0
    ensures Mul(Div(a, b), b) == a
  {
    var n := NormSq(b);
    var q := Div(a, b);
    assert q.re * b.re - q.im * b.im == (a.re * (b.re * b.re + b.im * b.im)) / n;
    assert q.re * b.im + q.im * b.re == (a.im * (b.re * b.re + b.im * b.im)) / n;
  }
}
