/** The fitting wrapper: it hands the first p slots of the parameter buffer
    to the least-squares solver as the starting point and copies the
    solver's parameters and parameter errors back into buffers of BufferSize
    slots, zeroing the slots past p. The solver itself is a parameter. */
module Fit {
  import opened Variants
  import opened Model
  import opened InitGuess

  /** What the solver hands back: the parameter vector, the parameter
      errors and the root-mean-square residual. */
  datatype Solution = Solution(x: seq<real>, xe: seq<real>, res: real)

  /** The nonlinear least-squares solver for a variant, a sample set and a
      starting vector of p parameters. */
  type Solver = (Variant, seq<Sample>, seq<real>) -> Solution

  /** A fit as the caller sees it: parameter and error buffers of BufferSize
      slots and the residual measure. */
  datatype FitOut = FitOut(pars: seq<real>, errs: seq<real>, res: real)

  /** A buffer of BufferSize slots holding the first p values of x, then zeros.
      The solver yields exactly p values; a shorter vector reads as zeros. */
  function Slots(x: seq<real>, p: nat): (b: seq<real>)
    requires p <= BufferSize
    ensures |b| == BufferSize
    ensures forall i :: 0 <= i < BufferSize ==> b[i] == (if i < p && i < |x| then x[i] else 0.0)
  {
    seq(BufferSize, i requires 0 <= i < BufferSize => if i < p && i < |x| then x[i] else 0.0)
  }

  /** One fit of variant v to the samples s, starting from the buffer start. */
  function FitRes(solve: Solver, v: Variant, s: seq<Sample>, start: seq<real>): (r: FitOut)
    requires |start| >= v.ParCount()
    ensures |r.pars| == BufferSize && |r.errs| == BufferSize
    ensures var sol := solve(v, s, start[..v.ParCount()]);
            r.res == sol.res &&
            (|sol.x| >= v.ParCount() ==> r.pars[..v.ParCount()] == sol.x[..v.ParCount()]) &&
            (|sol.xe| >= v.ParCount() ==> r.errs[..v.ParCount()] == sol.xe[..v.ParCount()])
    ensures forall i :: v.ParCount() <= i < BufferSize ==> r.pars[i] == 0.0 && r.errs[i] == 0.0
  {
    var p := v.ParCount();
    var sol := solve(v, s, start[..p]);
    FitOut(Slots(sol.x, p), Slots(sol.xe, p), sol.res)
  }

  /** Starting a second fit from the buffer a first fit returned hands the
      solver exactly the parameters the first fit found. */
  lemma RefitStartsAtFit(solve: Solver, v: Variant, s: seq<Sample>, start: seq<real>)
    requires |start| >= v.ParCount()
    requires |solve(v, s, start[..v.ParCount()]).x| == v.ParCount()
    ensures FitRes(solve, v, s, start).pars[..v.ParCount()] == solve(v, s, start[..v.ParCount()]).x
  {
  }
}
