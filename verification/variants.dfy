/** The closed set of lineshape variants that the evaluator, the initial
    guess and the Jacobian switch over. */
module Variants {

  /** One tag per lineshape:
      OscxCoffs / OscxLoffs   coordinate response, constant / linear offset;
      OscvCoffs / OscvLoffs   velocity response, constant / linear offset;
      DoscxCoffs / DoscvCoffs two overlapping coordinate / velocity resonances. */
  datatype Variant =
    | OscxCoffs
    | OscxLoffs
    | OscvCoffs
    | OscvLoffs
    | DoscxCoffs
    | DoscvCoffs
  {
    /** Velocity response: the oscillating part carries an extra factor i*w. */
    predicate IsVelocity() {
      this == OscvCoffs || this == OscvLoffs || this == DoscvCoffs
    }

    /** Linear background term (E + iF)*(w - w0). */
    predicate HasSlope() {
      this == OscxLoffs || this == OscvLoffs
    }

    /** A second resonance with its own (C2, D2, w02, dw2). */
    predicate IsDouble() {
      this == DoscxCoffs || this == DoscvCoffs
    }

    /** Length of the parameter vector of this variant. */
    function ParCount(): (n: nat)
      ensures n == 6 + (if HasSlope() then 2 else 0) + (if IsDouble() then 4 else 0)
    {
      match this
      case OscxCoffs => 6
      case OscxLoffs => 8
      case OscvCoffs => 6
      case OscvLoffs => 8
      case DoscxCoffs => 10
      case DoscvCoffs => 10
    }

    /** The constant-offset single resonance of the same response kind. */
    function Base(): (b: Variant)
      ensures !b.HasSlope() && !b.IsDouble() && b.IsVelocity() == IsVelocity()
    {
      if IsVelocity() then OscvCoffs else OscxCoffs
    }
  }
}
