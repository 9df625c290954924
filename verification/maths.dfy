/** The transcendental functions of JavaScript's `Math` that the viewer
    uses.  They are not computed: every operation that needs one takes the
    record as a parameter, and a property that depends on one states what
    it assumes of it. */
module Maths {

  /** `Math.PI`, the double closest to pi, written out exactly. */
  const Pi: real := 3.141592653589793

  datatype Functions = Functions(
    sqrt: real -> real,
    sin: real -> real,
    cos: real -> real,
    tan: real -> real,
    log: real -> real,
    pow: (real, real) -> real)

  /** What a property may assume of `Math.sqrt`: non-negative, and zero
      only at zero. */
  ghost predicate SqrtIsPositive(m: Functions) {
    forall x: real :: (x > 0.0 ==> m.sqrt(x) > 0.0) && (x <= 0.0 ==> m.sqrt(x) == 0.0)
  }
}
