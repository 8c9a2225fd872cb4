/** The floating-point primitives of numpy and pandas that the program calls.
    Their exact IEEE behaviour is not modelled: each is a parameter of the
    model, and the few facts the proofs use are stated as separate laws. */
module Floats {
  import opened Wrappers

  datatype FloatOps = FloatOps(
    pow: (real, real) -> Option<real>,  // `x ** e` on float64; None where the result is NaN
    sampleStd: seq<real> -> real,       // pandas `std()` (ddof = 1) of two or more values
    sqrt252: real,                      // `np.sqrt(252)`
    float32: real -> real)              // rounding by `astype('float32')`

  /** `x ** 1.0 == x` exactly. */
  ghost predicate ExponentOneIsExact(ops: FloatOps) {
    forall b :: ops.pow(b, 1.0) == Some(b)
  }

  /** A non-negative base has a real power for every exponent. */
  ghost predicate PowDefinedOnNonNegative(ops: FloatOps) {
    forall b, e :: 0.0 <= b ==> ops.pow(b, e).Some?
  }

  predicate Constant(s: seq<real>) {
    forall i :: 0 <= i < |s| ==> s[i] == s[0]
  }

  /** The standard deviation of a constant window is zero. */
  ghost predicate ConstantHasZeroStd(ops: FloatOps) {
    forall s :: Constant(s) ==> ops.sampleStd(s) == 0.0
  }

  /** Rounding a float32 to float32 again changes nothing. */
  ghost predicate Float32Idempotent(ops: FloatOps) {
    forall x :: ops.float32(ops.float32(x)) == ops.float32(x)
  }

  /** pandas sample standard deviation: NaN for fewer than two values. */
  function SampleStd(ops: FloatOps, w: seq<real>): (r: Option<real>)
    ensures r.Some? <==> |w| >= 2
  {
    if |w| < 2 then None else Some(ops.sampleStd(w))
  }
}
