/** Arithmetic helpers shared by the simulation: JavaScript's `Math.sign`
    and `Math.abs` on finite numbers, the sign-preserving magnitude clamp the
    integrator applies to velocities and accelerations, and the range of
    `Math.random`. */
module Numeric {

  /** `Math.sign` on a finite number: -1, 0 or 1. */
  function Sign(v: real): (s: real)
    ensures s == -1.0 || s == 0.0 || s == 1.0
    ensures s > 0.0 <==> v > 0.0
    ensures s < 0.0 <==> v < 0.0
  {
    if v > 0.0 then 1.0 else if v < 0.0 then -1.0 else 0.0
  }

  /** `Math.abs` on a finite number. */
  function Abs(v: real): (a: real)
    ensures a >= 0.0
    ensures a == v || a == -v
  {
    if v < 0.0 then -v else v
  }

  /** The clamp written out at every acceleration and velocity update:
      a value whose magnitude exceeds `bound` becomes `bound` times its sign,
      any other value is kept. */
  function ClampMagnitude(v: real, bound: real): (r: real)
    ensures Abs(v) <= bound ==> r == v
    ensures bound >= 0.0 ==> Abs(r) <= bound
    ensures bound >= 0.0 && Abs(v) > bound ==> Abs(r) == bound
    ensures bound >= 0.0 ==> (v > 0.0 ==> r >= 0.0) && (v < 0.0 ==> r <= 0.0)
    ensures bound > 0.0 ==> Sign(r) == Sign(v)
  {
    if Abs(v) > bound then bound * Sign(v) else v
  }

  /** Clamping twice is clamping once. */
  lemma ClampIdempotent(v: real, bound: real)
    requires bound >= 0.0
    ensures ClampMagnitude(ClampMagnitude(v, bound), bound) == ClampMagnitude(v, bound)
  {
  }

  /** A value `Math.random` can return. */
  predicate Sample(r: real)
  {
    0.0 <= r < 1.0
  }

  /** A stream of values drawn from `Math.random`, in call order. */
  predicate Samples(rs: seq<real>)
  {
    forall i :: 0 <= i < |rs| ==> Sample(rs[i])
  }
}

/** The optional value used for "no command" and "no binding". */
module Options {

  datatype Option<+T> = None | Some(value: T)
}
