/** Element-wise vector arithmetic over `real`, standing in for the
    nalgebra `DVector<f64>` operations the nodes use. */
module Linalg {

  type Vector = seq<real>

  function Zeros(n: nat): (v: Vector)
    ensures |v| == n && forall i :: 0 <= i < n ==> v[i] == 0.0
  {
    seq(n, _ => 0.0)
  }

  function Add(a: Vector, b: Vector): (v: Vector)
    requires |a| == |b|
    ensures |v| == |a| && forall i :: 0 <= i < |a| ==> v[i] == a[i] + b[i]
  {
    seq(|a|, i requires 0 <= i < |a| => a[i] + b[i])
  }

  function Sub(a: Vector, b: Vector): (v: Vector)
    requires |a| == |b|
    ensures |v| == |a| && forall i :: 0 <= i < |a| ==> v[i] == a[i] - b[i]
  {
    seq(|a|, i requires 0 <= i < |a| => a[i] - b[i])
  }

  function Scale(k: real, a: Vector): (v: Vector)
    ensures |v| == |a| && forall i :: 0 <= i < |a| ==> v[i] == k * a[i]
  {
    seq(|a|, i requires 0 <= i < |a| => k * a[i])
  }

  /** Component-wise product (nalgebra `component_mul`). */
  function Mul(a: Vector, b: Vector): (v: Vector)
    requires |a| == |b|
    ensures |v| == |a| && forall i :: 0 <= i < |a| ==> v[i] == a[i] * b[i]
  {
    seq(|a|, i requires 0 <= i < |a| => a[i] * b[i])
  }

  /** Subtracting then adding back returns the original vector. */
  lemma SubAdd(a: Vector, b: Vector)
    requires |a| == |b|
    ensures Add(Sub(a, b), b) == a
  {
  }
}
