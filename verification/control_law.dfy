/** The two control laws the PID and impedance nodes and controllers share,
    over `DMatrix`/`DVector` stand-ins.  nalgebra panics when shapes do not
    agree; here that is an `Err`. */
module ControlLaw {
  import opened Wrappers
  import opened Linalg
  import opened Messages

  /** A matrix as its rows. */
  type Matrix = seq<seq<real>>

  const DimensionMismatch := "dimension mismatch"
  const ZeroPeriod := "zero period: the derivative is not finite"

  /** Every row has `n` columns, so the matrix applies to a length-`n` vector.
      A matrix with no rows keeps no column count and applies to every `n`. */
  predicate AppliesTo(m: Matrix, n: nat) {
    forall i :: 0 <= i < |m| ==> |m[i]| == n
  }

  function Dot(a: Vector, b: Vector): real
    requires |a| == |b|
    decreases |a|
  {
    if |a| == 0 then 0.0 else a[0] * b[0] + Dot(a[1..], b[1..])
  }

  /** Matrix times vector: one dot product per row. */
  function MatVec(m: Matrix, v: Vector): (r: Vector)
    requires AppliesTo(m, |v|)
    ensures |r| == |m| && forall i :: 0 <= i < |m| ==> r[i] == Dot(m[i], v)
  {
    seq(|m|, i requires 0 <= i < |m| => Dot(m[i], v))
  }

  lemma {:induction false} DotZero(a: Vector, n: nat)
    requires |a| == n
    ensures Dot(a, Zeros(n)) == 0.0
    decreases n
  {
    if n > 0 {
      assert Zeros(n)[1..] == Zeros(n - 1);
      DotZero(a[1..], n - 1);
    }
  }

  /** The dot product distributes over a sum. */
  lemma {:induction false} DotAdd(a: Vector, b: Vector, c: Vector)
    requires |a| == |b| == |c|
    ensures Dot(a, Add(b, c)) == Dot(a, b) + Dot(a, c)
    decreases |a|
  {
    if |a| > 0 {
      assert Add(b, c)[1..] == Add(b[1..], c[1..]);
      DotAdd(a[1..], b[1..], c[1..]);
    }
  }

  /** A matrix maps a sum of vectors to the sum of their images. */
  lemma MatVecAdd(m: Matrix, a: Vector, b: Vector)
    requires |a| == |b| && AppliesTo(m, |a|)
    ensures MatVec(m, Add(a, b)) == Add(MatVec(m, a), MatVec(m, b))
  {
    forall i | 0 <= i < |m|
      ensures MatVec(m, Add(a, b))[i] == MatVec(m, a)[i] + MatVec(m, b)[i]
    {
      DotAdd(m[i], a, b);
    }
  }

  /** Any matrix sends the zero vector to zero. */
  lemma MatVecZero(m: Matrix, n: nat)
    requires AppliesTo(m, n)
    ensures MatVec(m, Zeros(n)) == Zeros(|m|)
  {
    forall i | 0 <= i < |m|
      ensures MatVec(m, Zeros(n))[i] == 0.0
    {
      DotZero(m[i], n);
    }
  }

  // ---- PID ----

  datatype PidGains = PidGains(period: real, kp: Matrix, ki: Matrix, kd: Matrix)

  /** Track, last error, running integral and last derivative. */
  datatype PidMemory = PidMemory(track: Vector, error: Vector, integral: Vector, derivative: Vector)

  /** All four vectors zero, of length `dof`. */
  function PidZero(dof: nat): (r: PidMemory)
    ensures |r.track| == dof && |r.error| == dof && |r.integral| == dof && |r.derivative| == dof
    ensures forall i :: 0 <= i < dof ==> r.track[i] == 0.0 && r.error[i] == 0.0 && r.integral[i] == 0.0 && r.derivative[i] == 0.0
  {
    PidMemory(Zeros(dof), Zeros(dof), Zeros(dof), Zeros(dof))
  }

  /** The shapes the PID step needs: track, error and integral as long as
      `q`, three gain matrices with the same number of rows, each applying
      to a vector of that length. */
  predicate PidFits(g: PidGains, mem: PidMemory, q: Vector) {
    |mem.track| == |q| && |mem.error| == |q| && |mem.integral| == |q| &&
    AppliesTo(g.kp, |q|) && AppliesTo(g.ki, |q|) && AppliesTo(g.kd, |q|) &&
    |g.ki| == |g.kp| && |g.kd| == |g.kp|
  }

  /** One PID step towards `mem.track` from position `q`: the error is
      track - q, the integral adds error * period, the derivative is the
      change of error over period, and the output is
      kp * error + ki * integral + kd * derivative. */
  function PidStep(g: PidGains, mem: PidMemory, q: Vector): (r: Result<(PidMemory, Vector)>)
    ensures r.Ok? <==> PidFits(g, mem, q) && g.period != 0.0
    ensures !PidFits(g, mem, q) ==> r == Err(DimensionMismatch)
    ensures r.Ok? ==>
      var (m', out) := r.value;
      m'.track == mem.track && |out| == |g.kp| &&
      |m'.error| == |q| && |m'.integral| == |q| && |m'.derivative| == |q| &&
      (forall i :: 0 <= i < |q| ==>
        m'.error[i] + q[i] == mem.track[i] &&
        m'.integral[i] == mem.integral[i] + m'.error[i] * g.period &&
        m'.derivative[i] * g.period == m'.error[i] - mem.error[i]) &&
      (forall i :: 0 <= i < |out| ==>
        out[i] == Dot(g.kp[i], m'.error) + Dot(g.ki[i], m'.integral) + Dot(g.kd[i], m'.derivative))
  {
    if !PidFits(g, mem, q) then Err(DimensionMismatch)
    else if g.period == 0.0 then Err(ZeroPeriod)
    else
      var e := Sub(mem.track, q);
      var integral := Add(mem.integral, Scale(g.period, e));
      var derivative := Scale(1.0 / g.period, Sub(e, mem.error));
      var out := Add(Add(MatVec(g.kp, e), MatVec(g.ki, integral)), MatVec(g.kd, derivative));
      Ok((PidMemory(mem.track, e, integral, derivative), out))
  }

  /** Held at a fixed track and position, a second step sees no change of
      error: its derivative is zero and its integral has grown by the same
      error once more. */
  lemma PidSteady(g: PidGains, mem: PidMemory, q: Vector)
    requires PidStep(g, mem, q).Ok?
    ensures var m1 := PidStep(g, mem, q).value.0;
      PidStep(g, m1, q).Ok? &&
      var m2 := PidStep(g, m1, q).value.0;
      m2.error == m1.error && m2.derivative == Zeros(|q|) &&
      forall i :: 0 <= i < |q| ==> m2.integral[i] == mem.integral[i] + 2.0 * m1.error[i] * g.period
  {
    var m1 := PidStep(g, mem, q).value.0;
    assert PidFits(g, m1, q);
    var m2 := PidStep(g, m1, q).value.0;
    assert m2.error == m1.error;
    forall i | 0 <= i < |q|
      ensures m2.derivative[i] == 0.0
    {
      assert m2.derivative[i] * g.period == 0.0;
    }
  }

  /** At the track, from zero memory, the PID output is zero. */
  lemma PidAtTrack(g: PidGains, q: Vector)
    requires PidStep(g, PidMemory(q, Zeros(|q|), Zeros(|q|), Zeros(|q|)), q).Ok?
    ensures PidStep(g, PidMemory(q, Zeros(|q|), Zeros(|q|), Zeros(|q|)), q).value.1 == Zeros(|g.kp|)
  {
    var mem := PidMemory(q, Zeros(|q|), Zeros(|q|), Zeros(|q|));
    var (m', out) := PidStep(g, mem, q).value;
    assert m'.error == Zeros(|q|) && m'.integral == Zeros(|q|);
    forall i | 0 <= i < |q| ensures m'.derivative[i] == 0.0 {
      assert m'.derivative[i] * g.period == 0.0;
    }
    assert m'.derivative == Zeros(|q|);
    MatVecZero(g.kp, |q|);
    MatVecZero(g.ki, |q|);
    MatVecZero(g.kd, |q|);
    forall i | 0 <= i < |out| ensures out[i] == 0.0 {
      assert out[i] == MatVec(g.kp, Zeros(|q|))[i] + MatVec(g.ki, Zeros(|q|))[i] + MatVec(g.kd, Zeros(|q|))[i];
    }
  }

  // ---- Impedance ----

  datatype ImpedanceGains = ImpedanceGains(period: real, k: Matrix, b: Matrix, m: Matrix)

  /** Reference position, velocity and acceleration. */
  datatype Reference = Reference(q: Vector, qDot: Vector, qDdot: Vector)

  function ReferenceZero(dof: nat): (r: Reference)
    ensures r.q == Zeros(dof) && r.qDot == Zeros(dof) && r.qDdot == Zeros(dof)
  {
    Reference(Zeros(dof), Zeros(dof), Zeros(dof))
  }

  /** What a message sets in the reference: Joint the position, JointVel
      position and velocity, JointVelAcc all three; anything else is not a
      reference (None). */
  function TakeReference(ref: Reference, msg: NodeMessage): (r: Option<Reference>)
    ensures r.Some? <==> msg.Joint? || msg.JointVel? || msg.JointVelAcc?
    ensures msg.Joint? ==> r == Some(ref.(q := msg.joint))
    ensures msg.JointVel? ==> r == Some(ref.(q := msg.joint, qDot := msg.vel))
    ensures msg.JointVelAcc? ==> r == Some(Reference(msg.joint, msg.vel, msg.acc))
  {
    match msg
    case Joint(q) => Some(ref.(q := q))
    case JointVel(q, v) => Some(ref.(q := q, qDot := v))
    case JointVelAcc(q, v, a) => Some(Reference(q, v, a))
    case _ => None
  }

  predicate ImpedanceFits(g: ImpedanceGains, ref: Reference, q: Vector, qDot: Vector, qDdot: Vector) {
    |ref.q| == |q| && |ref.qDot| == |qDot| && |ref.qDdot| == |qDdot| &&
    AppliesTo(g.k, |q|) && AppliesTo(g.b, |qDot|) && AppliesTo(g.m, |qDdot|) &&
    |g.b| == |g.k| && |g.m| == |g.k|
  }

  /** k (ref.q - q) + b (ref.qDot - qDot) + m (ref.qDdot - qDdot). */
  function ImpedanceOutput(g: ImpedanceGains, ref: Reference, q: Vector, qDot: Vector, qDdot: Vector): (r: Result<Vector>)
    ensures r.Ok? <==> ImpedanceFits(g, ref, q, qDot, qDdot)
    ensures r.Err? ==> r.error == DimensionMismatch
    ensures r.Ok? ==> |r.value| == |g.k| && forall i :: 0 <= i < |g.k| ==>
      r.value[i] == Dot(g.k[i], Sub(ref.q, q)) + Dot(g.b[i], Sub(ref.qDot, qDot)) + Dot(g.m[i], Sub(ref.qDdot, qDdot))
  {
    if !ImpedanceFits(g, ref, q, qDot, qDdot) then Err(DimensionMismatch)
    else
      Ok(Add(Add(MatVec(g.k, Sub(ref.q, q)), MatVec(g.b, Sub(ref.qDot, qDot))), MatVec(g.m, Sub(ref.qDdot, qDdot))))
  }

  /** A robot exactly on its reference feels no impedance force. */
  lemma ImpedanceAtReference(g: ImpedanceGains, ref: Reference)
    requires ImpedanceFits(g, ref, ref.q, ref.qDot, ref.qDdot)
    ensures ImpedanceOutput(g, ref, ref.q, ref.qDot, ref.qDdot) == Ok(Zeros(|g.k|))
  {
    assert Sub(ref.q, ref.q) == Zeros(|ref.q|);
    assert Sub(ref.qDot, ref.qDot) == Zeros(|ref.qDot|);
    assert Sub(ref.qDdot, ref.qDdot) == Zeros(|ref.qDdot|);
    MatVecZero(g.k, |ref.q|);
    MatVecZero(g.b, |ref.qDot|);
    MatVecZero(g.m, |ref.qDdot|);
    var out := ImpedanceOutput(g, ref, ref.q, ref.qDot, ref.qDdot).value;
    forall i | 0 <= i < |g.k| ensures out[i] == 0.0 {
      assert out[i] == MatVec(g.k, Zeros(|ref.q|))[i] + MatVec(g.b, Zeros(|ref.qDot|))[i] + MatVec(g.m, Zeros(|ref.qDdot|))[i];
    }
    assert out == Zeros(|g.k|);
  }
}
