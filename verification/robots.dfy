/** Robot records: the serial-link robot (`DSeriseRobot`) with its state
    and parameter records, the Franka Panda configuration, the gripper, and
    the registry that builds a robot from a configuration entry. */
module Robots {
  import opened Wrappers
  import opened Messages
  import Linalg

  /** A collision capsule as the robot parameters hold it: the default
      capsule, or one built from the seven numbers start(3), end(3), radius. */
  datatype CapsuleSpec = DefaultCapsule | FromVec(raw: seq<real>)

  datatype SeriesState = SeriesState(
    q: Vector, qDot: Vector, qDdot: Vector, qJerk: Vector,
    base: Pose,
    control: NodeMessage)

  datatype SeriesParams = SeriesParams(
    nlink: nat,
    qDefault: Vector,
    qMinBound: Vector, qMaxBound: Vector,
    qDotBound: Vector, qDdotBound: Vector, qJerkBound: Vector,
    tauBound: Vector, tauDotBound: Vector,
    dh: seq<seq<real>>,
    capsules: seq<CapsuleSpec>)

  datatype SeriesRobot = SeriesRobot(name: string, state: SeriesState, params: SeriesParams)

  predicate IsMatrix(m: seq<seq<real>>, rows: nat, cols: nat) {
    |m| == rows && forall i :: 0 <= i < rows ==> |m[i]| == cols
  }

  /** Every state vector has one entry per link. */
  predicate StateFits(s: SeriesState, nlink: nat) {
    |s.q| == nlink && |s.qDot| == nlink && |s.qDdot| == nlink && |s.qJerk| == nlink
  }

  /** Every parameter vector has one entry per link and the DH table one row
      per link plus the flange. */
  predicate ParamsFit(p: SeriesParams) {
    var n := p.nlink;
    |p.qDefault| == n && |p.qMinBound| == n && |p.qMaxBound| == n
    && |p.qDotBound| == n && |p.qDdotBound| == n && |p.qJerkBound| == n
    && |p.tauBound| == n && |p.tauDotBound| == n
    && IsMatrix(p.dh, n + 1, 4)
  }

  /** A fresh state: zero vectors of length nlink, identity base, no
      pending command. */
  function NewState(nlink: nat): (s: SeriesState)
    ensures StateFits(s, nlink)
    ensures s.base == Identity && s.control == NoneNodeMessage
    ensures forall i :: 0 <= i < nlink ==> s.q[i] == 0.0 && s.qDot[i] == 0.0 && s.qDdot[i] == 0.0 && s.qJerk[i] == 0.0
  {
    var z := Linalg.Zeros(nlink);
    SeriesState(z, z, z, z, Identity, NoneNodeMessage)
  }

  /** Fresh parameters: zero vectors, a zero (nlink+1)x4 DH table and one
      default capsule per link. */
  function NewParams(nlink: nat): (p: SeriesParams)
    ensures p.nlink == nlink && ParamsFit(p)
    ensures |p.capsules| == nlink && forall i :: 0 <= i < nlink ==> p.capsules[i] == DefaultCapsule
    ensures forall i :: 0 <= i < nlink ==> p.qDefault[i] == 0.0 && p.qMinBound[i] == 0.0 && p.qMaxBound[i] == 0.0
    ensures forall i, j :: 0 <= i <= nlink && 0 <= j < 4 ==> p.dh[i][j] == 0.0
  {
    var z := Linalg.Zeros(nlink);
    SeriesParams(nlink, z, z, z, z, z, z, z, z,
                 seq(nlink + 1, _ => Linalg.Zeros(4)),
                 seq(nlink, _ => DefaultCapsule))
  }

  function NewRobot(nlink: nat, name: string): (r: SeriesRobot)
    ensures r.name == name && Dof(r) == nlink && r.state == NewState(nlink) && r.params == NewParams(nlink)
    ensures WellFormed(r)
  {
    SeriesRobot(name, NewState(nlink), NewParams(nlink))
  }

  /** Loading a robot description from a file is not implemented and panics. */
  function FromFile(path: string): (r: Result<SeriesRobot>)
    ensures r.Err?
  {
    Err("not implemented")
  }

  function Dof(r: SeriesRobot): nat {
    r.params.nlink
  }

  predicate WellFormed(r: SeriesRobot) {
    StateFits(r.state, r.params.nlink) && ParamsFit(r.params)
  }

  /** Reset: q becomes the default configuration, the three derivatives
      become zero vectors of length nlink; base and the pending command are
      kept. */
  function Reset(r: SeriesRobot): (r': SeriesRobot)
    ensures r'.name == r.name && r'.params == r.params
    ensures r'.state.q == r.params.qDefault
    ensures |r'.state.qDot| == |r'.state.qDdot| == |r'.state.qJerk| == Dof(r)
    ensures forall i :: 0 <= i < Dof(r) ==> r'.state.qDot[i] == 0.0 && r'.state.qDdot[i] == 0.0 && r'.state.qJerk[i] == 0.0
    ensures r'.state.base == r.state.base && r'.state.control == r.state.control
  {
    var z := Linalg.Zeros(r.params.nlink);
    r.(state := r.state.(q := r.params.qDefault, qDot := z, qDdot := z, qJerk := z))
  }

  /** Reset twice is reset once. */
  lemma ResetIdempotent(r: SeriesRobot)
    ensures Reset(Reset(r)) == Reset(r)
  {
  }

  /** Reset keeps a well-formed robot well-formed. */
  lemma ResetWellFormed(r: SeriesRobot)
    requires WellFormed(r)
    ensures WellFormed(Reset(r))
  {
  }

  // The four state setters each replace one state field, whatever its length.

  function SetQ(r: SeriesRobot, v: Vector): (r': SeriesRobot)
    ensures r'.state.q == v
    ensures r'.state == r.state.(q := r'.state.q) && r'.name == r.name && r'.params == r.params
  {
    r.(state := r.state.(q := v))
  }

  function SetQDot(r: SeriesRobot, v: Vector): (r': SeriesRobot)
    ensures r'.state.qDot == v
    ensures r'.state == r.state.(qDot := r'.state.qDot) && r'.name == r.name && r'.params == r.params
  {
    r.(state := r.state.(qDot := v))
  }

  function SetQDdot(r: SeriesRobot, v: Vector): (r': SeriesRobot)
    ensures r'.state.qDdot == v
    ensures r'.state == r.state.(qDdot := r'.state.qDdot) && r'.name == r.name && r'.params == r.params
  {
    r.(state := r.state.(qDdot := v))
  }

  function SetQJerk(r: SeriesRobot, v: Vector): (r': SeriesRobot)
    ensures r'.state.qJerk == v
    ensures r'.state == r.state.(qJerk := r'.state.qJerk) && r'.name == r.name && r'.params == r.params
  {
    r.(state := r.state.(qJerk := v))
  }

  function SetControl(r: SeriesRobot, m: NodeMessage): (r': SeriesRobot)
    ensures r'.state.control == m
    ensures r'.state == r.state.(control := r'.state.control) && r'.name == r.name && r'.params == r.params
  {
    r.(state := r.state.(control := m))
  }

  /** Setters on different fields commute. */
  lemma SettersCommute(r: SeriesRobot, a: Vector, b: Vector)
    ensures SetQDot(SetQ(r, a), b) == SetQ(SetQDot(r, b), a)
    ensures SetQDdot(SetQ(r, a), b) == SetQ(SetQDdot(r, b), a)
  {
  }

  /** The distance to an obstacle is the least of the per-capsule
      distances; with no capsules the minimum does not exist and the
      program panics.  The per-capsule distances are an input here. */
  function MinDistance(ds: seq<real>): (r: Result<real>)
    ensures r.Ok? <==> |ds| > 0
    ensures r.Ok? ==> r.value in ds && forall i :: 0 <= i < |ds| ==> r.value <= ds[i]
  {
    if |ds| == 0 then Err("called `Option::unwrap()` on a `None` value")
    else if |ds| == 1 then Ok(ds[0])
    else
      var m := MinDistance(ds[1..]).value;
      assert forall i :: 1 <= i < |ds| ==> ds[i] == ds[1..][i - 1];
      Ok(if ds[0] <= m then ds[0] else m)
  }

  // ---------------------------------------------------------------------
  // Franka Panda
  // ---------------------------------------------------------------------

  /** The f64 value of pi, written out exactly; halving and quartering a
      binary floating-point number are exact. */
  const Pi: real := 3.141592653589793115997963468544185161590576171875
  const FracPi2: real := Pi / 2.0
  const FracPi4: real := Pi / 4.0

  const PandaDof: nat := 7

  const PandaDefault: Vector := [0.0, -FracPi4, 0.0, -2.3562, 0.0, FracPi2, FracPi4]
  const PandaMin: Vector := [-2.8973, -1.7628, -2.8973, -3.0718, -2.8973, -0.0175, -2.8973]
  const PandaMax: Vector := [2.8973, 1.7628, 2.8973, -0.0698, 2.8973, 3.7525, 2.8973]

  const PandaDh: seq<seq<real>> := [
    [0.0, 0.333, 0.0, 0.0],
    [0.0, 0.0, 0.0, -FracPi2],
    [0.0, 0.316, 0.0, FracPi2],
    [0.0, 0.0, 0.0825, FracPi2],
    [0.0, 0.384, -0.0825, -FracPi2],
    [0.0, 0.0, 0.0, FracPi2],
    [0.0, 0.0, 0.088, FracPi2],
    [0.0, 0.107, 0.0, 0.0]]

  const PandaCapsules: seq<CapsuleSpec> := [
    FromVec([0.0, 0.0, 0.0, 0.0, 0.0, -0.333, 0.07]),
    FromVec([0.0, 0.0, -0.05, 0.0, 0.0, 0.0, 0.07]),
    FromVec([0.0, 0.0, 0.0, 0.0, 0.0, -0.316, 0.07]),
    FromVec([0.0, 0.0, -0.05, 0.0, 0.0, 0.055, 0.07]),
    FromVec([0.0, 0.0, 0.0, 0.0, 0.0, -0.0384, 0.07]),
    FromVec([0.0, 0.0, -0.088, 0.0, 0.0, 0.0, 0.07]),
    FromVec([0.0, 0.0, 0.0, 0.0, 0.0, 0.107, 0.07]),
    FromVec([0.0, -0.05, 0.0, 0.0, 0.05, 0.0, 0.10])]

  function NewPanda(name: string, base: Pose): (r: SeriesRobot)
  {
    var z := Linalg.Zeros(PandaDof);
    SeriesRobot(
      name,
      SeriesState(PandaDefault, z, z, z, base, NoneNodeMessage),
      SeriesParams(
        PandaDof,
        PandaDefault,
        PandaMin,
        PandaMax,
        [2.1750, 2.1750, 2.1750, 2.1750, 2.6100, 2.6100, 2.6100],
        [15.0, 7.5, 10.0, 12.5, 15.0, 20.0, 20.0],
        [7500.0, 3750.0, 5000.0, 6250.0, 7500.0, 10000.0, 10000.0],
        [87.0, 87.0, 87.0, 87.0, 12.0, 12.0, 12.0],
        [1000.0, 1000.0, 1000.0, 1000.0, 1000.0, 1000.0, 1000.0],
        PandaDh,
        PandaCapsules))
  }

  /** The Panda's configuration invariants: seven links, every vector of
      length seven, a strict joint range, the default pose inside it, the
      robot starting at its default pose at rest with no pending command,
      eight capsules of seven numbers with a positive radius, and name and
      base passed through. */
  lemma PandaInvariants(name: string, base: Pose)
    ensures var r := NewPanda(name, base);
      Dof(r) == PandaDof == 7 && WellFormed(r)
      && r.name == name && r.state.base == base
      && r.state.q == r.params.qDefault && r.state.control == NoneNodeMessage
      && (forall i :: 0 <= i < 7 ==> r.state.qDot[i] == 0.0 && r.state.qDdot[i] == 0.0 && r.state.qJerk[i] == 0.0)
      && (forall i :: 0 <= i < 7 ==> r.params.qMinBound[i] < r.params.qMaxBound[i])
      && (forall i :: 0 <= i < 7 ==> r.params.qMinBound[i] <= r.params.qDefault[i] <= r.params.qMaxBound[i])
      && |r.params.capsules| == r.params.nlink + 1
      && (forall i :: 0 <= i < |r.params.capsules| ==>
            r.params.capsules[i].FromVec? && |r.params.capsules[i].raw| == 7 && r.params.capsules[i].raw[6] > 0.0)
  {
    var r := NewPanda(name, base);
    assert 0.78 < FracPi4 < 0.79 && 1.57 < FracPi2 < 1.58;
    assert IsMatrix(PandaDh, 8, 4);
  }

  /** A freshly built Panda is already reset. */
  lemma PandaStartsReset(name: string, base: Pose)
    ensures Reset(NewPanda(name, base)) == NewPanda(name, base)
  {
  }

  // ---------------------------------------------------------------------
  // Gripper
  // ---------------------------------------------------------------------

  datatype Gripper = Gripper(name: string, width: real, homing: bool)

  function NewGripper(name: string): (g: Gripper)
    ensures g.name == name && g.width == 0.0 && !g.homing
  {
    Gripper(name, 0.0, false)
  }

  /** `grasp` stores its argument as the width, unclamped. */
  function Grasp(g: Gripper, w: real): (g': Gripper)
    ensures g'.width == w && g'.name == g.name && g'.homing == g.homing
  {
    g.(width := w)
  }

  /** `home` latches the homing flag. */
  function Home(g: Gripper): (g': Gripper)
    ensures g'.homing && g'.name == g.name && g'.width == g.width
  {
    g.(homing := true)
  }

  datatype GripperOp = GraspOp(w: real) | HomeOp

  function ApplyGripper(g: Gripper, ops: seq<GripperOp>): Gripper
    decreases |ops|
  {
    if |ops| == 0 then g
    else ApplyGripper(if ops[0].GraspOp? then Grasp(g, ops[0].w) else Home(g), ops[1..])
  }

  /** After any run of operations the width is the last grasp's argument (or
      the old width when none grasped), and homing once set stays set. */
  lemma {:induction false} GripperHistory(g: Gripper, ops: seq<GripperOp>)
    ensures var g' := ApplyGripper(g, ops);
      g'.name == g.name
      && (g.homing ==> g'.homing)
      && (g'.homing <==> g.homing || exists i :: 0 <= i < |ops| && ops[i].HomeOp?)
      && ((forall i :: 0 <= i < |ops| ==> !ops[i].GraspOp?) ==> g'.width == g.width)
    decreases |ops|
  {
    if |ops| > 0 {
      var g1 := if ops[0].GraspOp? then Grasp(g, ops[0].w) else Home(g);
      GripperHistory(g1, ops[1..]);
      assert forall i :: 1 <= i < |ops| ==> ops[i] == ops[1..][i - 1];
    }
  }

  lemma {:induction false} GripperLastGrasp(g: Gripper, ops: seq<GripperOp>, w: real)
    ensures ApplyGripper(g, ops + [GraspOp(w)]).width == w
    decreases |ops|
  {
    if |ops| == 0 {
      assert ops + [GraspOp(w)] == [GraspOp(w)];
    } else {
      var g1 := if ops[0].GraspOp? then Grasp(g, ops[0].w) else Home(g);
      assert (ops + [GraspOp(w)])[1..] == ops[1..] + [GraspOp(w)];
      GripperLastGrasp(g1, ops[1..], w);
    }
  }

  // ---------------------------------------------------------------------
  // Registry
  // ---------------------------------------------------------------------

  datatype RobotConfig = RobotConfig(name: string, robotType: string, basePose: Pose)

  datatype RobotHandle = Series(robot: SeriesRobot) | FrankaGripper(gripper: Gripper)

  /** The robot a configuration entry describes; an unknown type panics
      with a message naming it. */
  function FromConfig(c: RobotConfig): (r: Result<RobotHandle>)
    ensures c.robotType == "panda" <==> r.Ok? && r.value.Series?
    ensures c.robotType == "franka_gripper" <==> r.Ok? && r.value.FrankaGripper?
    ensures r.Ok? && r.value.Series? ==> r.value.robot == NewPanda(c.name, c.basePose)
    ensures r.Ok? && r.value.FrankaGripper? ==> r.value.gripper == NewGripper(c.name)
    ensures r.Err? ==> r.error == "Unknown robot type: " + c.robotType
  {
    if c.robotType == "panda" then Ok(Series(NewPanda(c.name, c.basePose)))
    else if c.robotType == "franka_gripper" then Ok(FrankaGripper(NewGripper(c.name)))
    else Err("Unknown robot type: " + c.robotType)
  }
}
