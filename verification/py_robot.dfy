/** The Python robot wrappers driven by the pybullet simulator
    (scripts/simulators/robot_pybullet): `Joint`, `Robot`, `Panda` and the
    `load_robot` registry.

    The physics engine is a value: the joint states it reports, the motor
    commands it has been given, the bodies it has loaded and how many times
    it has stepped.  Stepping does not move any joint in this model (the
    dynamics are foreign code); joint states change only through
    `resetJointState`.  A joint the engine was never told about reports
    position and velocity zero, the configuration a URDF loads in.
 */
module PyRobot {
  import opened Wrappers
  import opened Json
  import opened Py
  import Messages
  import Robots

  // ---------------------------------------------------------------------
  // The engine
  // ---------------------------------------------------------------------

  /** One setJointMotorControl2 call.  Position and velocity control carry
      a maximum force; torque control carries the torque as its force. */
  datatype MotorCommand =
    | PositionControl(body: nat, joint: nat, position: real, force: real)
    | VelocityControl(body: nat, joint: nat, velocity: real, force: real)
    | TorqueControl(body: nat, joint: nat, torque: real)

  /** One loadURDF call, with the base position exactly as passed. */
  datatype Body = Body(urdf: string, fixedBase: bool, basePosition: Value)

  datatype Engine = Engine(
    bodies: seq<Body>,
    states: map<(nat, nat), (real, real)>,
    motors: seq<MotorCommand>,
    steps: nat)

  const EmptyEngine: Engine := Engine([], map[], [], 0)

  /** getJointState: (position, velocity). */
  function JointState(e: Engine, body: nat, joint: nat): (real, real) {
    if (body, joint) in e.states then e.states[(body, joint)] else (0.0, 0.0)
  }

  /** loadURDF: the new body's id is the number of bodies loaded before it. */
  function LoadUrdf(e: Engine, urdf: string, fixedBase: bool, basePosition: Value): (Engine, nat) {
    (e.(bodies := e.bodies + [Body(urdf, fixedBase, basePosition)]), |e.bodies|)
  }

  /** resetJointState with the default target velocity of zero. */
  function ResetJointState(e: Engine, body: nat, joint: nat, position: real): Engine {
    e.(states := e.states[(body, joint) := (position, 0.0)])
  }

  function StepSimulation(e: Engine): Engine {
    e.(steps := e.steps + 1)
  }

  // ---------------------------------------------------------------------
  // Joint
  // ---------------------------------------------------------------------

  /** A joint handle and its cached position and velocity. */
  datatype Joint = Joint(body: nat, index: nat, position: real, velocity: real)

  /** The cache agrees with what the engine reports. */
  predicate Synced(e: Engine, j: Joint) {
    (j.position, j.velocity) == JointState(e, j.body, j.index)
  }

  /** `update_state`: re-read the engine. */
  function Refresh(e: Engine, j: Joint): (j': Joint)
    ensures Synced(e, j') && j'.body == j.body && j'.index == j.index
  {
    var s := JointState(e, j.body, j.index);
    j.(position := s.0, velocity := s.1)
  }

  /** `Joint.__init__`: the handle starts with the engine's current state. */
  function NewJoint(e: Engine, body: nat, index: nat): (j: Joint)
    ensures Synced(e, j) && j.body == body && j.index == index
  {
    Refresh(e, Joint(body, index, 0.0, 0.0))
  }

  /** `reset_joint_state`: the engine is reset, then the cache re-read. */
  function JointReset(e: Engine, j: Joint, position: real): (r: (Engine, Joint))
    ensures r.1.position == position && r.1.velocity == 0.0 && Synced(r.0, r.1)
    ensures r.1.body == j.body && r.1.index == j.index
    ensures r.0.bodies == e.bodies && r.0.motors == e.motors && r.0.steps == e.steps
    ensures forall b: nat, i: nat :: (b, i) != (j.body, j.index) ==> JointState(r.0, b, i) == JointState(e, b, i)
  {
    var e' := ResetJointState(e, j.body, j.index, position);
    (e', Refresh(e', j))
  }

  datatype Mode = PositionMode | VelocityMode | TorqueMode

  /** The motor command `set_position`, `set_velocity` or `set_torque`
      issues, with their default forces 2000 and 500. */
  function MotorFor(j: Joint, mode: Mode, x: real): MotorCommand {
    match mode
    case PositionMode => PositionControl(j.body, j.index, x, 2000.0)
    case VelocityMode => VelocityControl(j.body, j.index, x, 500.0)
    case TorqueMode => TorqueControl(j.body, j.index, x)
  }

  /** One joint command.  Position and velocity control re-read the cache
      afterwards; torque control leaves it as it was, even when it is stale. */
  function JointCommand(e: Engine, j: Joint, mode: Mode, x: real): (r: (Engine, Joint))
    ensures r.0 == e.(motors := e.motors + [MotorFor(j, mode, x)])
    ensures mode != TorqueMode ==> Synced(r.0, r.1) && r.1.body == j.body && r.1.index == j.index
    ensures mode == TorqueMode ==> r.1 == j
  {
    var e' := e.(motors := e.motors + [MotorFor(j, mode, x)]);
    if mode == TorqueMode then (e', j) else (e', Refresh(e', j))
  }

  /** A joint command whose value is a Python object; pybullet raises
      TypeError for anything that is not a number. */
  function JointSet(e: Engine, j: Joint, mode: Mode, v: Value): (r: Result<(Engine, Joint)>)
    ensures r.Ok? <==> AsFloat(v).Ok?
    ensures r.Ok? ==> r.value == JointCommand(e, j, mode, AsFloat(v).value)
  {
    var x :- AsFloat(v);
    Ok(JointCommand(e, j, mode, x))
  }

  /** A cached joint that keeps its handle. */
  predicate SameHandle(a: Joint, b: Joint) {
    a.body == b.body && a.index == b.index
  }

  function Min(a: nat, b: nat): nat {
    if a <= b then a else b
  }

  /** `for joint, v in zip(joints, vs): joint.set_*(v)`: the first
      min(|joints|, |vs|) joints are commanded in order, the rest are left
      alone, and the first value pybullet refuses raises TypeError. */
  function ApplyZip(e: Engine, joints: seq<Joint>, vs: seq<Value>, mode: Mode): (r: Result<(Engine, seq<Joint>)>)
    ensures r.Ok? <==> forall k :: 0 <= k < Min(|joints|, |vs|) ==> AsFloat(vs[k]).Ok?
    ensures r.Ok? ==> |r.value.1| == |joints|
    ensures r.Ok? ==> forall k :: 0 <= k < |joints| ==> SameHandle(r.value.1[k], joints[k])
    ensures r.Ok? ==> forall k :: Min(|joints|, |vs|) <= k < |joints| ==> r.value.1[k] == joints[k]
    ensures r.Ok? ==> r.value.0.bodies == e.bodies && r.value.0.states == e.states && r.value.0.steps == e.steps
    ensures !r.Ok? ==> Raises(r, "TypeError")
    decreases |joints|
  {
    if |joints| == 0 || |vs| == 0 then Ok((e, joints))
    else
      var first :- JointSet(e, joints[0], mode, vs[0]);
      var rest :- ApplyZip(first.0, joints[1..], vs[1..], mode);
      assert forall k :: 1 <= k < Min(|joints|, |vs|) ==> vs[1..][k - 1] == vs[k] && joints[1..][k - 1] == joints[k];
      Ok((rest.0, [first.1] + rest.1))
  }

  /** `e'` holds `e`'s motor commands followed by one command per joint
      that has a value, joint k driven with the number vs[k]. */
  predicate Queued(e: Engine, e': Engine, joints: seq<Joint>, vs: seq<Value>, mode: Mode) {
    |e'.motors| == |e.motors| + Min(|joints|, |vs|) &&
    e'.motors[..|e.motors|] == e.motors &&
    forall k :: 0 <= k < Min(|joints|, |vs|) ==>
      AsFloat(vs[k]).Ok? && e'.motors[|e.motors| + k] == MotorFor(joints[k], mode, AsFloat(vs[k]).value)
  }

  /** The motor commands the `zip` setters queue: the engine's own, then
      one per commanded joint, in order. */
  lemma {:induction false} ApplyZipMotors(e: Engine, joints: seq<Joint>, vs: seq<Value>, mode: Mode)
    requires ApplyZip(e, joints, vs, mode).Ok?
    ensures Queued(e, ApplyZip(e, joints, vs, mode).value.0, joints, vs, mode)
    decreases |joints|
  {
    if |joints| > 0 && |vs| > 0 {
      var first := JointSet(e, joints[0], mode, vs[0]).value;
      ApplyZipMotors(first.0, joints[1..], vs[1..], mode);
      QueuedCons(e, first.0, ApplyZip(e, joints, vs, mode).value.0, joints, vs, mode);
    }
  }

  lemma QueuedCons(e: Engine, e1: Engine, e': Engine, joints: seq<Joint>, vs: seq<Value>, mode: Mode)
    requires |joints| > 0 && |vs| > 0 && AsFloat(vs[0]).Ok?
    requires e1.motors == e.motors + [MotorFor(joints[0], mode, AsFloat(vs[0]).value)]
    requires Queued(e1, e', joints[1..], vs[1..], mode)
    ensures Queued(e, e', joints, vs, mode)
  {
    var n := |e.motors|;
    assert e'.motors[..n] == e1.motors[..|e1.motors|][..n];
    forall k | 0 <= k < Min(|joints|, |vs|)
      ensures AsFloat(vs[k]).Ok? && e'.motors[n + k] == MotorFor(joints[k], mode, AsFloat(vs[k]).value)
    {
      if k == 0 {
        assert e'.motors[n] == e'.motors[..|e1.motors|][n];
      } else {
        assert vs[1..][k - 1] == vs[k] && joints[1..][k - 1] == joints[k];
        assert e'.motors[|e1.motors| + (k - 1)] == e'.motors[n + k];
      }
    }
  }

  // ---------------------------------------------------------------------
  // Robot
  // ---------------------------------------------------------------------

  datatype Robot = Robot(basePose: Value, njoint: nat, defaultQ: seq<real>, joints: seq<Joint>)

  const Origin: Value := Arr([Num(0.0), Num(0.0), Num(0.0)])

  /** `Robot.__init__`: the base pose defaults to the origin when None is
      given; no joints yet. */
  function NewRobot(basePose: Value): (r: Robot)
    ensures basePose == Null ==> r.basePose == Origin
    ensures basePose != Null ==> r.basePose == basePose
    ensures r.njoint == 0 && r.defaultQ == [] && r.joints == []
  {
    Robot(if basePose != Null then basePose else Origin, 0, [], [])
  }

  /** Each joint's engine slot is used by that joint only. */
  predicate DistinctJoints(js: seq<Joint>) {
    forall a, b :: 0 <= a < b < |js| ==> !SameHandle(js[a], js[b])
  }

  /** `for joint, q in zip(joints, qs): joint.reset_joint_state(q)`. */
  function ResetZip(e: Engine, joints: seq<Joint>, qs: seq<real>): (r: (Engine, seq<Joint>))
    ensures |r.1| == |joints|
    ensures forall k :: 0 <= k < |joints| ==> SameHandle(r.1[k], joints[k])
    ensures forall k :: 0 <= k < Min(|joints|, |qs|) ==> r.1[k].position == qs[k] && r.1[k].velocity == 0.0
    ensures forall k :: Min(|joints|, |qs|) <= k < |joints| ==> r.1[k] == joints[k]
    ensures r.0.bodies == e.bodies && r.0.motors == e.motors && r.0.steps == e.steps
    decreases |joints|
  {
    if |joints| == 0 || |qs| == 0 then (e, joints)
    else
      var first := JointReset(e, joints[0], qs[0]);
      var rest := ResetZip(first.0, joints[1..], qs[1..]);
      assert forall k :: 1 <= k < Min(|joints|, |qs|) ==> qs[1..][k - 1] == qs[k];
      (rest.0, [first.1] + rest.1)
  }

  /** With distinct joints, the engine ends with every reset joint at its
      target and at rest, and every other joint as it was. */
  lemma {:induction false} ResetZipEngine(e: Engine, joints: seq<Joint>, qs: seq<real>)
    requires DistinctJoints(joints)
    ensures forall k :: 0 <= k < Min(|joints|, |qs|) ==>
      JointState(ResetZip(e, joints, qs).0, joints[k].body, joints[k].index) == (qs[k], 0.0)
    ensures forall b: nat, i: nat ::
      (forall k :: 0 <= k < Min(|joints|, |qs|) ==> (b, i) != (joints[k].body, joints[k].index)) ==>
      JointState(ResetZip(e, joints, qs).0, b, i) == JointState(e, b, i)
    decreases |joints|
  {
    if |joints| == 0 || |qs| == 0 {
    } else {
      var first := JointReset(e, joints[0], qs[0]);
      var tail := joints[1..];
      assert DistinctJoints(tail) by {
        forall a, b | 0 <= a < b < |tail| ensures !SameHandle(tail[a], tail[b]) {
          assert tail[a] == joints[a + 1] && tail[b] == joints[b + 1];
        }
      }
      ResetZipEngine(first.0, tail, qs[1..]);
      var r := ResetZip(e, joints, qs);
      assert r.0 == ResetZip(first.0, tail, qs[1..]).0;
      forall k | 0 <= k < Min(|joints|, |qs|)
        ensures JointState(r.0, joints[k].body, joints[k].index) == (qs[k], 0.0)
      {
        if k == 0 {
          forall l | 0 <= l < Min(|tail|, |qs[1..]|)
            ensures (joints[0].body, joints[0].index) != (tail[l].body, tail[l].index)
          {
            assert tail[l] == joints[l + 1];
          }
        } else {
          assert tail[k - 1] == joints[k] && qs[1..][k - 1] == qs[k];
        }
      }
      forall b: nat, i: nat |
        forall k :: 0 <= k < Min(|joints|, |qs|) ==> (b, i) != (joints[k].body, joints[k].index)
        ensures JointState(r.0, b, i) == JointState(e, b, i)
      {
        forall l | 0 <= l < Min(|tail|, |qs[1..]|)
          ensures (b, i) != (tail[l].body, tail[l].index)
        {
          assert tail[l] == joints[l + 1];
        }
      }
    }
  }

  /** `Robot.reset`: joint k goes to default_q[k], truncated by zip. */
  function Reset(e: Engine, r: Robot): (out: (Engine, Robot))
    ensures out.1 == r.(joints := out.1.joints)
    ensures out.0 == ResetZip(e, r.joints, r.defaultQ).0
  {
    var z := ResetZip(e, r.joints, r.defaultQ);
    (z.0, r.(joints := z.1))
  }

  /** Every joint re-reads the engine: the cached joints and the two lists
      `get_state` reports, in joint order. */
  function ReadJoints(e: Engine, joints: seq<Joint>): (r: (seq<Joint>, seq<real>, seq<real>))
    ensures |r.0| == |joints| && |r.1| == |joints| && |r.2| == |joints|
    ensures forall k :: 0 <= k < |joints| ==>
      r.0[k] == Refresh(e, joints[k]) && (r.1[k], r.2[k]) == JointState(e, joints[k].body, joints[k].index)
  {
    if |joints| == 0 then ([], [], [])
    else
      var j := Refresh(e, joints[0]);
      var rest := ReadJoints(e, joints[1..]);
      ([j] + rest.0, [j.position] + rest.1, [j.velocity] + rest.2)
  }

  /** `Robot.get_state`: the dict `{"JointVel": [positions, velocities]}`.
      The script writes each list plainly, which is the `Flat` layout; the
      Rust side reads the nalgebra `Dyn` layout, so the layout is a
      parameter and `Flat` is the script as written. */
  function GetState(e: Engine, r: Robot, l: Messages.VecLayout): (out: (Robot, Value))
    requires !l.Fixed?
    ensures out.1.Obj? && |out.1.members| == 1 && out.1.members[0].key == "JointVel"
    ensures out.1 == Messages.RobotStateWire(
      Messages.RobotState.JointVel(ReadJoints(e, r.joints).1, ReadJoints(e, r.joints).2), l)
    ensures |ReadJoints(e, r.joints).1| == |r.joints| && |ReadJoints(e, r.joints).2| == |r.joints|
    ensures |out.0.joints| == |r.joints| && forall k :: 0 <= k < |r.joints| ==> Synced(e, out.0.joints[k])
  {
    var read := ReadJoints(e, r.joints);
    var lists := if l.Dyn? then
        [Arr([Arr(Messages.NumsOf(read.1)), Num(|read.1| as real), Null]),
         Arr([Arr(Messages.NumsOf(read.2)), Num(|read.2| as real), Null])]
      else [Arr(Messages.NumsOf(read.1)), Arr(Messages.NumsOf(read.2))];
    (r.(joints := read.0), Obj([Member("JointVel", Arr(lists))]))
  }

  /** Commanding joints only queues motor commands: the bodies, the joint
      states and the step count are as they were. */
  predicate OnlyMotors(e: Engine, e': Engine) {
    e'.bodies == e.bodies && e'.states == e.states && e'.steps == e.steps
  }

  /** `set_joints_position`, `set_joints_velocity`, `set_joints_torque`:
      zip the joints with whatever `values` iterates to. */
  function SetJoints(e: Engine, r: Robot, values: Value, mode: Mode): (out: Result<(Engine, Robot)>)
    ensures Iterate(values).Err? ==> Raises(out, "TypeError")
    ensures out.Ok? ==> out.value.1 == r.(joints := out.value.1.joints)
    ensures out.Ok? ==> OnlyMotors(e, out.value.0)
    ensures values.Arr? ==> out == (match ApplyZip(e, r.joints, values.items, mode)
                                     case Ok(z) => Ok((z.0, r.(joints := z.1)))
                                     case Err(x) => Err(x))
  {
    var vs :- Iterate(values);
    var z :- ApplyZip(e, r.joints, vs, mode);
    Ok((z.0, r.(joints := z.1)))
  }

  /** `e'` holds `e`'s motor commands followed by one command per joint
      that has a value, joint k driven with xs[k]. */
  predicate DrivenBy(e: Engine, e': Engine, joints: seq<Joint>, xs: seq<real>, mode: Mode) {
    |e'.motors| == |e.motors| + Min(|joints|, |xs|) &&
    forall k :: 0 <= k < Min(|joints|, |xs|) ==> e'.motors[|e.motors| + k] == MotorFor(joints[k], mode, xs[k])
  }

  /** A list of numbers is always accepted: every joint that has a value is
      commanded with it. */
  lemma SetJointsNumbers(e: Engine, r: Robot, xs: seq<real>, mode: Mode)
    ensures SetJoints(e, r, Arr(Messages.NumsOf(xs)), mode).Ok?
    ensures DrivenBy(e, SetJoints(e, r, Arr(Messages.NumsOf(xs)), mode).value.0, r.joints, xs, mode)
  {
    var vs := Messages.NumsOf(xs);
    assert Iterate(Arr(vs)) == Ok(vs);
    forall k | 0 <= k < Min(|r.joints|, |vs|)
      ensures AsFloat(vs[k]) == Ok(xs[k])
    {
      assert vs[k] == Num(xs[k]);
    }
    var z := ApplyZip(e, r.joints, vs, mode);
    assert z.Ok?;
    ApplyZipMotors(e, r.joints, vs, mode);
    assert SetJoints(e, r, Arr(vs), mode) == Ok((z.value.0, r.(joints := z.value.1)));
  }

  /** One branch of `execute_command`: `cmd[tag][at]` drives the joints. */
  function Dispatch(e: Engine, r: Robot, cmd: Value, tag: string, at: nat, mode: Mode): (out: Result<(Engine, Robot)>)
    ensures out.Ok? ==> OnlyMotors(e, out.value.0)
  {
    var payload :- Lookup(cmd, tag);
    var values :- Index(payload, at);
    SetJoints(e, r, values, mode)
  }

  /** `Robot.execute_command`: the tags are tried in the order Joint,
      JointWithPeriod, Tau, TauWithPeriod with Python's `in`; the first
      present one acts and any other command is silently ignored. */
  function ExecuteCommand(e: Engine, r: Robot, cmd: Value): (out: Result<(Engine, Robot)>)
    ensures !IsContainer(cmd) ==> Raises(out, "TypeError")
    ensures cmd.Obj? && Get(cmd.members, "Joint").Some? ==> out == Dispatch(e, r, cmd, "Joint", 0, PositionMode)
    ensures cmd.Obj? && (forall tag :: tag in ActingTags ==> Get(cmd.members, tag).None?) ==> out == Ok((e, r))
  {
    if !IsContainer(cmd) then Err("TypeError: argument is not iterable")
    else if In("Joint", cmd) then Dispatch(e, r, cmd, "Joint", 0, PositionMode)
    else if In("JointWithPeriod", cmd) then Dispatch(e, r, cmd, "JointWithPeriod", 1, PositionMode)
    else if In("Tau", cmd) then Dispatch(e, r, cmd, "Tau", 0, TorqueMode)
    else if In("TauWithPeriod", cmd) then Dispatch(e, r, cmd, "TauWithPeriod", 1, TorqueMode)
    else Ok((e, r))
  }

  const ActingTags: set<string> := {"Joint", "JointWithPeriod", "Tau", "TauWithPeriod"}

  /** The command as the author evidently meant it for the period forms:
      the vector is the DVector's data, `cmd[tag][1][0]`, as it is
      `cmd[tag][0]` for the plain forms. */
  function ExecuteCommandIntended(e: Engine, r: Robot, cmd: Value): (out: Result<(Engine, Robot)>)
    ensures !IsContainer(cmd) ==> Raises(out, "TypeError")
    ensures out.Ok? ==> OnlyMotors(e, out.value.0)
  {
    if !IsContainer(cmd) then Err("TypeError: argument is not iterable")
    else if In("Joint", cmd) then Dispatch(e, r, cmd, "Joint", 0, PositionMode)
    else if In("JointWithPeriod", cmd) then DispatchData(e, r, cmd, "JointWithPeriod", PositionMode)
    else if In("Tau", cmd) then Dispatch(e, r, cmd, "Tau", 0, TorqueMode)
    else if In("TauWithPeriod", cmd) then DispatchData(e, r, cmd, "TauWithPeriod", TorqueMode)
    else Ok((e, r))
  }

  function DispatchData(e: Engine, r: Robot, cmd: Value, tag: string, mode: Mode): (out: Result<(Engine, Robot)>)
    ensures out.Ok? ==> OnlyMotors(e, out.value.0)
  {
    var payload :- Lookup(cmd, tag);
    var vector :- Index(payload, 1);
    var values :- Index(vector, 0);
    SetJoints(e, r, values, mode)
  }

  // ---------------------------------------------------------------------
  // The commands the Rust node sends
  // ---------------------------------------------------------------------

  /** The messages `execute_command` acts on. */
  predicate Acts(m: Messages.NodeMessage) {
    m.Joint? || m.JointWithPeriod? || m.Tau? || m.TauWithPeriod?
  }

  /** The joint values an acting message carries, and how they drive the
      joints. */
  function Carried(m: Messages.NodeMessage): (Messages.Vector, Mode)
    requires Acts(m)
  {
    match m
    case Joint(q) => (q, PositionMode)
    case JointWithPeriod(_, q) => (q, PositionMode)
    case Tau(u) => (u, TorqueMode)
    case TauWithPeriod(_, u) => (u, TorqueMode)
  }

  lemma TagOfEncoded(m: Messages.NodeMessage)
    requires m != Messages.NoneNodeMessage
    ensures Messages.EncodeNodeMessage(m, Messages.Dyn).Obj?
    ensures |Messages.EncodeNodeMessage(m, Messages.Dyn).members| == 1
    ensures Messages.EncodeNodeMessage(m, Messages.Dyn).members[0].key == Messages.NodeMessageTag(m)
  {
  }

  /** A message `execute_command` does not act on leaves robot and engine
      untouched: the unit variant arrives as the string "NoneNodeMessage",
      which contains none of the four tags, and every other variant's tag is
      a different dict key. */
  lemma ExecuteIgnores(e: Engine, r: Robot, m: Messages.NodeMessage)
    requires !Acts(m)
    ensures ExecuteCommand(e, r, Messages.EncodeNodeMessage(m, Messages.Dyn)) == Ok((e, r))
    ensures ExecuteCommandIntended(e, r, Messages.EncodeNodeMessage(m, Messages.Dyn)) == Ok((e, r))
  {
    if m.NoneNodeMessage? {
      assert Messages.EncodeNodeMessage(m, Messages.Dyn) == Str("NoneNodeMessage");
      IgnoresNone(e, r);
    } else {
      IgnoresOther(e, r, m);
    }
  }

  lemma IgnoresNone(e: Engine, r: Robot)
    ensures ExecuteCommand(e, r, Str("NoneNodeMessage")) == Ok((e, r))
    ensures ExecuteCommandIntended(e, r, Str("NoneNodeMessage")) == Ok((e, r))
  {
    NoneLacks("Joint");
    NoneLacks("JointWithPeriod");
    NoneLacks("Tau");
    NoneLacks("TauWithPeriod");
  }

  lemma IgnoresOther(e: Engine, r: Robot, m: Messages.NodeMessage)
    requires !Acts(m) && !m.NoneNodeMessage?
    ensures ExecuteCommand(e, r, Messages.EncodeNodeMessage(m, Messages.Dyn)) == Ok((e, r))
    ensures ExecuteCommandIntended(e, r, Messages.EncodeNodeMessage(m, Messages.Dyn)) == Ok((e, r))
  {
    TagOfEncoded(m);
    assert Messages.NodeMessageTag(m) !in ActingTags;
  }

  lemma NoneLacks(tag: string)
    requires tag in ActingTags
    ensures !IsSubstring(tag, "NoneNodeMessage")
  {
    var s := "NoneNodeMessage";
    assert forall i :: 0 <= i < |s| ==> s[i] != 'J' && s[i] != 'T';
    assert tag[0] == 'J' || tag[0] == 'T';
    assert forall i :: OccursAt(tag, s, i) ==> s[i] == tag[0];
  }

  /** Joint and Tau read the DVector's data, `cmd[tag][0]`: every joint that
      has a value is driven to it. */
  lemma ExecutePlain(e: Engine, r: Robot, m: Messages.NodeMessage)
    requires m.Joint? || m.Tau?
    ensures ExecuteCommand(e, r, Messages.EncodeNodeMessage(m, Messages.Dyn))
         == SetJoints(e, r, Arr(Messages.NumsOf(Carried(m).0)), Carried(m).1)
    ensures ExecuteCommand(e, r, Messages.EncodeNodeMessage(m, Messages.Dyn)).Ok?
  {
    SetJointsNumbers(e, r, Carried(m).0, Carried(m).1);
    match m
    case Joint(q) =>
      EncodedJoint(q);
      JointBranch(e, r, Messages.EncodeVector(q, Messages.Dyn));
      DispatchVector(e, r, "Joint", q, PositionMode);
    case Tau(u) =>
      EncodedTau(u);
      TauBranch(e, r, Messages.EncodeVector(u, Messages.Dyn));
      DispatchVector(e, r, "Tau", u, TorqueMode);
  }

  /** The period forms as written: `cmd[tag][1]` is the whole DVector
      `[data, nrows, null]`, whose first item is a list, so pybullet raises
      TypeError as soon as the robot has a joint. */
  lemma ExecutePeriodAsWritten(e: Engine, r: Robot, m: Messages.NodeMessage)
    requires m.JointWithPeriod? || m.TauWithPeriod?
    requires |r.joints| > 0
    ensures Raises(ExecuteCommand(e, r, Messages.EncodeNodeMessage(m, Messages.Dyn)), "TypeError")
  {
    var triple := Messages.EncodeVector(Carried(m).0, Messages.Dyn);
    TripleRefused(e, r, triple, Carried(m).1);
    match m
    case JointWithPeriod(t, q) =>
      EncodedJointWithPeriod(t, q);
      JointWithPeriodBranch(e, r, Arr([Num(t), triple]));
      DispatchTriple(e, r, "JointWithPeriod", t, q, PositionMode);
    case TauWithPeriod(t, u) =>
      EncodedTauWithPeriod(t, u);
      TauWithPeriodBranch(e, r, Arr([Num(t), triple]));
      DispatchTriple(e, r, "TauWithPeriod", t, u, TorqueMode);
  }

  /** Commanding joints with a DVector triple: its first item is a list. */
  lemma TripleRefused(e: Engine, r: Robot, triple: Value, mode: Mode)
    requires triple.Arr? && |triple.items| > 0 && triple.items[0].Arr?
    requires |r.joints| > 0
    ensures Raises(SetJoints(e, r, triple, mode), "TypeError")
  {
    assert Min(|r.joints|, |triple.items|) > 0;
    assert !AsFloat(triple.items[0]).Ok?;
  }

  /** The intended reading drives the joints with the carried vector for
      every acting message. */
  lemma ExecuteIntended(e: Engine, r: Robot, m: Messages.NodeMessage)
    requires Acts(m)
    ensures ExecuteCommandIntended(e, r, Messages.EncodeNodeMessage(m, Messages.Dyn))
         == SetJoints(e, r, Arr(Messages.NumsOf(Carried(m).0)), Carried(m).1)
    ensures ExecuteCommandIntended(e, r, Messages.EncodeNodeMessage(m, Messages.Dyn)).Ok?
  {
    SetJointsNumbers(e, r, Carried(m).0, Carried(m).1);
    match m
    case Joint(q) =>
      EncodedJoint(q);
      IntendedJointBranch(e, r, Messages.EncodeVector(q, Messages.Dyn));
      DispatchVector(e, r, "Joint", q, PositionMode);
    case Tau(u) =>
      EncodedTau(u);
      IntendedTauBranch(e, r, Messages.EncodeVector(u, Messages.Dyn));
      DispatchVector(e, r, "Tau", u, TorqueMode);
    case JointWithPeriod(t, q) =>
      EncodedJointWithPeriod(t, q);
      IntendedJointWithPeriodBranch(e, r, Arr([Num(t), Messages.EncodeVector(q, Messages.Dyn)]));
      DispatchDataVector(e, r, "JointWithPeriod", t, q, PositionMode);
    case TauWithPeriod(t, u) =>
      EncodedTauWithPeriod(t, u);
      IntendedTauWithPeriodBranch(e, r, Arr([Num(t), Messages.EncodeVector(u, Messages.Dyn)]));
      DispatchDataVector(e, r, "TauWithPeriod", t, u, TorqueMode);
  }

  // The four acting messages as Python sees them.

  lemma EncodedJoint(q: Messages.Vector)
    ensures Messages.EncodeNodeMessage(Messages.NodeMessage.Joint(q), Messages.Dyn)
         == Obj([Member("Joint", Messages.EncodeVector(q, Messages.Dyn))])
  {
  }

  lemma EncodedTau(u: Messages.Vector)
    ensures Messages.EncodeNodeMessage(Messages.Tau(u), Messages.Dyn)
         == Obj([Member("Tau", Messages.EncodeVector(u, Messages.Dyn))])
  {
  }

  lemma EncodedJointWithPeriod(t: real, q: Messages.Vector)
    ensures Messages.EncodeNodeMessage(Messages.JointWithPeriod(t, q), Messages.Dyn)
         == Obj([Member("JointWithPeriod", Arr([Num(t), Messages.EncodeVector(q, Messages.Dyn)]))])
  {
  }

  lemma EncodedTauWithPeriod(t: real, u: Messages.Vector)
    ensures Messages.EncodeNodeMessage(Messages.TauWithPeriod(t, u), Messages.Dyn)
         == Obj([Member("TauWithPeriod", Arr([Num(t), Messages.EncodeVector(u, Messages.Dyn)]))])
  {
  }

  // Which branch of `execute_command` a one-member dict takes.

  lemma JointBranch(e: Engine, r: Robot, payload: Value)
    ensures ExecuteCommand(e, r, Obj([Member("Joint", payload)]))
         == Dispatch(e, r, Obj([Member("Joint", payload)]), "Joint", 0, PositionMode)
  {
  }

  lemma TauBranch(e: Engine, r: Robot, payload: Value)
    ensures ExecuteCommand(e, r, Obj([Member("Tau", payload)]))
         == Dispatch(e, r, Obj([Member("Tau", payload)]), "Tau", 0, TorqueMode)
  {
  }

  lemma JointWithPeriodBranch(e: Engine, r: Robot, payload: Value)
    ensures ExecuteCommand(e, r, Obj([Member("JointWithPeriod", payload)]))
         == Dispatch(e, r, Obj([Member("JointWithPeriod", payload)]), "JointWithPeriod", 1, PositionMode)
  {
  }

  lemma TauWithPeriodBranch(e: Engine, r: Robot, payload: Value)
    ensures ExecuteCommand(e, r, Obj([Member("TauWithPeriod", payload)]))
         == Dispatch(e, r, Obj([Member("TauWithPeriod", payload)]), "TauWithPeriod", 1, TorqueMode)
  {
  }

  lemma IntendedJointBranch(e: Engine, r: Robot, payload: Value)
    ensures ExecuteCommandIntended(e, r, Obj([Member("Joint", payload)]))
         == Dispatch(e, r, Obj([Member("Joint", payload)]), "Joint", 0, PositionMode)
  {
  }

  lemma IntendedTauBranch(e: Engine, r: Robot, payload: Value)
    ensures ExecuteCommandIntended(e, r, Obj([Member("Tau", payload)]))
         == Dispatch(e, r, Obj([Member("Tau", payload)]), "Tau", 0, TorqueMode)
  {
  }

  lemma IntendedJointWithPeriodBranch(e: Engine, r: Robot, payload: Value)
    ensures ExecuteCommandIntended(e, r, Obj([Member("JointWithPeriod", payload)]))
         == DispatchData(e, r, Obj([Member("JointWithPeriod", payload)]), "JointWithPeriod", PositionMode)
  {
  }

  lemma IntendedTauWithPeriodBranch(e: Engine, r: Robot, payload: Value)
    ensures ExecuteCommandIntended(e, r, Obj([Member("TauWithPeriod", payload)]))
         == DispatchData(e, r, Obj([Member("TauWithPeriod", payload)]), "TauWithPeriod", TorqueMode)
  {
  }

  // What the chosen branch reads.

  /** `cmd[tag][0]` of a DVector payload is its data. */
  lemma DispatchVector(e: Engine, r: Robot, tag: string, u: Messages.Vector, mode: Mode)
    ensures Dispatch(e, r, Obj([Member(tag, Messages.EncodeVector(u, Messages.Dyn))]), tag, 0, mode)
         == SetJoints(e, r, Arr(Messages.NumsOf(u)), mode)
  {
  }

  /** `cmd[tag][1]` of a `[period, DVector]` payload is the whole triple. */
  lemma DispatchTriple(e: Engine, r: Robot, tag: string, t: real, u: Messages.Vector, mode: Mode)
    ensures Dispatch(e, r, Obj([Member(tag, Arr([Num(t), Messages.EncodeVector(u, Messages.Dyn)]))]), tag, 1, mode)
         == SetJoints(e, r, Messages.EncodeVector(u, Messages.Dyn), mode)
  {
  }

  /** `cmd[tag][1][0]` of a `[period, DVector]` payload is the data. */
  lemma DispatchDataVector(e: Engine, r: Robot, tag: string, t: real, u: Messages.Vector, mode: Mode)
    ensures DispatchData(e, r, Obj([Member(tag, Arr([Num(t), Messages.EncodeVector(u, Messages.Dyn)]))]), tag, mode)
         == SetJoints(e, r, Arr(Messages.NumsOf(u)), mode)
  {
  }

  /** A single character is too short to contain any tag: a command list
      that arrives still as a JSON string, iterated character by character,
      actuates nothing. */
  lemma ExecuteCharacter(e: Engine, r: Robot, c: char)
    ensures ExecuteCommand(e, r, Str([c])) == Ok((e, r))
  {
    ShortStringLacks("Joint", [c]);
    ShortStringLacks("JointWithPeriod", [c]);
    ShortStringLacks("Tau", [c]);
    ShortStringLacks("TauWithPeriod", [c]);
  }

  // ---------------------------------------------------------------------
  // Panda and the registry
  // ---------------------------------------------------------------------

  /** math.pi, the binary64 value nearest to pi. */
  const MathPi: real := 3.141592653589793115997963468544185161590576171875
  const PandaUrdf: string := "franka_panda/panda.urdf"
  const PyPandaDof: nat := 7
  const PandaDefaultJoint: seq<real> := [0.0, -(MathPi / 4.0), 0.0, -2.3562, 0.0, MathPi / 2.0, MathPi / 4.0]

  /** The Python default configuration is the Rust one. */
  lemma DefaultsAgree()
    ensures PandaDefaultJoint == Robots.PandaDefault
  {
  }

  function PandaJoints(e: Engine, body: nat, n: nat): (js: seq<Joint>)
    ensures |js| == n
    ensures forall i :: 0 <= i < n ==> js[i].body == body && js[i].index == i
  {
    seq(n, i requires 0 <= i => NewJoint(e, body, i))
  }

  /** `Panda.__init__`: load the URDF with the base position exactly as
      given, attach joints 0..6 in index order, then reset them to the
      default configuration. */
  function NewPanda(e: Engine, basePose: Value): (out: (Engine, Robot))
    ensures out.1.njoint == PyPandaDof && |out.1.joints| == PyPandaDof && out.1.defaultQ == PandaDefaultJoint
    ensures out.1.basePose == NewRobot(basePose).basePose
    ensures out.0.bodies == e.bodies + [Body(PandaUrdf, true, basePose)]
    ensures out.0.motors == e.motors && out.0.steps == e.steps
    ensures forall i :: 0 <= i < PyPandaDof ==>
      out.1.joints[i].body == |e.bodies| && out.1.joints[i].index == i &&
      out.1.joints[i].position == PandaDefaultJoint[i] && out.1.joints[i].velocity == 0.0
  {
    var r0 := NewRobot(basePose);
    var loaded := LoadUrdf(e, PandaUrdf, true, basePose);
    var r1 := r0.(njoint := PyPandaDof, defaultQ := PandaDefaultJoint,
                  joints := PandaJoints(loaded.0, loaded.1, PyPandaDof));
    Reset(loaded.0, r1)
  }

  /** After construction the engine holds every Panda joint at its default
      position and at rest. */
  lemma PandaStartsAtDefault(e: Engine, basePose: Value)
    ensures forall i :: 0 <= i < PyPandaDof ==>
      JointState(NewPanda(e, basePose).0, |e.bodies|, i) == (PandaDefaultJoint[i], 0.0)
  {
    var loaded := LoadUrdf(e, PandaUrdf, true, basePose);
    var js := PandaJoints(loaded.0, loaded.1, PyPandaDof);
    assert DistinctJoints(js);
    ResetZipEngine(loaded.0, js, PandaDefaultJoint);
  }

  /** `load_robot`: exact, case-sensitive match on the type; the name is
      not used. */
  function LoadRobot(e: Engine, robotType: Value, name: Value, position: Value): (r: Result<(Engine, Robot)>)
    ensures r.Ok? <==> robotType == Str("panda")
    ensures r.Ok? ==> r.value == NewPanda(e, position)
    ensures r.Err? ==> Raises(r, "ValueError")
    ensures r.Err? && robotType.Str? ==> r.error == "ValueError: Unknown robot type: '" + robotType.s + "'."
  {
    if robotType == Str("panda") then Ok(NewPanda(e, position))
    else if robotType.Str? then Err("ValueError: Unknown robot type: '" + robotType.s + "'.")
    else Err("ValueError: Unknown robot type")
  }
}
