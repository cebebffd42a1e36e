/** The Rust side of the pybullet exchange: the `bullet` simulator nodes.
    Each update answers one request from the Python simulator: it reads the
    robot states the simulator sent, replies with control commands, and
    writes the states into the robot records.

    Three variants exist: the multi-robot node of the node crate, the
    single-robot simulator of the simulator crate, and the fixed-size
    simulator of the older workspace.  The socket is a parameter: the
    message received is an input and the reply an output; a panic
    (`unwrap` on a parse error) is an `Err`, and no reply is sent then.
 */
module Bullet {
  import opened Wrappers
  import opened Json
  import opened Messages
  import Robots

  // ---------------------------------------------------------------------
  // What a robot state writes
  // ---------------------------------------------------------------------

  /** The joint positions a state carries, if any. */
  function StateQ(s: RobotState): Option<Vector> {
    match s
    case Joint(q) => Some(q)
    case JointVel(q, _) => Some(q)
    case JointVelAcc(q, _, _) => Some(q)
    case _ => None
  }

  /** The joint velocities a state carries, if any. */
  function StateQDot(s: RobotState): Option<Vector> {
    match s
    case Velocity(v) => Some(v)
    case JointVel(_, v) => Some(v)
    case JointVelAcc(_, v, _) => Some(v)
    case _ => None
  }

  /** The joint accelerations a state carries, if any. */
  function StateQDdot(s: RobotState): Option<Vector> {
    match s
    case Acceleration(a) => Some(a)
    case JointVelAcc(_, _, a) => Some(a)
    case _ => None
  }

  function Overwrite(prev: Vector, next: Option<Vector>): Vector {
    if next.Some? then next.value else prev
  }

  /** The multi-robot node's write: every vector a state carries replaces
      the matching field; a Pose state writes nothing. */
  function ApplyState(r: Robots.SeriesRobot, s: RobotState): (r': Robots.SeriesRobot)
    ensures r'.state.q == Overwrite(r.state.q, StateQ(s))
    ensures r'.state.qDot == Overwrite(r.state.qDot, StateQDot(s))
    ensures r'.state.qDdot == Overwrite(r.state.qDdot, StateQDdot(s))
    ensures r'.state.qJerk == r.state.qJerk && r'.state.base == r.state.base
    ensures r'.state.control == r.state.control && r'.name == r.name && r'.params == r.params
  {
    match s
    case Pose(_) => r
    case Joint(q) => Robots.SetQ(r, q)
    case Velocity(v) => Robots.SetQDot(r, v)
    case Acceleration(a) => Robots.SetQDdot(r, a)
    case JointVel(q, v) => Robots.SetQDot(Robots.SetQ(r, q), v)
    case JointVelAcc(q, v, a) => Robots.SetQDdot(Robots.SetQDot(Robots.SetQ(r, q), v), a)
  }

  /** The simulators' write: Joint, Velocity and JointVel only. */
  function ApplyStateNarrow(r: Robots.SeriesRobot, s: RobotState): (r': Robots.SeriesRobot)
    ensures s.Joint? || s.Velocity? || s.JointVel? ==> r' == ApplyState(r, s)
    ensures !(s.Joint? || s.Velocity? || s.JointVel?) ==> r' == r
  {
    match s
    case Joint(q) => Robots.SetQ(r, q)
    case Velocity(v) => Robots.SetQDot(r, v)
    case JointVel(q, v) => Robots.SetQDot(Robots.SetQ(r, q), v)
    case _ => r
  }

  /** `for (robot, state) in robots.zip(states)`: robot k takes state k;
      surplus robots or states are left alone. */
  function ApplyStates(robots: seq<Robots.SeriesRobot>, states: seq<RobotState>): (rs: seq<Robots.SeriesRobot>)
    ensures |rs| == |robots|
    ensures forall k :: 0 <= k < |robots| && k < |states| ==> rs[k] == ApplyState(robots[k], states[k])
    ensures forall k :: |states| <= k < |robots| ==> rs[k] == robots[k]
  {
    if |robots| == 0 || |states| == 0 then robots
    else [ApplyState(robots[0], states[0])] + ApplyStates(robots[1..], states[1..])
  }

  // ---------------------------------------------------------------------
  // The multi-robot node (node crate)
  // ---------------------------------------------------------------------

  datatype BulletNode = BulletNode(name: string, isEnd: bool, robots: seq<Robots.SeriesRobot>)

  function NewNode(name: string): (b: BulletNode)
    ensures b.name == name && !b.isEnd && b.robots == []
  {
    BulletNode(name, false, [])
  }

  /** `set_robot`: only serial robots are kept, in call order. */
  function SetRobot(b: BulletNode, h: Robots.RobotHandle): (b': BulletNode)
    ensures h.Series? ==> b'.robots == b.robots + [h.robot]
    ensures !h.Series? ==> b' == b
    ensures b'.name == b.name && b'.isEnd == b.isEnd
  {
    if h.Series? then b.(robots := b.robots + [h.robot]) else b
  }

  /** `set_robot` over a sequence of handles keeps the serial ones in order. */
  function SetRobots(b: BulletNode, hs: seq<Robots.RobotHandle>): BulletNode
    decreases |hs|
  {
    if |hs| == 0 then b else SetRobots(SetRobot(b, hs[0]), hs[1..])
  }

  function SeriesOf(hs: seq<Robots.RobotHandle>): (rs: seq<Robots.SeriesRobot>)
    ensures |rs| <= |hs|
  {
    if |hs| == 0 then []
    else (if hs[0].Series? then [hs[0].robot] else []) + SeriesOf(hs[1..])
  }

  lemma {:induction false} SetRobotsKeepsSeries(b: BulletNode, hs: seq<Robots.RobotHandle>)
    ensures SetRobots(b, hs).robots == b.robots + SeriesOf(hs)
    ensures SetRobots(b, hs).isEnd == b.isEnd
    decreases |hs|
  {
    if |hs| > 0 {
      SetRobotsKeepsSeries(SetRobot(b, hs[0]), hs[1..]);
      assert b.robots + ((if hs[0].Series? then [hs[0].robot] else []) + SeriesOf(hs[1..]))
          == (b.robots + (if hs[0].Series? then [hs[0].robot] else [])) + SeriesOf(hs[1..]);
    }
  }

  function IsEnd(b: BulletNode): BulletNode {
    b.(isEnd := true)
  }

  /** The control message of every registered robot, in order. */
  function Controls(robots: seq<Robots.SeriesRobot>): (ms: seq<NodeMessage>)
    ensures |ms| == |robots| && forall k :: 0 <= k < |robots| ==> ms[k] == robots[k].state.control
  {
    if |robots| == 0 then [] else [robots[0].state.control] + Controls(robots[1..])
  }

  function EncodeNodeMessages(ms: seq<NodeMessage>, l: VecLayout): (vs: seq<Value>)
    ensures |vs| == |ms| && forall k :: 0 <= k < |ms| ==> vs[k] == EncodeNodeMessage(ms[k], l)
  {
    if |ms| == 0 then [] else [EncodeNodeMessage(ms[0], l)] + EncodeNodeMessages(ms[1..], l)
  }

  /** `serde_json::from_str::<Vec<DRobotState>>(message).unwrap()`. */
  function ParseStates(message: string, t: NumberText): (r: Result<seq<RobotState>>)
    ensures r.Ok? ==> Load(message, t).Ok? && DecodeRobotStates(Load(message, t).value, Dyn) == r
  {
    var j :- Load(message, t);
    DecodeRobotStates(j, Dyn)
  }

  /** One update: serialise the commands, receive and parse the states, reply
      with the serialised command text encoded once more as a JSON string,
      then write the states.  A message that does not parse panics before
      the reply is sent. */
  function NodeUpdate(b: BulletNode, message: string, t: NumberText): (r: Result<(BulletNode, string)>)
    ensures r.Ok? <==> ParseStates(message, t).Ok?
    ensures r.Ok? ==> r.value.0 == b.(robots := ApplyStates(b.robots, ParseStates(message, t).value))
  {
    var command := Dump(Arr(EncodeNodeMessages(Controls(b.robots), Dyn)), t, Compact);
    var states :- ParseStates(message, t);
    var reply := Dump(Str(command), t, Compact);
    Ok((b.(robots := ApplyStates(b.robots, states)), reply))
  }

  /** The `is_end` flag is never read by `update`. */
  lemma NodeUpdateIgnoresEnd(b: BulletNode, message: string, t: NumberText)
    ensures NodeUpdate(IsEnd(b), message, t).Ok? == NodeUpdate(b, message, t).Ok?
    ensures NodeUpdate(b, message, t).Ok? ==>
      NodeUpdate(IsEnd(b), message, t).value == (IsEnd(NodeUpdate(b, message, t).value.0), NodeUpdate(b, message, t).value.1)
  {
  }

  /** The reply decodes once to a JSON string, and that string decodes to
      the array of every robot's control message in registration order, each
      of which reads back as the message itself. */
  lemma NodeReplyDecodesTwice(b: BulletNode, message: string, t: NumberText)
    requires SoundOn(t, Numbers(Arr(EncodeNodeMessages(Controls(b.robots), Dyn))))
    requires NodeUpdate(b, message, t).Ok?
    ensures var reply := NodeUpdate(b, message, t).value.1;
      var inner := Dump(Arr(EncodeNodeMessages(Controls(b.robots), Dyn)), t, Compact);
      Load(reply, t) == Ok(Str(inner)) &&
      Load(inner, t) == Ok(Arr(EncodeNodeMessages(Controls(b.robots), Dyn)))
    ensures forall k :: 0 <= k < |b.robots| ==>
      DecodeNodeMessage(EncodeNodeMessages(Controls(b.robots), Dyn)[k], Dyn) == Ok(b.robots[k].state.control)
  {
    var inner := Dump(Arr(EncodeNodeMessages(Controls(b.robots), Dyn)), t, Compact);
    LoadDump(Str(inner), t, Compact);
    LoadDump(Arr(EncodeNodeMessages(Controls(b.robots), Dyn)), t, Compact);
    forall k | 0 <= k < |b.robots|
      ensures DecodeNodeMessage(EncodeNodeMessages(Controls(b.robots), Dyn)[k], Dyn) == Ok(b.robots[k].state.control)
    {
      NodeMessageRoundTrip(b.robots[k].state.control, Dyn);
    }
  }

  // ---------------------------------------------------------------------
  // The single-robot simulator (simulator crate)
  // ---------------------------------------------------------------------

  datatype SimBullet = SimBullet(name: string, queue: seq<NodeMessage>, robot: Robots.SeriesRobot)

  /** `serde_json::from_str::<DRobotState>(message).unwrap()`: one state,
      not a list. */
  function ParseState(message: string, t: NumberText, l: VecLayout): (r: Result<RobotState>)
    ensures r.Ok? ==> Load(message, t).Ok? && DecodeRobotState(Load(message, t).value, l) == r
  {
    var j :- Load(message, t);
    DecodeRobotState(j, l)
  }

  /** One update.  An empty queue returns before the socket is touched
      (no reply, whatever the peer sent); otherwise exactly one command is
      popped, the state is received and parsed, and the popped command is
      the reply. */
  function SimUpdate(b: SimBullet, message: string, t: NumberText): (r: Result<(SimBullet, Option<string>)>)
    ensures |b.queue| == 0 ==> r == Ok((b, None))
    ensures |b.queue| > 0 ==> (r.Ok? <==> ParseState(message, t, Dyn).Ok?)
    ensures |b.queue| > 0 && r.Ok? ==>
      r.value.0.queue == b.queue[1..] && r.value.1.Some? &&
      r.value.0.robot == ApplyStateNarrow(b.robot, ParseState(message, t, Dyn).value)
  {
    if |b.queue| == 0 then Ok((b, None))
    else
      var command := b.queue[0];
      var state :- ParseState(message, t, Dyn);
      var reply := Dump(EncodeNodeMessage(command, Dyn), t, Compact);
      Ok((b.(queue := b.queue[1..], robot := ApplyStateNarrow(b.robot, state)), Some(reply)))
  }

  /** A command serialised on its own reads back as itself. */
  lemma CommandReadsBack(m: NodeMessage, l: VecLayout, t: NumberText)
    requires SoundOn(t, Numbers(EncodeNodeMessage(m, l))) && FitsNodeMessage(m, l)
    ensures Load(Dump(EncodeNodeMessage(m, l), t, Compact), t) == Ok(EncodeNodeMessage(m, l))
    ensures DecodeNodeMessage(EncodeNodeMessage(m, l), l) == Ok(m)
  {
    LoadDump(EncodeNodeMessage(m, l), t, Compact);
    NodeMessageRoundTrip(m, l);
  }

  /** The reply is the popped command, readable with the same decoder. */
  lemma SimReplyIsHead(b: SimBullet, message: string, t: NumberText)
    requires |b.queue| > 0 && SoundOn(t, Numbers(EncodeNodeMessage(b.queue[0], Dyn)))
    requires SimUpdate(b, message, t).Ok?
    ensures var reply := SimUpdate(b, message, t).value.1.value;
      Load(reply, t).Ok? && DecodeNodeMessage(Load(reply, t).value, Dyn) == Ok(b.queue[0])
  {
    var m := b.queue[0];
    assert SimUpdate(b, message, t).value.1.value == Dump(EncodeNodeMessage(m, Dyn), t, Compact);
    assert FitsNodeMessage(m, Dyn);
    CommandReadsBack(m, Dyn, t);
  }

  /** `subscribe_post_office` is not implemented and always panics. */
  function SubscribePostOffice(b: SimBullet): (r: Result<SimBullet>)
    ensures r.Err?
  {
    Err("not implemented")
  }

  // ---------------------------------------------------------------------
  // The fixed-size simulator (older workspace)
  // ---------------------------------------------------------------------

  /** `Bullet<R, N>`: commands are `ControlCommandN<N>` and the state is
      parsed with vectors of exactly `n` entries. */
  datatype FixedBullet = FixedBullet(n: nat, queue: seq<NodeMessage>, robot: Robots.SeriesRobot)

  predicate QueueFits(b: FixedBullet) {
    forall k :: 0 <= k < |b.queue| ==> IsControlCommand(b.queue[k]) && FitsNodeMessage(b.queue[k], Fixed(b.n))
  }

  function FixedUpdate(b: FixedBullet, message: string, t: NumberText): (r: Result<(FixedBullet, Option<string>)>)
    ensures |b.queue| == 0 ==> r == Ok((b, None))
    ensures |b.queue| > 0 ==> (r.Ok? <==> ParseState(message, t, Fixed(b.n)).Ok?)
    ensures |b.queue| > 0 && r.Ok? ==>
      r.value.0.queue == b.queue[1..] && r.value.1.Some? &&
      r.value.0.robot == ApplyStateNarrow(b.robot, ParseState(message, t, Fixed(b.n)).value)
  {
    if |b.queue| == 0 then Ok((b, None))
    else
      var command := b.queue[0];
      var state :- ParseState(message, t, Fixed(b.n));
      var reply := Dump(EncodeNodeMessage(command, Fixed(b.n)), t, Compact);
      Ok((b.(queue := b.queue[1..], robot := ApplyStateNarrow(b.robot, state)), Some(reply)))
  }

  /** The reply reads back as the popped command with the same `N`. */
  lemma FixedReplyIsHead(b: FixedBullet, message: string, t: NumberText)
    requires QueueFits(b) && |b.queue| > 0 && SoundOn(t, Numbers(EncodeNodeMessage(b.queue[0], Fixed(b.n))))
    ensures FixedUpdate(b, message, t).Ok? ==>
      var reply := FixedUpdate(b, message, t).value.1.value;
      Load(reply, t).Ok? && DecodeControlCommand(Load(reply, t).value, Fixed(b.n)) == Ok(b.queue[0])
  {
    if FixedUpdate(b, message, t).Ok? {
      var m := b.queue[0];
      assert FixedUpdate(b, message, t).value.1.value == Dump(EncodeNodeMessage(m, Fixed(b.n)), t, Compact);
      CommandReadsBack(m, Fixed(b.n), t);
      ControlCommandRoundTrip(m, Fixed(b.n));
    }
  }
}
