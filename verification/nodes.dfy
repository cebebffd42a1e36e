/** The control nodes of the node graph: PID, impedance, position and
    interpolation.  Each holds an optional handle to a series robot; the
    robot's current record stands in for the handle, and an update returns
    the record as it leaves it.  Queues are sequences, front first.

    An update that unwraps a missing robot panics in the source; here it is
    `Err(UnwrapNone)`.  A shape mismatch in nalgebra arithmetic is
    `Err(DimensionMismatch)`. */
module Nodes {
  import opened Wrappers
  import opened Linalg
  import opened Messages
  import Robots
  import opened ControlLaw
  import Interpolation

  const UnwrapNone := "called `Option::unwrap()` on a `None` value"
  const WriteWhileRead := "RwLock write requested by the thread holding its read guard"

  /** `pop` of a queue: the front message and the rest. */
  function Pop(queue: seq<NodeMessage>): (r: (Option<NodeMessage>, seq<NodeMessage>))
    ensures queue == [] ==> r == (None, [])
    ensures queue != [] ==> r == (Some(queue[0]), queue[1..])
  {
    if queue == [] then (None, []) else (Some(queue[0]), queue[1..])
  }

  /** The effect of one update: the robot record afterwards and both queues. */
  datatype Effect = Effect(robot: Robots.SeriesRobot, input: seq<NodeMessage>, output: seq<NodeMessage>)

  /** Where an output goes: with `is_end` it becomes the robot's control
      message, otherwise it is pushed on the output queue. */
  function Route(isEnd: bool, robot: Robots.SeriesRobot, output: seq<NodeMessage>, msg: NodeMessage): (r: (Robots.SeriesRobot, seq<NodeMessage>))
    ensures isEnd ==> r.0 == Robots.SetControl(robot, msg) && r.1 == output
    ensures !isEnd ==> r.0 == robot && r.1 == output + [msg]
  {
    if isEnd then (Robots.SetControl(robot, msg), output) else (robot, output + [msg])
  }

  // ---- PID node ----

  datatype PidNode = PidNode(gains: PidGains, mem: PidMemory, isEnd: bool, robot: Option<Robots.SeriesRobot>)

  /** `is_end` (every node): from now on outputs go to the robot. */
  function PidIsEnd(n: PidNode): (r: PidNode)
    ensures r.isEnd && r.gains == n.gains && r.mem == n.mem && r.robot == n.robot
  {
    n.(isEnd := true)
  }

  /** `set_robot`: a series robot replaces the state by zeros of its dof,
      which also clears `is_end`; any other robot is ignored. */
  function PidSetRobot(n: PidNode, h: Robots.RobotHandle): (r: PidNode)
    ensures h.Series? ==> r == PidNode(n.gains, PidZero(Robots.Dof(h.robot)), false, Some(h.robot))
    ensures !h.Series? ==> r == n
  {
    match h
    case Series(robot) => PidNode(n.gains, PidZero(Robots.Dof(robot)), false, Some(robot))
    case FrankaGripper(_) => n
  }

  /** The track an update works towards: a popped Joint replaces it, any
      other popped message is dropped, an empty queue keeps it. */
  function NextTrack(track: Vector, input: seq<NodeMessage>): (r: Vector)
    ensures input != [] && input[0].Joint? ==> r == input[0].joint
    ensures !(input != [] && input[0].Joint?) ==> r == track
  {
    match Pop(input).0
    case Some(m) => if m.Joint? then m.joint else track
    case None => track
  }

  /** `update` of the PID node. */
  function PidUpdate(n: PidNode, input: seq<NodeMessage>, output: seq<NodeMessage>): (r: Result<(PidNode, Effect)>)
    ensures n.robot.None? ==> r == Err(UnwrapNone)
    ensures n.robot.Some? ==>
      var mem := n.mem.(track := NextTrack(n.mem.track, input));
      var step := PidStep(n.gains, mem, n.robot.value.state.q);
      (r.Ok? <==> step.Ok?) &&
      (r.Err? ==> r == Err(step.error)) &&
      (r.Ok? ==>
        var (n', e) := r.value;
        n' == n.(mem := step.value.0, robot := Some(e.robot)) &&
        e.input == Pop(input).1 &&
        (n.isEnd ==> e.robot == Robots.SetControl(n.robot.value, NodeMessage.Joint(step.value.1)) && e.output == output) &&
        (!n.isEnd ==> e.robot == n.robot.value && e.output == output + [NodeMessage.Joint(step.value.1)]))
  {
    if n.robot.None? then Err(UnwrapNone)
    else
      var robot := n.robot.value;
      var (msg, rest) := Pop(input);
      var track := NextTrack(n.mem.track, input);
      var (mem', out) :- PidStep(n.gains, n.mem.(track := track), robot.state.q);
      var (robot', output') := Route(n.isEnd, robot, output, NodeMessage.Joint(out));
      Ok((n.(mem := mem', robot := Some(robot')), Effect(robot', rest, output')))
  }

  /** Every completed update emits exactly one Joint message, to the robot
      or to the output queue, even when nothing was popped. */
  lemma PidEmitsOnce(n: PidNode, input: seq<NodeMessage>, output: seq<NodeMessage>)
    requires PidUpdate(n, input, output).Ok?
    ensures var e := PidUpdate(n, input, output).value.1;
      if n.isEnd then e.output == output && e.robot.state.control.Joint?
      else |e.output| == |output| + 1 && e.output[|output|].Joint? && e.robot == n.robot.value
  {
  }

  /** With an empty queue the node keeps working towards its old track,
      and at that track from fresh memory its output is zero. */
  lemma PidHoldsTrack(n: PidNode, output: seq<NodeMessage>)
    requires n.robot.Some? && PidUpdate(n, [], output).Ok?
    requires n.mem.track == n.robot.value.state.q && n.mem.error == Zeros(|n.mem.track|)
    requires n.mem.integral == Zeros(|n.mem.track|) && n.mem.derivative == Zeros(|n.mem.track|)
    ensures PidUpdate(n, [], output).value.0.mem.track == n.mem.track
    ensures !n.isEnd ==> PidUpdate(n, [], output).value.1.output == output + [NodeMessage.Joint(Zeros(|n.gains.kp|))]
  {
    PidAtTrack(n.gains, n.robot.value.state.q);
  }

  /** Attaching a robot after `is_end` sends outputs back to the queue. */
  lemma PidSetRobotClearsEnd(n: PidNode, robot: Robots.SeriesRobot)
    ensures !PidSetRobot(PidIsEnd(n), Robots.Series(robot)).isEnd
    ensures PidSetRobot(PidIsEnd(n), Robots.Series(robot)).mem == PidZero(Robots.Dof(robot))
    ensures PidSetRobot(PidIsEnd(n), Robots.FrankaGripper(Robots.NewGripper("gripper"))).isEnd
  {
  }

  // ---- impedance node ----

  datatype ImpedanceNode = ImpedanceNode(gains: ImpedanceGains, ref: Reference, isEnd: bool, robot: Option<Robots.SeriesRobot>)

  /** `set_robot`: a series robot rebuilds the references as zeros of its
      dof and clears `is_end`; any other robot is ignored. */
  function ImpedanceSetRobot(n: ImpedanceNode, h: Robots.RobotHandle): (r: ImpedanceNode)
    ensures h.Series? ==> r == ImpedanceNode(n.gains, ReferenceZero(Robots.Dof(h.robot)), false, Some(h.robot))
    ensures !h.Series? ==> r == n
  {
    match h
    case Series(robot) => ImpedanceNode(n.gains, ReferenceZero(Robots.Dof(robot)), false, Some(robot))
    case FrankaGripper(_) => n
  }

  /** `update` of the impedance node as written: the read guard on the
      robot is taken first and never released, so with `is_end` the write
      that would set the control message cannot be granted. */
  function ImpedanceUpdateAsWritten(n: ImpedanceNode, input: seq<NodeMessage>, output: seq<NodeMessage>): (r: Result<(ImpedanceNode, Effect)>)
    ensures n.robot.None? ==> r == Err(UnwrapNone)
    ensures (n.robot.Some? && n.isEnd && Pop(input).0.Some? && TakeReference(n.ref, Pop(input).0.value).Some? &&
      ImpedanceOutput(n.gains, TakeReference(n.ref, Pop(input).0.value).value,
        n.robot.value.state.q, n.robot.value.state.qDot, n.robot.value.state.qDdot).Ok?) ==>
      r == Err(WriteWhileRead)
  {
    if n.robot.None? then Err(UnwrapNone)
    else
      var robot := n.robot.value;
      var (msg, rest) := Pop(input);
      if msg.None? || TakeReference(n.ref, msg.value).None? then
        Ok((n, Effect(robot, rest, output)))
      else
        var ref := TakeReference(n.ref, msg.value).value;
        var out :- ImpedanceOutput(n.gains, ref, robot.state.q, robot.state.qDot, robot.state.qDdot);
        if n.isEnd then Err(WriteWhileRead)
        else Ok((n.(ref := ref), Effect(robot, rest, output + [NodeMessage.Joint(out)])))
  }

  /** `update` of the impedance node with the read guard released before the
      output is routed, as the PID node does. */
  function ImpedanceUpdate(n: ImpedanceNode, input: seq<NodeMessage>, output: seq<NodeMessage>): (r: Result<(ImpedanceNode, Effect)>)
    ensures n.robot.None? ==> r == Err(UnwrapNone)
    ensures n.robot.Some? && (input == [] || TakeReference(n.ref, input[0]).None?) ==>
      r == Ok((n, Effect(n.robot.value, Pop(input).1, output)))
    ensures n.robot.Some? && input != [] && TakeReference(n.ref, input[0]).Some? ==>
      var ref := TakeReference(n.ref, input[0]).value;
      var robot := n.robot.value;
      var out := ImpedanceOutput(n.gains, ref, robot.state.q, robot.state.qDot, robot.state.qDdot);
      (r.Ok? <==> out.Ok?) && (r.Err? ==> r.error == DimensionMismatch) &&
      (r.Ok? ==>
        r.value.0 == n.(ref := ref, robot := Some(r.value.1.robot)) &&
        r.value.1.input == input[1..] &&
        (n.isEnd ==> r.value.1.robot == Robots.SetControl(robot, NodeMessage.Joint(out.value)) && r.value.1.output == output) &&
        (!n.isEnd ==> r.value.1.robot == robot && r.value.1.output == output + [NodeMessage.Joint(out.value)]))
  {
    if n.robot.None? then Err(UnwrapNone)
    else
      var robot := n.robot.value;
      var (msg, rest) := Pop(input);
      if msg.None? || TakeReference(n.ref, msg.value).None? then
        Ok((n, Effect(robot, rest, output)))
      else
        var ref := TakeReference(n.ref, msg.value).value;
        var out :- ImpedanceOutput(n.gains, ref, robot.state.q, robot.state.qDot, robot.state.qDdot);
        var (robot', output') := Route(n.isEnd, robot, output, NodeMessage.Joint(out));
        Ok((n.(ref := ref, robot := Some(robot')), Effect(robot', rest, output')))
  }

  /** The two agree whenever outputs go to the queue; with `is_end` and a
      reference to act on, the written update never completes while the
      released one hands the output to the robot. */
  lemma ImpedanceEndDeadlocks(n: ImpedanceNode, input: seq<NodeMessage>, output: seq<NodeMessage>)
    ensures !n.isEnd ==> ImpedanceUpdateAsWritten(n, input, output) == ImpedanceUpdate(n, input, output)
    ensures (n.isEnd && n.robot.Some? && ImpedanceUpdate(n, input, output).Ok? && input != [] &&
      TakeReference(n.ref, input[0]).Some?) ==>
      ImpedanceUpdateAsWritten(n, input, output) == Err(WriteWhileRead) &&
      ImpedanceUpdate(n, input, output).value.1.robot.state.control.Joint?
  {
  }

  /** A robot that sits on the reference it was just sent gets a zero
      output. */
  lemma ImpedanceRestsOnReference(n: ImpedanceNode, q: Vector, output: seq<NodeMessage>)
    requires n.robot.Some? && !n.isEnd
    requires n.robot.value.state.q == q && n.robot.value.state.qDot == n.ref.qDot && n.robot.value.state.qDdot == n.ref.qDdot
    requires ImpedanceFits(n.gains, n.ref.(q := q), q, n.ref.qDot, n.ref.qDdot)
    ensures ImpedanceUpdate(n, [NodeMessage.Joint(q)], output).Ok?
    ensures ImpedanceUpdate(n, [NodeMessage.Joint(q)], output).value.1.output == output + [NodeMessage.Joint(Zeros(|n.gains.k|))]
  {
    ImpedanceAtReference(n.gains, n.ref.(q := q));
  }

  // ---- position node ----

  datatype PositionNode = PositionNode(isEnd: bool, robot: Option<Robots.SeriesRobot>)

  /** `is_end` latches: nothing in the node clears it again. */
  function PositionIsEnd(n: PositionNode): (r: PositionNode)
    ensures r.isEnd && r.robot == n.robot
  {
    n.(isEnd := true)
  }

  /** `set_robot`: only a series robot is taken, and `is_end` is kept. */
  function PositionSetRobot(n: PositionNode, h: Robots.RobotHandle): (r: PositionNode)
    ensures r.isEnd == n.isEnd
    ensures h.Series? ==> r.robot == Some(h.robot)
    ensures !h.Series? ==> r == n
  {
    match h
    case Series(robot) => n.(robot := Some(robot))
    case FrankaGripper(_) => n
  }

  /** `update`: pop at most one message; with `is_end` it becomes the
      robot's control message, otherwise it is dropped. */
  function PositionUpdate(n: PositionNode, input: seq<NodeMessage>): (r: Result<(PositionNode, seq<NodeMessage>)>)
    ensures r.Err? <==> input != [] && n.isEnd && n.robot.None?
    ensures r.Err? ==> r.error == UnwrapNone
    ensures r.Ok? ==> r.value.1 == Pop(input).1 && r.value.0.isEnd == n.isEnd
    ensures r.Ok? && (input == [] || !n.isEnd) ==> r.value.0 == n
    ensures r.Ok? && input != [] && n.isEnd ==> r.value.0.robot == Some(Robots.SetControl(n.robot.value, input[0]))
  {
    match Pop(input).0
    case None => Ok((n, []))
    case Some(msg) =>
      if !n.isEnd then Ok((n, input[1..]))
      else if n.robot.None? then Err(UnwrapNone)
      else Ok((n.(robot := Some(Robots.SetControl(n.robot.value, msg))), input[1..]))
  }

  /** Updates run until the queue is empty or one fails. */
  function PositionRun(n: PositionNode, input: seq<NodeMessage>): Result<PositionNode>
    decreases |input|
  {
    if input == [] then Ok(n)
    else
      var (n', rest) :- PositionUpdate(n, input);
      PositionRun(n', rest)
  }

  /** Draining a queue into an ended node with a robot leaves the last
      message as the control message and nothing else of the robot
      changed; a node without `is_end` drains the queue and touches
      nothing. */
  lemma {:induction false} PositionLastWins(n: PositionNode, input: seq<NodeMessage>)
    requires input != []
    ensures n.isEnd && n.robot.Some? ==>
      PositionRun(n, input) == Ok(n.(robot := Some(Robots.SetControl(n.robot.value, input[|input| - 1]))))
    ensures !n.isEnd ==> PositionRun(n, input) == Ok(n)
    decreases |input|
  {
    var step := PositionUpdate(n, input);
    if |input| > 1 && step.Ok? {
      PositionLastWins(step.value.0, input[1..]);
      if n.isEnd && n.robot.Some? {
        var r := n.robot.value;
        assert Robots.SetControl(Robots.SetControl(r, input[0]), input[|input| - 1]) == Robots.SetControl(r, input[|input| - 1]);
      }
    }
  }

  // ---- interp node ----

  datatype InterpNode = InterpNode(interpFn: string, ninter: nat, target: Option<NodeMessage>, robot: Option<Robots.SeriesRobot>)

  /** Each track point as a Joint message, in order. */
  function AsJoints(track: seq<Vector>): (r: seq<NodeMessage>)
    ensures |r| == |track| && forall i :: 0 <= i < |track| ==> r[i] == NodeMessage.Joint(track[i])
  {
    seq(|track|, i requires 0 <= i < |track| => NodeMessage.Joint(track[i]))
  }

  /** Where a single joint target's track starts: 0.3 q + 0.7 joint. */
  function Approach(q: Vector, joint: Vector): (r: Vector)
    requires |q| == |joint|
    ensures |r| == |q| && forall i :: 0 <= i < |q| ==> r[i] == 0.3 * q[i] + 0.7 * joint[i]
  {
    Add(Scale(0.3, q), Scale(0.7, joint))
  }

  /** The track a target asks for: None for kinds the node does not plan. */
  function TrackFor(q: Vector, target: NodeMessage, ninter: nat): (r: Option<Result<seq<Vector>>>)
    ensures r.Some? <==> target.Joint? || target.JointList?
    ensures target.Joint? ==>
      if |q| != |target.joint| then r == Some(Err(DimensionMismatch))
      else r == Some(Ok(Interpolation.Segment(Approach(q, target.joint), target.joint, ninter)))
    ensures target.JointList? && ninter == 0 ==> r == Some(Ok([]))
    ensures target.JointList? && ninter > 0 ==>
      if Interpolation.SameLength(q, target.joints) then r == Some(Ok(Interpolation.Lerp(q, target.joints, ninter)))
      else r == Some(Err(DimensionMismatch))
  {
    match target
    case Joint(joint) =>
      if |q| != |joint| then Some(Err(DimensionMismatch))
      else
        var start := Approach(q, joint);
        assert Interpolation.SameLength(start, [joint]);
        assert Interpolation.Lerp(start, [joint], ninter) == Interpolation.Segment(start, joint, ninter) + [] by {
          assert [joint][1..] == [];
          assert Interpolation.Lerp(joint, [], ninter) == [];
        }
        assert Interpolation.Segment(start, joint, ninter) + [] == Interpolation.Segment(start, joint, ninter);
        Some(Ok(Interpolation.Lerp(start, [joint], ninter)))
    case JointList(list) =>
      if ninter == 0 then Some(Ok([]))
      else if !Interpolation.SameLength(q, list) then Some(Err(DimensionMismatch))
      else Some(Ok(Interpolation.Lerp(q, list, ninter)))
    case _ => None
  }

  /** `update` of the interp node. */
  function InterpUpdate(n: InterpNode, input: seq<NodeMessage>, output: seq<NodeMessage>): (r: Result<(InterpNode, seq<NodeMessage>, seq<NodeMessage>)>)
    ensures n.robot.None? ==> r == Err(UnwrapNone)
    ensures n.robot.Some? && (n.interpFn != "lerp" || input == []) ==> r == Ok((n, input, output))
    ensures n.robot.Some? && n.interpFn == "lerp" && input != [] ==>
      var track := TrackFor(n.robot.value.state.q, input[0], n.ninter);
      (track.None? ==> r == Ok((n.(target := Some(input[0])), input[1..], output))) &&
      (track.Some? && track.value.Err? ==> r == Err(DimensionMismatch)) &&
      (track.Some? && track.value.Ok? ==> r == Ok((n.(target := Some(input[0])), input[1..], AsJoints(track.value.value))))
  {
    if n.robot.None? then Err(UnwrapNone)
    else if n.interpFn != "lerp" then Ok((n, input, output))
    else match Pop(input)
      case (None, _) => Ok((n, input, output))
      case (Some(target), rest) =>
        var n' := n.(target := Some(target));
        match TrackFor(n.robot.value.state.q, target, n.ninter)
        case None => Ok((n', rest, output))
        case Some(Err(e)) => Err(e)
        case Some(Ok(track)) => Ok((n', rest, AsJoints(track)))
  }

  /** A single joint target is approached but never reached: unless the
      robot already sits on it, no emitted message is the target, and the
      first emitted point is 0.3 q + 0.7 joint. */
  lemma InterpStopsShort(n: InterpNode, joint: Vector, rest: seq<NodeMessage>, output: seq<NodeMessage>)
    requires n.robot.Some? && n.interpFn == "lerp" && n.ninter > 0
    requires |n.robot.value.state.q| == |joint|
    ensures var r := InterpUpdate(n, [NodeMessage.Joint(joint)] + rest, output);
      r.Ok? && |r.value.2| == n.ninter &&
      r.value.2[0] == NodeMessage.Joint(Approach(n.robot.value.state.q, joint)) &&
      (n.robot.value.state.q != joint ==> NodeMessage.Joint(joint) !in r.value.2)
  {
    var q := n.robot.value.state.q;
    var start := Approach(q, joint);
    var out := InterpUpdate(n, [NodeMessage.Joint(joint)] + rest, output).value.2;
    assert ([NodeMessage.Joint(joint)] + rest)[0] == NodeMessage.Joint(joint);
    Interpolation.SegmentEnds(start, joint, n.ninter);
    ApproachFixed(q, joint);
    if q != joint {
      forall i | 0 <= i < |out|
        ensures out[i] != NodeMessage.Joint(joint)
      {
        assert out[i].joint == Interpolation.Segment(start, joint, n.ninter)[i];
      }
    }
  }

  /** The approach point is the joint only when the robot is already there. */
  lemma ApproachFixed(q: Vector, joint: Vector)
    requires |q| == |joint|
    ensures Approach(q, joint) == joint ==> q == joint
  {
    if Approach(q, joint) == joint {
      forall j | 0 <= j < |q|
        ensures q[j] == joint[j]
      {
        assert Approach(q, joint)[j] == 0.3 * q[j] + 0.7 * joint[j];
      }
    }
  }
}
