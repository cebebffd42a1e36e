/** The controller and planner threads of the older crates and the linear
    series planner of the newer ones.  Unlike the nodes they own no `is_end`
    switch: a controller always pushes onto its command queue, a planner
    always appends to its track queue.  The robot is read only, so it
    enters as its current joint vectors. */
module Controllers {
  import opened Wrappers
  import opened Linalg
  import opened Messages
  import opened ControlLaw
  import Interpolation
  import Nodes
  import Robots

  // ---- PID controller ----

  datatype PidController = PidController(gains: PidGains, mem: PidMemory)

  /** `from_params`: every state vector zero, of the robot's dof. */
  function PidFromParams(gains: PidGains, dof: nat): (c: PidController)
    ensures c.gains == gains && c.mem == PidZero(dof)
  {
    PidController(gains, PidZero(dof))
  }

  /** `update`: a Joint track is taken and answered with
      `JointWithPeriod(period, output)`; anything else, or nothing, returns
      before the state is touched (a popped non-Joint track is lost). */
  function PidControllerUpdate(c: PidController, q: Vector, tracks: seq<NodeMessage>, commands: seq<NodeMessage>): (r: Result<(PidController, seq<NodeMessage>, seq<NodeMessage>)>)
    ensures !(tracks != [] && tracks[0].Joint?) ==> r == Ok((c, Nodes.Pop(tracks).1, commands))
    ensures tracks != [] && tracks[0].Joint? ==>
      var step := PidStep(c.gains, c.mem.(track := tracks[0].joint), q);
      (r.Ok? <==> step.Ok?) && (r.Err? ==> r.error == step.error) &&
      (r.Ok? ==> r.value == (c.(mem := step.value.0), tracks[1..],
                             commands + [JointWithPeriod(c.gains.period, step.value.1)]))
  {
    match Nodes.Pop(tracks)
    case (Some(m), rest) =>
      if !m.Joint? then Ok((c, rest, commands))
      else
        var (mem', out) :- PidStep(c.gains, c.mem.(track := m.joint), q);
        Ok((c.(mem := mem'), rest, commands + [JointWithPeriod(c.gains.period, out)]))
    case (None, rest) => Ok((c, rest, commands))
  }

  /** Given the same Joint track, the PID controller and the PID node (with
      outputs to its queue) keep the same memory and emit the same vector,
      the controller tagged with its period and the node as a bare Joint. */
  lemma PidControllerMatchesNode(c: PidController, robot: Robots.SeriesRobot, track: Vector, rest: seq<NodeMessage>, out: seq<NodeMessage>)
    requires PidControllerUpdate(c, robot.state.q, [NodeMessage.Joint(track)] + rest, out).Ok?
    ensures var n := Nodes.PidNode(c.gains, c.mem, false, Some(robot));
      var input := [NodeMessage.Joint(track)] + rest;
      Nodes.PidUpdate(n, input, out).Ok? &&
      var (c', _, cmds) := PidControllerUpdate(c, robot.state.q, input, out).value;
      var (n', e) := Nodes.PidUpdate(n, input, out).value;
      n'.mem == c'.mem && |cmds| == |e.output| == |out| + 1 &&
      cmds[|out|] == JointWithPeriod(c.gains.period, e.output[|out|].joint)
  {
    var input := [NodeMessage.Joint(track)] + rest;
    assert input[0] == NodeMessage.Joint(track) && input[1..] == rest;
  }

  // ---- impedance controller ----

  datatype ImpedanceController = ImpedanceController(gains: ImpedanceGains, ref: Reference)

  /** `from_params`: the three references zero, of the robot's dof. */
  function ImpedanceFromParams(gains: ImpedanceGains, dof: nat): (c: ImpedanceController)
    ensures c.gains == gains && c.ref == ReferenceZero(dof)
  {
    ImpedanceController(gains, ReferenceZero(dof))
  }

  /** `update`: Joint, JointVel and JointVelAcc tracks update one, two or
      three references and are answered with `TauWithPeriod(period,
      output)`; anything else, or nothing, returns with no output. */
  function ImpedanceControllerUpdate(c: ImpedanceController, q: Vector, qDot: Vector, qDdot: Vector,
                                     tracks: seq<NodeMessage>, commands: seq<NodeMessage>)
    : (r: Result<(ImpedanceController, seq<NodeMessage>, seq<NodeMessage>)>)
    ensures (tracks == [] || TakeReference(c.ref, tracks[0]).None?) ==> r == Ok((c, Nodes.Pop(tracks).1, commands))
    ensures tracks != [] && TakeReference(c.ref, tracks[0]).Some? ==>
      var ref := TakeReference(c.ref, tracks[0]).value;
      var out := ImpedanceOutput(c.gains, ref, q, qDot, qDdot);
      (r.Ok? <==> out.Ok?) && (r.Err? ==> r.error == DimensionMismatch) &&
      (r.Ok? ==> r.value == (c.(ref := ref), tracks[1..], commands + [TauWithPeriod(c.gains.period, out.value)]))
  {
    match Nodes.Pop(tracks)
    case (Some(m), rest) =>
      (match TakeReference(c.ref, m)
       case None => Ok((c, rest, commands))
       case Some(ref) =>
         var out :- ImpedanceOutput(c.gains, ref, q, qDot, qDdot);
         Ok((c.(ref := ref), rest, commands + [TauWithPeriod(c.gains.period, out)])))
    case (None, rest) => Ok((c, rest, commands))
  }

  /** The impedance controller computes what the impedance node computes;
      only the tag differs: a torque with its period, not a joint. */
  lemma ImpedanceControllerMatchesNode(c: ImpedanceController, robot: Robots.SeriesRobot, tracks: seq<NodeMessage>, out: seq<NodeMessage>)
    requires ImpedanceControllerUpdate(c, robot.state.q, robot.state.qDot, robot.state.qDdot, tracks, out).Ok?
    requires tracks != [] && TakeReference(c.ref, tracks[0]).Some?
    ensures var n := Nodes.ImpedanceNode(c.gains, c.ref, false, Some(robot));
      Nodes.ImpedanceUpdate(n, tracks, out).Ok? &&
      var (c', _, cmds) := ImpedanceControllerUpdate(c, robot.state.q, robot.state.qDot, robot.state.qDdot, tracks, out).value;
      var (n', e) := Nodes.ImpedanceUpdate(n, tracks, out).value;
      n'.ref == c'.ref && |cmds| == |e.output| == |out| + 1 &&
      cmds[|out|] == TauWithPeriod(c.gains.period, e.output[|out|].joint)
  {
  }

  // ---- interp planner ----

  datatype InterpPlanner = InterpPlanner(interpFn: string, ninter: nat)

  const UnknownInterpFunction := "Unknown interp function."

  /** `update` of the interp planner: a Joint target is interpolated from
      the robot's position and every point appended to the track queue as
      a Joint; the function name is only looked at once such a target is
      popped, and an unknown one panics.  Other targets are lost. */
  function InterpPlannerUpdate(p: InterpPlanner, q: Vector, targets: seq<Target>, tracks: seq<NodeMessage>)
    : (r: Result<(seq<Target>, seq<NodeMessage>)>)
    ensures (targets == [] || !targets[0].Joint?) ==> r == Ok((if targets == [] then [] else targets[1..], tracks))
    ensures targets != [] && targets[0].Joint? && p.interpFn != "lerp" ==> r == Err(UnknownInterpFunction)
    ensures targets != [] && targets[0].Joint? && p.interpFn == "lerp" ==>
      (r.Ok? <==> p.ninter == 0 || |targets[0].joint| == |q|) &&
      (r.Err? ==> r.error == DimensionMismatch) &&
      (r.Ok? && p.ninter > 0 ==>
        r.value == (targets[1..], tracks + Nodes.AsJoints(Interpolation.Segment(q, targets[0].joint, p.ninter))))
      && (r.Ok? && p.ninter == 0 ==> r.value == (targets[1..], tracks))
  {
    if targets == [] then Ok(([], tracks))
    else match targets[0]
      case Joint(joint) =>
        if p.interpFn != "lerp" then Err(UnknownInterpFunction)
        else if p.ninter == 0 then Ok((targets[1..], tracks))
        else if |joint| != |q| then Err(DimensionMismatch)
        else
          assert Interpolation.SameLength(q, [joint]);
          var points := Interpolation.Lerp(q, [joint], p.ninter);
          assert points == Interpolation.Segment(q, joint, p.ninter) by {
            assert [joint][1..] == [];
            assert Interpolation.Lerp(joint, [], p.ninter) == [];
            assert Interpolation.Segment(q, joint, p.ninter) + [] == Interpolation.Segment(q, joint, p.ninter);
          }
          Ok((targets[1..], tracks + Nodes.AsJoints(points)))
      case _ => Ok((targets[1..], tracks))
  }

  /** The planner appends: the old track is kept in front, `ninter` new
      points follow, the first of them the robot's position and none of
      them the target unless the robot is already there. */
  lemma InterpPlannerAppends(p: InterpPlanner, q: Vector, joint: Vector, rest: seq<Target>, tracks: seq<NodeMessage>)
    requires p.interpFn == "lerp" && p.ninter > 0 && |joint| == |q|
    ensures var r := InterpPlannerUpdate(p, q, [Target.Joint(joint)] + rest, tracks);
      r.Ok? && r.value.0 == rest &&
      |r.value.1| == |tracks| + p.ninter && r.value.1[..|tracks|] == tracks &&
      r.value.1[|tracks|] == NodeMessage.Joint(q) &&
      (q != joint ==> forall i :: |tracks| <= i < |r.value.1| ==> r.value.1[i] != NodeMessage.Joint(joint))
  {
    var targets := [Target.Joint(joint)] + rest;
    assert targets[0] == Target.Joint(joint) && targets[1..] == rest;
    Interpolation.SegmentEnds(q, joint, p.ninter);
    var out := InterpPlannerUpdate(p, q, targets, tracks).value.1;
    var seg := Interpolation.Segment(q, joint, p.ninter);
    assert out == tracks + Nodes.AsJoints(seg);
    forall i | |tracks| <= i < |out|
      ensures out[i] == NodeMessage.Joint(seg[i - |tracks|])
    {
    }
  }

  // ---- linear series planner ----

  datatype LinearSeries = LinearSeries(period: real, interpolation: int)

  const PoseUnsupported := "not implemented: Linear planner does not support Pose target."
  const EndSpaceUnmatched := "EndSpace target has no arm in the linear planner's match"

  /** Each point of a track as a joint track entry, in order. */
  function SeriesJoints(points: seq<Vector>): (r: seq<SeriesTrack>)
    ensures |r| == |points| && forall i :: 0 <= i < |points| ==> r[i] == SeriesTrack.Joint(points[i])
  {
    seq(|points|, i requires 0 <= i < |points| => SeriesTrack.Joint(points[i]))
  }

  /** `update` of the linear series planner: a joint target (which must
      have the robot's dimension for `from_vec`) is interpolated with the
      `i32` count and pushed point by point; a Pose target panics as
      unimplemented; an empty queue returns. */
  function LinearSeriesUpdate(p: LinearSeries, q: Vector, targets: seq<SeriesTarget>, tracks: seq<SeriesTrack>)
    : (r: Result<(seq<SeriesTarget>, seq<SeriesTrack>)>)
    ensures targets == [] ==> r == Ok(([], tracks))
    ensures targets != [] && targets[0].Pose? ==> r == Err(PoseUnsupported)
    ensures targets != [] && targets[0].EndSpace? ==> r == Err(EndSpaceUnmatched)
    ensures targets != [] && targets[0].Joint? ==>
      (r.Ok? <==> |targets[0].joint| == |q|) &&
      (r.Err? ==> r.error == DimensionMismatch) &&
      (r.Ok? ==> r.value == (targets[1..], tracks + SeriesJoints(Interpolation.Segment(q, targets[0].joint, p.interpolation))))
  {
    if targets == [] then Ok(([], tracks))
    else match targets[0]
      case Joint(joint) =>
        if |joint| != |q| then Err(DimensionMismatch)
        else Ok((targets[1..], tracks + SeriesJoints(Interpolation.Segment(q, joint, p.interpolation))))
      case Pose(_) => Err(PoseUnsupported)
      case EndSpace(_, _) => Err(EndSpaceUnmatched)
  }

  /** A joint target adds max(interpolation, 0) entries after the old
      track, starting at the robot's position and stopping short of the
      target. */
  lemma LinearSeriesPushes(p: LinearSeries, q: Vector, joint: Vector, rest: seq<SeriesTarget>, tracks: seq<SeriesTrack>)
    requires |joint| == |q|
    ensures var r := LinearSeriesUpdate(p, q, [SeriesTarget.Joint(joint)] + rest, tracks);
      r.Ok? && r.value.0 == rest && r.value.1[..|tracks|] == tracks &&
      |r.value.1| == |tracks| + (if p.interpolation <= 0 then 0 else p.interpolation) &&
      (p.interpolation > 0 ==> r.value.1[|tracks|] == SeriesTrack.Joint(q)) &&
      (p.interpolation > 0 && q != joint ==> SeriesTrack.Joint(joint) !in r.value.1[|tracks|..])
  {
    var targets := [SeriesTarget.Joint(joint)] + rest;
    assert targets[0] == SeriesTarget.Joint(joint) && targets[1..] == rest;
    if p.interpolation > 0 {
      Interpolation.SegmentEnds(q, joint, p.interpolation);
      var out := LinearSeriesUpdate(p, q, targets, tracks).value.1;
      var seg := Interpolation.Segment(q, joint, p.interpolation);
      assert out[|tracks|..] == SeriesJoints(seg);
    }
  }
}
