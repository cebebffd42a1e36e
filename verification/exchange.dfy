/** The two ends of the simulator socket put together: what the Python
    script sends against what the Rust `bullet` node parses, and what the
    node replies against what the script decodes.
 */
module Exchange {
  import opened Wrappers
  import opened Json
  import opened Messages
  import opened Py
  import PyRobot
  import PySim
  import Bullet
  import Robots

  /** A JointVel state written with plain lists is not a DVector pair. */
  lemma FlatStateRefused(ps: Vector, vs: Vector)
    ensures DecodeRobotState(RobotStateWire(RobotState.JointVel(ps, vs), Flat), Dyn).Err?
  {
    FlatIsNotDyn(ps);
    var c := Arr([EncodeVector(ps, Flat), EncodeVector(vs, Flat)]);
    assert Variant(RobotStateWire(RobotState.JointVel(ps, vs), Flat)) == Ok(("JointVel", c));
    assert Vectors(c, 2, Dyn).Err?;
  }

  /** The state list as the script writes it, `json.dumps` of one
      `get_state` per robot. */
  function Sent(e: PyRobot.Engine, robots: seq<PyRobot.Robot>, l: VecLayout, t: NumberText): string
    requires !l.Fixed?
  {
    Dump(Arr(PySim.States(e, robots, l).1), t, Spaced)
  }

  /** As written, the node cannot parse what the script sends: with any robot
      loaded, the `unwrap` on the parsed state list panics, whatever robots
      the node holds. */
  lemma FlatStatesPanic(b: Bullet.BulletNode, e: PyRobot.Engine, robots: seq<PyRobot.Robot>, t: NumberText)
    requires SoundOn(t, Numbers(Arr(PySim.States(e, robots, Flat).1))) && |robots| > 0
    ensures Bullet.NodeUpdate(b, Sent(e, robots, Flat, t), t).Err?
  {
    var states := PySim.States(e, robots, Flat).1;
    LoadDump(Arr(states), t, Spaced);
    var read := PyRobot.ReadJoints(e, robots[0].joints);
    FlatStateRefused(read.1, read.2);
    assert DecodeRobotState(states[0], Dyn).Err?;
  }

  /** Each state the script sends in the DVector layout reads back as the
      robot's positions and velocities. */
  lemma DynStatesDecode(e: PyRobot.Engine, robots: seq<PyRobot.Robot>, t: NumberText)
    requires SoundOn(t, Numbers(Arr(PySim.States(e, robots, Dyn).1)))
    ensures var parsed := Bullet.ParseStates(Sent(e, robots, Dyn, t), t);
      parsed.Ok? && |parsed.value| == |robots| &&
      forall k :: 0 <= k < |robots| ==>
        parsed.value[k] == RobotState.JointVel(PyRobot.ReadJoints(e, robots[k].joints).1,
                                               PyRobot.ReadJoints(e, robots[k].joints).2)
  {
    var states := PySim.States(e, robots, Dyn).1;
    LoadDump(Arr(states), t, Spaced);
    var expected := seq(|robots|, k requires 0 <= k < |robots| =>
      RobotState.JointVel(PyRobot.ReadJoints(e, robots[k].joints).1, PyRobot.ReadJoints(e, robots[k].joints).2));
    StatesDecode(e, robots, expected);
    ItemsDecode(states, expected, Dyn);
    assert Bullet.ParseStates(Sent(e, robots, Dyn, t), t) == DecodeRobotStates(Arr(states), Dyn);
  }

  /** Item by item, the DVector states decode to positions and velocities. */
  lemma StatesDecode(e: PyRobot.Engine, robots: seq<PyRobot.Robot>, expected: seq<RobotState>)
    requires |expected| == |robots|
    requires forall k :: 0 <= k < |robots| ==>
      expected[k] == RobotState.JointVel(PyRobot.ReadJoints(e, robots[k].joints).1,
                                         PyRobot.ReadJoints(e, robots[k].joints).2)
    ensures var states := PySim.States(e, robots, Dyn).1;
      |states| == |robots| &&
      forall k :: 0 <= k < |robots| ==> DecodeRobotState(states[k], Dyn) == Ok(expected[k])
  {
    var states := PySim.States(e, robots, Dyn).1;
    forall k | 0 <= k < |robots|
      ensures DecodeRobotState(states[k], Dyn) == Ok(expected[k])
    {
      var read := PyRobot.ReadJoints(e, robots[k].joints);
      RobotStateRoundTrip(RobotState.JointVel(read.1, read.2), Dyn);
    }
  }

  /** A list whose every item decodes decodes to the list of the results. */
  lemma ItemsDecode(items: seq<Value>, ss: seq<RobotState>, l: VecLayout)
    requires |ss| == |items| && forall i :: 0 <= i < |items| ==> DecodeRobotState(items[i], l) == Ok(ss[i])
    ensures DecodeRobotStateItems(items, l) == Ok(ss)
  {
    var r := DecodeRobotStateItems(items, l);
    assert r.Ok?;
    assert r.value == ss;
  }

  /** With the DVector layout the node accepts the message, and robot k on the
      Rust side takes the positions and velocities of robot k on the Python
      side; nothing else about it changes, and robots beyond the shorter list
      are left alone. */
  lemma DynStatesApply(b: Bullet.BulletNode, e: PyRobot.Engine, robots: seq<PyRobot.Robot>, t: NumberText)
    requires SoundOn(t, Numbers(Arr(PySim.States(e, robots, Dyn).1)))
    ensures var r := Bullet.NodeUpdate(b, Sent(e, robots, Dyn, t), t);
      r.Ok? && |r.value.0.robots| == |b.robots| &&
      (forall k :: 0 <= k < |b.robots| && k < |robots| ==>
        var read := PyRobot.ReadJoints(e, robots[k].joints);
        r.value.0.robots[k].state.q == read.1 && r.value.0.robots[k].state.qDot == read.2 &&
        r.value.0.robots[k].state.qDdot == b.robots[k].state.qDdot &&
        r.value.0.robots[k].state.control == b.robots[k].state.control) &&
      (forall k :: |robots| <= k < |b.robots| ==> r.value.0.robots[k] == b.robots[k])
  {
    DynStatesDecode(e, robots, t);
    var parsed := Bullet.ParseStates(Sent(e, robots, Dyn, t), t).value;
    ReadingsApplied(b.robots, parsed, e, robots);
    assert Bullet.NodeUpdate(b, Sent(e, robots, Dyn, t), t).value.0.robots == Bullet.ApplyStates(b.robots, parsed);
  }

  /** Applying one JointVel reading per Python robot writes robot k's
      positions and velocities into Rust robot k and nothing else. */
  lemma ReadingsApplied(rust: seq<Robots.SeriesRobot>, parsed: seq<RobotState>,
                        e: PyRobot.Engine, robots: seq<PyRobot.Robot>)
    requires |parsed| == |robots|
    requires forall k :: 0 <= k < |robots| ==>
      parsed[k] == RobotState.JointVel(PyRobot.ReadJoints(e, robots[k].joints).1,
                                       PyRobot.ReadJoints(e, robots[k].joints).2)
    ensures var rs := Bullet.ApplyStates(rust, parsed);
      |rs| == |rust| &&
      (forall k :: 0 <= k < |rust| && k < |robots| ==>
        var read := PyRobot.ReadJoints(e, robots[k].joints);
        rs[k].state.q == read.1 && rs[k].state.qDot == read.2 &&
        rs[k].state.qDdot == rust[k].state.qDdot && rs[k].state.control == rust[k].state.control) &&
      (forall k :: |robots| <= k < |rust| ==> rs[k] == rust[k])
  {
    var rs := Bullet.ApplyStates(rust, parsed);
    forall k | 0 <= k < |rust| && k < |robots|
      ensures var read := PyRobot.ReadJoints(e, robots[k].joints);
        rs[k].state.q == read.1 && rs[k].state.qDot == read.2 &&
        rs[k].state.qDdot == rust[k].state.qDdot && rs[k].state.control == rust[k].state.control
    {
      assert rs[k] == Bullet.ApplyState(rust[k], parsed[k]);
    }
  }

  /** The corrected script decodes the node's reply twice and draws from it
      exactly the list of every Rust robot's control message, in order. */
  lemma ReplyDecodedTwice(b: Bullet.BulletNode, message: string, t: NumberText)
    requires SoundOn(t, Numbers(Arr(Bullet.EncodeNodeMessages(Bullet.Controls(b.robots), Dyn))))
    requires Bullet.NodeUpdate(b, message, t).Ok?
    ensures var reply := Bullet.NodeUpdate(b, message, t).value.1;
      var cmds := Bullet.EncodeNodeMessages(Bullet.Controls(b.robots), Dyn);
      PySim.ReceiveAndLoad(reply, t) == Ok(Arr(cmds)) && Iterate(Arr(cmds)) == Ok(cmds)
  {
    Bullet.NodeReplyDecodesTwice(b, message, t);
  }

  /** Decoding the reply once gives a string; iterating it gives one-character
      strings, and `execute_command` on a character does nothing: a script
      that decodes once never moves a robot. */
  lemma ReplyDecodedOnce(b: Bullet.BulletNode, message: string, t: NumberText,
                         e: PyRobot.Engine, robots: seq<PyRobot.Robot>)
    requires SoundOn(t, Numbers(Arr(Bullet.EncodeNodeMessages(Bullet.Controls(b.robots), Dyn))))
    requires Bullet.NodeUpdate(b, message, t).Ok?
    ensures var once := Load(Bullet.NodeUpdate(b, message, t).value.1, t);
      once.Ok? && once.value.Str? && Iterate(once.value).Ok? &&
      forall k :: 0 <= k < |robots| && k < |Iterate(once.value).value| ==>
        PyRobot.ExecuteCommand(e, robots[k], Iterate(once.value).value[k]) == Ok((e, robots[k]))
  {
    Bullet.NodeReplyDecodesTwice(b, message, t);
    var once := Load(Bullet.NodeUpdate(b, message, t).value.1, t).value;
    forall k | 0 <= k < |robots| && k < |once.s|
      ensures PyRobot.ExecuteCommand(e, robots[k], Str([once.s[k]])) == Ok((e, robots[k]))
    {
      PyRobot.ExecuteCharacter(e, robots[k], once.s[k]);
    }
  }

  /** Every command the corrected script draws from the reply is carried out
      as intended: robot k's joints are driven with the vector of the Rust
      robot k's control message, or left alone when that message does not
      act. */
  lemma CommandsReachRobots(b: Bullet.BulletNode, e: PyRobot.Engine, r: PyRobot.Robot, k: nat)
    requires k < |b.robots|
    ensures var m := b.robots[k].state.control;
      var cmd := Bullet.EncodeNodeMessages(Bullet.Controls(b.robots), Dyn)[k];
      (PyRobot.Acts(m) ==> (PyRobot.ExecuteCommandIntended(e, r, cmd) ==
        PyRobot.SetJoints(e, r, Arr(NumsOf(PyRobot.Carried(m).0)), PyRobot.Carried(m).1))) &&
      (!PyRobot.Acts(m) ==> PyRobot.ExecuteCommandIntended(e, r, cmd) == Ok((e, r)))
  {
    var m := b.robots[k].state.control;
    if PyRobot.Acts(m) {
      PyRobot.ExecuteIntended(e, r, m);
    } else {
      PyRobot.ExecuteIgnores(e, r, m);
    }
  }
}
