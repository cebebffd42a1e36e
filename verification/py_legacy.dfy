/** The older pybullet script (crates/simulator/scripts): a single Panda,
    a flat state array, a `(period, velocities)` reply and a step count
    derived from the period.

    The engine is the one of `PyRobot`.  Console output (the joint table,
    the state banner) is not modelled.
 */
module PyLegacy {
  import opened Wrappers
  import opened Json
  import opened Py
  import opened PyRobot
  import Messages
  import Bullet

  // ---------------------------------------------------------------------
  // Imports
  // ---------------------------------------------------------------------

  /** `from robot import a, b`: every name must be defined by the module,
      else ImportError naming the first one missing. */
  function ImportFrom(defined: set<string>, wanted: seq<string>): (r: Result<()>)
    ensures r.Ok? <==> forall k :: 0 <= k < |wanted| ==> wanted[k] in defined
    ensures r.Err? ==> Raises(r, "ImportError")
  {
    if |wanted| == 0 then Ok(())
    else if wanted[0] !in defined then Raise("ImportError", "cannot import name '" + wanted[0] + "' from 'robot'")
    else ImportFrom(defined, wanted[1..])
  }

  /** The top-level names robot.py defines: the initialiser is spelt
      `pubullet_init`. */
  const RobotModuleAsWritten: set<string> := {"pubullet_init", "Joint", "Panda"}

  /** The same module with the initialiser spelt as its callers spell it. */
  const RobotModule: set<string> := {"pybullet_init", "Joint", "Panda"}

  /** What main.py imports from robot.py. */
  const MainImports: seq<string> := ["pybullet_init", "Panda"]

  // ---------------------------------------------------------------------
  // Panda
  // ---------------------------------------------------------------------

  const LegacyDof: nat := 7

  /** `reset_joint_state` resets every joint to position 0. */
  const LegacyZeros: seq<real> := [0.0, 0.0, 0.0, 0.0, 0.0, 0.0, 0.0]

  /** The legacy `Panda`: its base position as passed, its body id and its
      seven joints. */
  datatype LegacyPanda = LegacyPanda(basePosition: Value, id: nat, joints: seq<Joint>)

  /** `Panda.__init__` followed by `reset_panda_state`: load the URDF with a
      fixed base, attach joints 0..6 in index order, reset each to 0. */
  function NewLegacyPanda(e: Engine, basePosition: Value): (out: (Engine, LegacyPanda))
    ensures out.1.id == |e.bodies| && out.1.basePosition == basePosition
    ensures out.0.bodies == e.bodies + [Body(PandaUrdf, true, basePosition)]
    ensures out.0.motors == e.motors && out.0.steps == e.steps
    ensures |out.1.joints| == LegacyDof
    ensures forall i :: 0 <= i < LegacyDof ==>
      out.1.joints[i].body == |e.bodies| && out.1.joints[i].index == i &&
      out.1.joints[i].position == 0.0 && out.1.joints[i].velocity == 0.0
  {
    var loaded := LoadUrdf(e, PandaUrdf, true, basePosition);
    var js := PandaJoints(loaded.0, loaded.1, LegacyDof);
    var z := ResetZip(loaded.0, js, LegacyZeros);
    assert Min(|js|, |LegacyZeros|) == LegacyDof;
    (z.0, LegacyPanda(basePosition, loaded.1, z.1))
  }

  /** After construction every Panda joint rests at 0 in the engine. */
  lemma LegacyPandaAtZero(e: Engine, basePosition: Value)
    ensures forall i :: 0 <= i < LegacyDof ==>
      JointState(NewLegacyPanda(e, basePosition).0, |e.bodies|, i) == (0.0, 0.0)
  {
    var loaded := LoadUrdf(e, PandaUrdf, true, basePosition);
    var js := PandaJoints(loaded.0, loaded.1, LegacyDof);
    assert DistinctJoints(js);
    ResetZipEngine(loaded.0, js, LegacyZeros);
  }

  /** `get_joints_state`: positions and velocities in joint order. */
  function GetJointsState(e: Engine, p: LegacyPanda): (r: (LegacyPanda, seq<real>, seq<real>))
    ensures |r.1| == |p.joints| && |r.2| == |p.joints| && |r.0.joints| == |p.joints|
    ensures forall k :: 0 <= k < |p.joints| ==>
      (r.1[k], r.2[k]) == JointState(e, p.joints[k].body, p.joints[k].index) && Synced(e, r.0.joints[k])
    ensures r.0.id == p.id && r.0.basePosition == p.basePosition
  {
    var read := ReadJoints(e, p.joints);
    (p.(joints := read.0), read.1, read.2)
  }

  /** `velocities[i]` exists and pybullet takes it as a velocity. */
  predicate Drivable(vs: Value, i: nat) {
    Index(vs, i).Ok? && AsFloat(Index(vs, i).value).Ok?
  }

  /** `self.control_joint[i].set_velocity(velocities[i])` for the joints
      from position `from` on: a missing value raises IndexError, a value
      pybullet refuses raises TypeError. */
  function DriveJoints(e: Engine, joints: seq<Joint>, vs: Value, from: nat): (r: Result<(Engine, seq<Joint>)>)
    ensures r.Ok? <==> forall i :: from <= i < from + |joints| ==> Drivable(vs, i)
    ensures r.Ok? ==> |r.value.1| == |joints| && OnlyMotors(e, r.value.0)
    decreases |joints|
  {
    if |joints| == 0 then Ok((e, joints))
    else
      assert Drivable(vs, from) <==> Index(vs, from).Ok? && AsFloat(Index(vs, from).value).Ok?;
      var v :- Index(vs, from);
      var first :- JointSet(e, joints[0], VelocityMode, v);
      var rest :- DriveJoints(first.0, joints[1..], vs, from + 1);
      Ok((rest.0, [first.1] + rest.1))
  }

  /** `set_joints_velocity`: joints 0..6 take `velocities[0..6]`. */
  function SetJointsVelocity(e: Engine, p: LegacyPanda, velocities: Value): (r: Result<(Engine, LegacyPanda)>)
    ensures r.Ok? ==> r.value.1 == p.(joints := r.value.1.joints) && OnlyMotors(e, r.value.0)
  {
    var d :- DriveJoints(e, p.joints, velocities, 0);
    Ok((d.0, p.(joints := d.1)))
  }

  /** On a list, the joints are driven exactly as a `zip` with the values
      from `from` on would drive them, at force 500. */
  lemma {:induction false} DriveIsZip(e: Engine, joints: seq<Joint>, items: seq<Value>, from: nat)
    requires from <= |items| && DriveJoints(e, joints, Arr(items), from).Ok?
    ensures from + |joints| <= |items|
    ensures DriveJoints(e, joints, Arr(items), from) == ApplyZip(e, joints, items[from..from + |joints|], VelocityMode)
    decreases |joints|
  {
    if |joints| > 0 {
      assert Drivable(Arr(items), from) && Drivable(Arr(items), from + |joints| - 1);
      var first := JointSet(e, joints[0], VelocityMode, items[from]).value;
      DriveIsZip(first.0, joints[1..], items, from + 1);
      var zipped := items[from..from + |joints|];
      assert zipped[0] == items[from] && zipped[1..] == items[from + 1..from + 1 + |joints[1..]|];
    }
  }

  /** Seven or more numbers drive the seven joints in order; extras are
      ignored. */
  lemma ExtraVelocitiesIgnored(e: Engine, p: LegacyPanda, items: seq<Value>)
    requires |p.joints| == LegacyDof && |items| >= LegacyDof
    requires forall k :: 0 <= k < |items| ==> items[k].Num?
    ensures SetJointsVelocity(e, p, Arr(items)).Ok?
    ensures SetJointsVelocity(e, p, Arr(items)) ==
      SetJointsVelocity(e, p, Arr(items[..LegacyDof]))
  {
    var d := DriveJoints(e, p.joints, Arr(items), 0);
    assert d.Ok?;
    DriveIsZip(e, p.joints, items, 0);
    var d' := DriveJoints(e, p.joints, Arr(items[..LegacyDof]), 0);
    assert d'.Ok?;
    DriveIsZip(e, p.joints, items[..LegacyDof], 0);
    assert items[0..LegacyDof] == items[..LegacyDof][0..LegacyDof];
  }

  /** Fewer than seven numbers raise IndexError. */
  lemma FewVelocitiesRaise(e: Engine, p: LegacyPanda, items: seq<Value>)
    requires |p.joints| == LegacyDof && |items| < LegacyDof
    requires forall k :: 0 <= k < |items| ==> items[k].Num?
    ensures Raises(SetJointsVelocity(e, p, Arr(items)), "IndexError")
  {
    FewValuesRaise(e, p.joints, items, 0);
  }

  lemma {:induction false} FewValuesRaise(e: Engine, joints: seq<Joint>, items: seq<Value>, from: nat)
    requires from <= |items| < from + |joints|
    requires forall k :: from <= k < |items| ==> items[k].Num?
    ensures Raises(DriveJoints(e, joints, Arr(items), from), "IndexError")
    decreases |joints|
  {
    if from < |items| {
      var first := JointSet(e, joints[0], VelocityMode, items[from]).value;
      FewValuesRaise(first.0, joints[1..], items, from + 1);
    }
  }

  // ---------------------------------------------------------------------
  // Step count
  // ---------------------------------------------------------------------

  /** Python's `int(x)` on a float: truncation toward zero. */
  function Trunc(x: real): (n: int)
    ensures 0.0 <= x ==> n as real <= x < n as real + 1.0
    ensures x < 0.0 ==> n as real - 1.0 < x <= n as real
  {
    if x >= 0.0 then x.Floor else -((-x).Floor)
  }

  /** `range(int(period * 240))`, as a number of steps.  A negative count
      is an empty range; `True * 240` is 240.  A string period is repeated
      240 times and `int` reads the copies as one literal; a list period is
      repeated into a list, which `int` refuses; None and dicts do not
      multiply. */
  function StepCount(period: Value): (r: Result<nat>)
    ensures period.Num? || period.Bool? ==> r.Ok?
    ensures r.Ok? ==> period.Num? || period.Bool? || period.Str?
    ensures period.Bool? ==> r == Ok(if period.b then 240 else 0)
    ensures r.Err? ==> Raises(r, "ValueError") || Raises(r, "TypeError")
  {
    match period
    case Num(x) => var n := Trunc(x * 240.0); Ok(if n < 0 then 0 else n)
    case Bool(b) => Ok(if b then 240 else 0)
    case Str(s) =>
      var n := IntOfString(Repeat(s, 240));
      if n.Err? then Err(n.error) else Ok(if n.value < 0 then 0 else n.value)
    case Arr(_) => Raise("TypeError", "int() argument must be a string, a bytes-like object or a real number, not 'list'")
    case _ => Raise("TypeError", "unsupported operand type(s) for *")
  }

  /** A period written as a string of digits steps as often as the 240
      copies of it spell. */
  lemma DigitStringSteps(s: string)
    requires |s| > 0 && forall i :: 0 <= i < |s| ==> IsDigit(s[i])
    ensures StepCount(Str(s)) == Ok(DigitsValue(Repeat(s, 240)))
  {
    RepeatDigits(s, 240);
    IntOfDigits(Repeat(s, 240));
  }

  /** The period "0" runs the loop with no step at all. */
  lemma ZeroStringNoSteps()
    ensures StepCount(Str("0")) == Ok(0)
  {
    var r := Repeat("0", 240);
    DigitStringSteps("0");
    forall i | 0 <= i < |r|
      ensures r[i] == '0'
    {
      assert r[i] in "0";
    }
    ZerosValue(r);
  }

  /** A string period holding anything but digits, underscores, signs and
      blanks (a decimal point, a letter) raises ValueError, and so does the
      empty string. */
  lemma StrayStringRaises(s: string)
    requires s == [] || exists i :: 0 <= i < |s| && !IsDigit(s[i]) && s[i] != '_' && !IsSign(s[i]) && !IsBlank(s[i])
    ensures Raises(StepCount(Str(s)), "ValueError")
  {
    if s != [] {
      var i :| 0 <= i < |s| && !IsDigit(s[i]) && s[i] != '_' && !IsSign(s[i]) && !IsBlank(s[i]);
      IntRefusesStray(Repeat(s, 240), i);
    }
  }

  /** A period steps the simulation floor(240·period) times when it is
      non-negative: truncated, not rounded; and no step at all below 1/240,
      including every period that is zero or negative. */
  lemma StepsFromPeriod(x: real)
    ensures StepCount(Num(x)).Ok?
    ensures StepCount(Num(x)).value == 0 <==> x < 1.0 / 240.0
    ensures x >= 0.0 ==> StepCount(Num(x)).value as real <= x * 240.0 < StepCount(Num(x)).value as real + 1.0
  {
  }

  /** Where rounding would step twice, the script steps once. */
  lemma TruncatesNotRounds()
    ensures StepCount(Num(1.5 / 240.0)) == Ok(1)
  {
    assert (1.5 / 240.0) * 240.0 == 1.5;
  }

  /** `for i in range(n): p.stepSimulation()`. */
  function StepN(e: Engine, n: nat): (e': Engine)
    ensures e' == e.(steps := e.steps + n)
    decreases n
  {
    if n == 0 then e else StepN(StepSimulation(e), n - 1)
  }

  // ---------------------------------------------------------------------
  // One cycle
  // ---------------------------------------------------------------------

  /** `json.dumps(joint_positions + joint_velocities)`: one flat list. */
  function FlatState(positions: seq<real>, velocities: seq<real>, t: NumberText): string {
    Dump(Arr(Messages.NumsOf(positions + velocities)), t, Spaced)
  }

  /** `period, velocities = cmd`: exactly two items are drawn from the
      reply, otherwise ValueError (or TypeError for what cannot be
      iterated). */
  function Unpack2(v: Value): (r: Result<(Value, Value)>)
    ensures r.Ok? <==> Iterate(v).Ok? && |Iterate(v).value| == 2
    ensures r.Ok? ==> r.value == (Iterate(v).value[0], Iterate(v).value[1])
    ensures Iterate(v).Ok? && |Iterate(v).value| != 2 ==> Raises(r, "ValueError")
  {
    var items :- Iterate(v);
    if |items| < 2 then Raise("ValueError", "not enough values to unpack (expected 2)")
    else if |items| > 2 then Raise("ValueError", "too many values to unpack (expected 2)")
    else Ok((items[0], items[1]))
  }

  /** `receive_command` (json.loads of the reply) and the two-way unpack. */
  function Decode(reply: string, t: NumberText): (r: Result<(Value, Value)>)
    ensures r.Ok? ==> Load(reply, t).Ok? && Unpack2(Load(reply, t).value) == r
  {
    var cmd :- Load(reply, t);
    Unpack2(cmd)
  }

  /** The effect of one decoded reply. */
  datatype Step = Step(engine: Engine, panda: LegacyPanda, steps: nat)

  /** Drive the joints with the velocities, then step int(240·period) times. */
  function Act(e: Engine, p: LegacyPanda, period: Value, velocities: Value): (r: Result<Step>)
    ensures r.Ok? ==> r.value.engine.steps == e.steps + r.value.steps
    ensures r.Ok? ==> r.value.engine.bodies == e.bodies && r.value.engine.states == e.states
    ensures r.Ok? ==> Ok(r.value.steps) == StepCount(period)
  {
    var driven :- SetJointsVelocity(e, p, velocities);
    var n :- StepCount(period);
    Ok(Step(StepN(driven.0, n), driven.1, n))
  }

  /** What one pass of the `while` loop does after its send. */
  function Respond(e: Engine, p: LegacyPanda, reply: string, t: NumberText): (r: Result<Step>)
    ensures Decode(reply, t).Err? ==> r.Err?
    ensures Decode(reply, t).Ok? ==> r == Act(e, p, Decode(reply, t).value.0, Decode(reply, t).value.1)
    ensures r.Ok? ==> r.value.engine.steps == e.steps + r.value.steps
    ensures r.Ok? ==> r.value.engine.bodies == e.bodies && r.value.engine.states == e.states
  {
    var pair :- Decode(reply, t);
    Act(e, p, pair.0, pair.1)
  }

  /** Seven or more numbers drive the seven joints at force 500 with the
      first seven values, in order. */
  lemma DriveSeven(e: Engine, p: LegacyPanda, vs: seq<real>)
    requires |p.joints| == LegacyDof && |vs| >= LegacyDof
    ensures var r := SetJointsVelocity(e, p, Arr(Messages.NumsOf(vs)));
      r.Ok? && |r.value.0.motors| == |e.motors| + LegacyDof &&
      r.value.0.motors[..|e.motors|] == e.motors &&
      forall k :: 0 <= k < LegacyDof ==>
        r.value.0.motors[|e.motors| + k] == VelocityControl(p.joints[k].body, p.joints[k].index, vs[k], 500.0)
  {
    var items := Messages.NumsOf(vs);
    ExtraVelocitiesIgnored(e, p, items);
    DriveIsZip(e, p.joints, items, 0);
    ApplyZipMotors(e, p.joints, items[0..LegacyDof], VelocityMode);
    assert Min(|p.joints|, |items[0..LegacyDof]|) == LegacyDof;
  }

  /** A well-formed reply, a list `[period, velocities]` with seven numbers
      or more, drives the seven joints at force 500 with the first seven
      velocities, in order, and then steps int(240·period) times. */
  lemma RespondWellFormed(e: Engine, p: LegacyPanda, reply: string, t: NumberText,
                          period: real, vs: seq<real>)
    requires |p.joints| == LegacyDof && |vs| >= LegacyDof
    ensures Load(reply, t) == Ok(Arr([Num(period), Arr(Messages.NumsOf(vs))])) ==>
      var r := Respond(e, p, reply, t);
      r.Ok? && r.value.steps == StepCount(Num(period)).value &&
      |r.value.engine.motors| == |e.motors| + LegacyDof &&
      r.value.engine.motors[..|e.motors|] == e.motors &&
      forall k :: 0 <= k < LegacyDof ==>
        r.value.engine.motors[|e.motors| + k] == VelocityControl(p.joints[k].body, p.joints[k].index, vs[k], 500.0)
  {
    if Load(reply, t) == Ok(Arr([Num(period), Arr(Messages.NumsOf(vs))])) {
      assert Decode(reply, t) == Ok((Num(period), Arr(Messages.NumsOf(vs))));
      DriveSeven(e, p, vs);
      StepsFromPeriod(period);
    }
  }

  // ---------------------------------------------------------------------
  // The loop and the script
  // ---------------------------------------------------------------------

  datatype LegacyEvent = Sent(message: string) | Stepped

  /** How the script stops: there is no `try`, so every ending is an
      uncaught exception. */
  datatype Ending = Interrupted | Raised(error: string)

  datatype LegacyRun = LegacyRun(events: seq<LegacyEvent>, engine: Engine, panda: LegacyPanda, ending: Ending)

  function Steps(n: nat): (es: seq<LegacyEvent>)
    ensures |es| == n && forall k :: 0 <= k < n ==> es[k] == Stepped
  {
    seq(n, _ => Stepped)
  }

  /** The state message of one pass. */
  function SentState(e: Engine, p: LegacyPanda, t: NumberText): (LegacyPanda, LegacyEvent) {
    var s := GetJointsState(e, p);
    (s.0, Sent(FlatState(s.1, s.2, t)))
  }

  /** `while True`: send the flat state, receive, drive, step.  The
      interrupt arrives when the replies run out. */
  function Loop(e: Engine, p: LegacyPanda, replies: seq<string>, t: NumberText): (run: LegacyRun)
    ensures |replies| == 0 ==> run == LegacyRun([], e, p, Interrupted)
    decreases |replies|
  {
    if |replies| == 0 then LegacyRun([], e, p, Interrupted)
    else
      var s := SentState(e, p, t);
      match Respond(e, s.0, replies[0], t)
      case Err(err) => LegacyRun([s.1], e, s.0, Raised(err))
      case Ok(step) =>
        var rest := Loop(step.engine, step.panda, replies[1..], t);
        rest.(events := [s.1] + Steps(step.steps) + rest.events)
  }

  function CountStepped(es: seq<LegacyEvent>): nat {
    if |es| == 0 then 0 else (if es[0] == Stepped then 1 else 0) + CountStepped(es[1..])
  }

  function CountSent(es: seq<LegacyEvent>): nat {
    if |es| == 0 then 0 else (if es[0].Sent? then 1 else 0) + CountSent(es[1..])
  }

  lemma {:induction false} CountConcat(a: seq<LegacyEvent>, b: seq<LegacyEvent>)
    ensures CountStepped(a + b) == CountStepped(a) + CountStepped(b)
    ensures CountSent(a + b) == CountSent(a) + CountSent(b)
    decreases |a|
  {
    if |a| > 0 {
      assert (a + b)[0] == a[0] && (a + b)[1..] == a[1..] + b;
      CountConcat(a[1..], b);
    } else {
      assert a + b == b;
    }
  }

  lemma {:induction false} CountSteps(n: nat)
    ensures CountStepped(Steps(n)) == n && CountSent(Steps(n)) == 0
  {
    if n > 0 {
      assert Steps(n)[1..] == Steps(n - 1);
      CountSteps(n - 1);
    }
  }

  /** The trace agrees with the engine: as many `Stepped` events as engine
      steps, one send per reply consumed, and a send for every reply when
      the run ends by the interrupt; bodies and joint states never change
      in the loop. */
  lemma {:induction false} LoopAccounts(e: Engine, p: LegacyPanda, replies: seq<string>, t: NumberText)
    ensures var run := Loop(e, p, replies, t);
      run.engine.steps == e.steps + CountStepped(run.events) &&
      CountSent(run.events) <= |replies| &&
      (run.ending == Interrupted ==> CountSent(run.events) == |replies|) &&
      run.engine.bodies == e.bodies && run.engine.states == e.states
    decreases |replies|
  {
    if |replies| > 0 {
      var s := SentState(e, p, t);
      var r := Respond(e, s.0, replies[0], t);
      if r.Ok? {
        LoopAccountsStep(e, p, replies, t, s.0, s.1, r.value);
      } else {
        assert Loop(e, p, replies, t) == LegacyRun([s.1], e, s.0, Raised(r.error));
        SingleSend(s.1);
      }
    }
  }

  lemma SingleSend(sent: LegacyEvent)
    requires sent.Sent?
    ensures CountSent([sent]) == 1 && CountStepped([sent]) == 0
  {
    assert [sent][1..] == [];
  }

  lemma {:induction false} LoopAccountsStep(e: Engine, p: LegacyPanda, replies: seq<string>, t: NumberText,
                                            p': LegacyPanda, sent: LegacyEvent, step: Step)
    requires |replies| > 0 && SentState(e, p, t) == (p', sent) && Respond(e, p', replies[0], t) == Ok(step)
    ensures var run := Loop(e, p, replies, t);
      run.engine.steps == e.steps + CountStepped(run.events) &&
      CountSent(run.events) <= |replies| &&
      (run.ending == Interrupted ==> CountSent(run.events) == |replies|) &&
      run.engine.bodies == e.bodies && run.engine.states == e.states
    decreases |replies|, 0
  {
    var rest := Loop(step.engine, step.panda, replies[1..], t);
    LoopAccounts(step.engine, step.panda, replies[1..], t);
    var run := Loop(e, p, replies, t);
    assert run == rest.(events := [sent] + Steps(step.steps) + rest.events);
    assert sent.Sent?;
    CountConcat([sent] + Steps(step.steps), rest.events);
    CountConcat([sent], Steps(step.steps));
    CountSteps(step.steps);
    SingleSend(sent);
    assert CountStepped(run.events) == step.steps + CountStepped(rest.events);
    assert CountSent(run.events) == 1 + CountSent(rest.events);
    assert run.engine == rest.engine && run.ending == rest.ending;
  }

  const PandaBase: Value := Arr([Num(0.5), Num(0.0), Num(0.0)])

  /** The script: resolve its imports against the names robot.py defines,
      initialise (the plane), create one Panda at (0.5, 0, 0), loop. */
  function Main(defined: set<string>, e: Engine, replies: seq<string>, t: NumberText): (run: Result<LegacyRun>)
    ensures run.Ok? <==> ImportFrom(defined, MainImports).Ok?
  {
    var _ :- ImportFrom(defined, MainImports);
    var plane := LoadUrdf(e, "plane.urdf", false, Origin).0;
    var panda := NewLegacyPanda(plane, PandaBase);
    Ok(Loop(panda.0, panda.1, replies, t))
  }

  /** As written, the script stops at its second line: robot.py has no
      `pybullet_init`. Nothing is loaded and nothing is sent. */
  lemma ImportFails(e: Engine, replies: seq<string>, t: NumberText)
    ensures Main(RobotModuleAsWritten, e, replies, t) ==
      Raise("ImportError", "cannot import name 'pybullet_init' from 'robot'")
  {
    assert "pybullet_init"[1] != "pubullet_init"[1];
    assert "pybullet_init" !in RobotModuleAsWritten;
    var detail := "cannot import name '" + "pybullet_init" + "' from 'robot'";
    assert detail == "cannot import name 'pybullet_init' from 'robot'";
    assert ImportFrom(RobotModuleAsWritten, MainImports) == Raise("ImportError", detail);
  }

  /** With the initialiser spelt as imported, the script loads the plane
      and the Panda, and every engine step it takes is one `Stepped` event
      of its trace. */
  lemma MainRuns(e: Engine, replies: seq<string>, t: NumberText)
    ensures var run := Main(RobotModule, e, replies, t);
      run.Ok? &&
      run.value.engine.bodies == e.bodies + [Body("plane.urdf", false, Origin), Body(PandaUrdf, true, PandaBase)] &&
      run.value.engine.steps == e.steps + CountStepped(run.value.events) &&
      CountSent(run.value.events) <= |replies|
  {
    assert ImportFrom(RobotModule, MainImports).Ok?;
    var plane := LoadUrdf(e, "plane.urdf", false, Origin).0;
    assert plane.bodies == e.bodies + [Body("plane.urdf", false, Origin)] && plane.steps == e.steps;
    var panda := NewLegacyPanda(plane, PandaBase);
    assert panda.0.bodies == e.bodies + [Body("plane.urdf", false, Origin), Body(PandaUrdf, true, PandaBase)];
    LoopAccounts(panda.0, panda.1, replies, t);
    assert Main(RobotModule, e, replies, t) == Ok(Loop(panda.0, panda.1, replies, t));
  }

  // ---------------------------------------------------------------------
  // Against the fixed-size Rust simulator
  // ---------------------------------------------------------------------

  /** No encoded command is a two-item sequence. */
  lemma CommandNotPair(m: Messages.NodeMessage, l: Messages.VecLayout)
    ensures Raises(Unpack2(Messages.EncodeNodeMessage(m, l)), "ValueError")
  {
    var j := Messages.EncodeNodeMessage(m, l);
    if m.NoneNodeMessage? {
      assert j == Str("NoneNodeMessage");
    } else {
      assert j.Obj? && |j.members| == 1;
    }
  }

  /** The fixed-size Rust simulator replies with one externally tagged
      command; drawing two items from it raises ValueError, so the older
      script cannot take its replies. */
  lemma TaggedReplyRefused(b: Bullet.FixedBullet, message: string, t: NumberText,
                           e: Engine, p: LegacyPanda)
    requires |b.queue| > 0 && SoundOn(t, Numbers(Messages.EncodeNodeMessage(b.queue[0], Messages.Fixed(b.n))))
    requires Bullet.FixedUpdate(b, message, t).Ok?
    ensures Decode(Bullet.FixedUpdate(b, message, t).value.1.value, t).Err?
    ensures Respond(e, p, Bullet.FixedUpdate(b, message, t).value.1.value, t).Err?
  {
    var m := b.queue[0];
    var j := Messages.EncodeNodeMessage(m, Messages.Fixed(b.n));
    assert Bullet.FixedUpdate(b, message, t).value.1.value == Dump(j, t, Compact);
    LoadDump(j, t, Compact);
    CommandNotPair(m, Messages.Fixed(b.n));
  }
}
