/** The Python simulator's main script: where the robot list comes from
    (command-line tokens or a JSON file), how the robots are loaded, and the
    per-cycle exchange with the Rust side (send every robot's state, await
    the commands, execute them, step the engine once).

    The socket, the file system and the console are parameters: the peer's
    replies are an input sequence, files are a map from path to text, and
    what the script prints, sends, steps and disconnects is recorded as a
    sequence of events.  A `KeyboardInterrupt` is taken to arrive while the
    script sleeps after its last cycle, i.e. once the replies run out.
 */
module PySim {
  import opened Wrappers
  import opened Json
  import opened Py
  import opened PyRobot

  // ---------------------------------------------------------------------
  // Command-line robot list
  // ---------------------------------------------------------------------

  /** `robot_type, robot_id = robot.split("_")` and the rebuilt name. */
  function ParseToken(tok: string): (r: Result<(string, string)>)
    ensures r.Ok? <==> CountChar(tok, '_') == 1
    ensures r.Ok? ==> r.value.1 == tok && '_' !in r.value.0 && r.value.0 + "_" <= tok
    ensures r.Err? ==> Raises(r, "ValueError")
  {
    var parts := Split(tok, '_');
    if |parts| < 2 then Raise("ValueError", "not enough values to unpack (expected 2, got 1)")
    else if |parts| > 2 then Raise("ValueError", "too many values to unpack (expected 2)")
    else
      assert Join(parts, '_') == parts[0] + "_" + parts[1];
      Ok((parts[0], parts[0] + "_" + parts[1]))
  }

  /** A token has the `type_id` shape: exactly one underscore. */
  predicate IsTypeId(tok: string) {
    CountChar(tok, '_') == 1
  }

  function InvalidEntry(tok: string): string {
    "Invalid format for robot entry: '" + tok + "'. Use 'type_id'."
  }

  /** The tokens of the `type_id` shape, in order. */
  function TypeIdTokens(tokens: seq<string>): (ks: seq<string>)
    ensures |ks| <= |tokens|
    ensures forall k :: 0 <= k < |ks| ==> IsTypeId(ks[k])
  {
    if |tokens| == 0 then []
    else (if IsTypeId(tokens[0]) then [tokens[0]] else []) + TypeIdTokens(tokens[1..])
  }

  /** The lines printed for tokens of any other shape, in order. */
  function Complaints(tokens: seq<string>): seq<string> {
    if |tokens| == 0 then []
    else (if IsTypeId(tokens[0]) then [] else [InvalidEntry(tokens[0])]) + Complaints(tokens[1..])
  }

  /** `parse_text_input`: the pairs `(robot_type, robot_name)` kept, and the
      lines printed; a malformed token is reported and skipped, never raised. */
  function ParseTextInput(tokens: seq<string>): (out: (seq<(string, string)>, seq<string>))
    ensures |out.0| == |TypeIdTokens(tokens)|
    ensures forall k :: 0 <= k < |out.0| ==>
      out.0[k].1 == TypeIdTokens(tokens)[k] && out.0[k].0 + "_" <= out.0[k].1 && '_' !in out.0[k].0
    ensures out.1 == Complaints(tokens)
    ensures |out.0| + |out.1| == |tokens|
  {
    if |tokens| == 0 then ([], [])
    else
      var rest := ParseTextInput(tokens[1..]);
      match ParseToken(tokens[0])
      case Ok(pair) => ([pair] + rest.0, rest.1)
      case Err(_) => (rest.0, [InvalidEntry(tokens[0])] + rest.1)
  }

  /** When every token has the `type_id` shape, every one is kept, in order,
      with its name unchanged. */
  lemma {:induction false} AllTypeIdsKept(tokens: seq<string>)
    requires forall k :: 0 <= k < |tokens| ==> IsTypeId(tokens[k])
    ensures TypeIdTokens(tokens) == tokens
    ensures |ParseTextInput(tokens).0| == |tokens| && ParseTextInput(tokens).1 == []
  {
    if |tokens| > 0 {
      AllTypeIdsKept(tokens[1..]);
      assert tokens == [tokens[0]] + tokens[1..];
    }
  }

  // ---------------------------------------------------------------------
  // Robot file
  // ---------------------------------------------------------------------

  /** `json.load`: a parse failure raises JSONDecodeError. */
  function LoadsPy(text: string, t: NumberText): (r: Result<Value>)
    ensures r.Ok? <==> Load(text, t).Ok?
    ensures r.Ok? ==> r == Load(text, t)
    ensures r.Err? ==> Raises(r, "JSONDecodeError")
  {
    var l := Load(text, t);
    if l.Ok? then l else Raise("JSONDecodeError", l.error)
  }

  /** `(robot["robot_type"], robot["name"], robot["base_pose"]["translation"])`. */
  function FileEntry(robot: Value): (r: Result<seq<Value>>)
    ensures r.Ok? ==> |r.value| == 3
  {
    var ty :- Lookup(robot, "robot_type");
    var name :- Lookup(robot, "name");
    var pose :- Lookup(robot, "base_pose");
    var position :- Lookup(pose, "translation");
    Ok([ty, name, position])
  }

  /** The list comprehension: the first failing entry raises. */
  function FileEntries(items: seq<Value>): (r: Result<seq<seq<Value>>>)
    ensures r.Ok? <==> forall k :: 0 <= k < |items| ==> FileEntry(items[k]).Ok?
    ensures r.Ok? ==> |r.value| == |items| && forall k :: 0 <= k < |items| ==> r.value[k] == FileEntry(items[k]).value
  {
    if |items| == 0 then Ok([])
    else
      var first := FileEntry(items[0]);
      var rest := FileEntries(items[1..]);
      EntryShift(items);
      if first.Err? then Err(first.error)
      else if rest.Err? then Err(rest.error)
      else Ok([first.value] + rest.value)
  }

  /** Entry k + 1 is entry k of the tail. */
  lemma EntryShift(items: seq<Value>)
    requires items != []
    ensures forall k :: 1 <= k < |items| ==> FileEntry(items[k]) == FileEntry(items[1..][k - 1])
  {
    assert forall k :: 1 <= k < |items| ==> items[k] == items[1..][k - 1];
  }

  /** `load_robots_from_file` on the file's text: `data.get("robots", [])`
      needs a dict, and a missing key gives the empty list. */
  function LoadRobotsFromFile(text: string, t: NumberText): (r: Result<seq<seq<Value>>>)
    ensures Load(text, t).Err? ==> Raises(r, "JSONDecodeError")
    ensures Load(text, t).Ok? ==> r == RobotsOf(Load(text, t).value)
  {
    var data :- LoadsPy(text, t);
    RobotsOf(data)
  }

  /** The list comprehension over `data.get("robots", [])`. */
  function RobotsOf(data: Value): (r: Result<seq<seq<Value>>>)
    ensures !data.Obj? ==> Raises(r, "AttributeError")
    ensures data.Obj? && Get(data.members, "robots").None? ==> r == Ok([])
    ensures r.Ok? ==> forall k :: 0 <= k < |r.value| ==> |r.value[k]| == 3
  {
    if !data.Obj? then Raise("AttributeError", "object has no attribute 'get'")
    else
      var robots := if Get(data.members, "robots").Some? then Get(data.members, "robots").value else Arr([]);
      var items :- Iterate(robots);
      FileEntries(items)
  }

  /** The object a robot configuration is written as. */
  function ConfigValue(c: Robots.RobotConfig): Value {
    Obj([Member("name", Str(c.name)), Member("robot_type", Str(c.robotType)),
         Member("base_pose", Messages.EncodePose(c.basePose))])
  }

  function ConfigValues(cs: seq<Robots.RobotConfig>): (vs: seq<Value>)
    ensures |vs| == |cs| && forall k :: 0 <= k < |cs| ==> vs[k] == ConfigValue(cs[k])
  {
    if |cs| == 0 then [] else [ConfigValue(cs[0])] + ConfigValues(cs[1..])
  }

  /** The triple the script draws from a configuration. */
  function ConfigEntry(c: Robots.RobotConfig): seq<Value> {
    var p := c.basePose.translation;
    [Str(c.robotType), Str(c.name), Arr([Num(p.x), Num(p.y), Num(p.z)])]
  }

  lemma ConfigEntryOf(c: Robots.RobotConfig)
    ensures FileEntry(ConfigValue(c)) == Ok(ConfigEntry(c))
  {
    var v := ConfigValue(c);
    var two := [Member("name", Str(c.name)), Member("robot_type", Str(c.robotType))];
    assert v.members[..2] == two && two[..1] == [Member("name", Str(c.name))];
    assert Get(v.members, "robot_type") == Get(two, "robot_type") == Some(Str(c.robotType));
    assert Get(v.members, "name") == Get(two, "name") == Get(two[..1], "name") == Some(Str(c.name));
    assert Lookup(v, "robot_type") == Ok(Str(c.robotType));
    assert Lookup(v, "name") == Ok(Str(c.name));
    assert Lookup(v, "base_pose") == Ok(Messages.EncodePose(c.basePose));
    var p := c.basePose.translation;
    assert Messages.NumsOf([p.x, p.y, p.z]) == [Num(p.x), Num(p.y), Num(p.z)];
  }

  /** A file holding `{"robots": [...]}` yields one triple per configuration,
      in file order: type, name and the pose's translation. */
  lemma LoadConfigFile(cs: seq<Robots.RobotConfig>, t: NumberText, st: Style)
    requires SoundOn(t, Numbers(Obj([Member("robots", Arr(ConfigValues(cs)))])))
    ensures var file := Obj([Member("robots", Arr(ConfigValues(cs)))]);
      var r := LoadRobotsFromFile(Dump(file, t, st), t);
      r.Ok? && |r.value| == |cs| && forall k :: 0 <= k < |cs| ==> r.value[k] == ConfigEntry(cs[k])
  {
    var file := Obj([Member("robots", Arr(ConfigValues(cs)))]);
    LoadDump(file, t, st);
    ConfigFileRobots(cs);
  }

  /** The robots of a `{"robots": [...]}` object, one triple per entry. */
  lemma ConfigFileRobots(cs: seq<Robots.RobotConfig>)
    ensures var r := RobotsOf(Obj([Member("robots", Arr(ConfigValues(cs)))]));
      r.Ok? && |r.value| == |cs| && forall k :: 0 <= k < |cs| ==> r.value[k] == ConfigEntry(cs[k])
  {
    var file := Obj([Member("robots", Arr(ConfigValues(cs)))]);
    assert Get(file.members, "robots") == Some(Arr(ConfigValues(cs)));
    assert Iterate(Arr(ConfigValues(cs))) == Ok(ConfigValues(cs));
    forall k | 0 <= k < |cs|
      ensures FileEntry(ConfigValues(cs)[k]) == Ok(ConfigEntry(cs[k]))
    {
      ConfigEntryOf(cs[k]);
    }
    assert FileEntries(ConfigValues(cs)).Ok?;
  }

  // ---------------------------------------------------------------------
  // Loading the robots
  // ---------------------------------------------------------------------

  /** `for robot_type, robot_name, position in robot_config`: each tuple must
      have exactly three parts. */
  function Unpack3(entry: seq<Value>): (r: Result<(Value, Value, Value)>)
    ensures r.Ok? <==> |entry| == 3
    ensures r.Ok? ==> r.value == (entry[0], entry[1], entry[2])
    ensures r.Err? ==> Raises(r, "ValueError")
  {
    if |entry| < 3 then Raise("ValueError", "not enough values to unpack (expected 3)")
    else if |entry| > 3 then Raise("ValueError", "too many values to unpack (expected 3)")
    else Ok((entry[0], entry[1], entry[2]))
  }

  /** Loads every configured robot in order; the first bad entry raises. */
  function LoadAll(e: Engine, config: seq<seq<Value>>): (r: Result<(Engine, seq<Robot>)>)
    ensures r.Ok? <==> forall k :: 0 <= k < |config| ==> |config[k]| == 3 && config[k][0] == Str("panda")
    ensures r.Ok? ==> |r.value.1| == |config| && |r.value.0.bodies| == |e.bodies| + |config|
    ensures r.Ok? ==> forall k :: 0 <= k < |config| ==> r.value.1[k].njoint == PyPandaDof
    ensures r.Err? ==> Raises(r, "ValueError")
    decreases |config|
  {
    if |config| == 0 then Ok((e, []))
    else
      var parts :- Unpack3(config[0]);
      var first :- LoadRobot(e, parts.0, parts.1, parts.2);
      var rest :- LoadAll(first.0, config[1..]);
      assert forall k :: 1 <= k < |config| ==> config[k] == config[1..][k - 1];
      Ok((rest.0, [first.1] + rest.1))
  }

  // ---------------------------------------------------------------------
  // Events and the source of the robot list
  // ---------------------------------------------------------------------

  datatype Event = Printed(line: string) | Sent(message: string) | Stepped | Disconnected

  /** What a run of `main` did, the engine and robots after its last
      completed cycle, and the exception it ended with, if any. */
  datatype Run = Run(events: seq<Event>, engine: Engine, robots: seq<Robot>, raised: Option<string>)

  /** `args.text` (a non-empty token list when given) and `args.file`. */
  datatype Args = Args(text: Option<seq<string>>, file: Option<string>)

  predicate HasText(a: Args) {
    a.text.Some? && |a.text.value| > 0
  }

  predicate HasFile(a: Args) {
    a.file.Some? && |a.file.value| > 0
  }

  const NoSource := "Please specify either -t for command line input or -f for file input."
  const Interrupted := "Simulation terminated by user."
  const NoReceiveCommand := "AttributeError: 'ZmqReq' object has no attribute 'receive_command'"

  function Printing(lines: seq<string>): (es: seq<Event>)
    ensures |es| == |lines| && forall k :: 0 <= k < |lines| ==> es[k] == Printed(lines[k])
  {
    if |lines| == 0 then [] else [Printed(lines[0])] + Printing(lines[1..])
  }

  /** The tuples the text path builds: pairs, as written. */
  function Pairs(ps: seq<(string, string)>): (es: seq<seq<Value>>)
    ensures |es| == |ps| && forall k :: 0 <= k < |ps| ==> es[k] == [Str(ps[k].0), Str(ps[k].1)]
  {
    if |ps| == 0 then [] else [[Str(ps[0].0), Str(ps[0].1)]] + Pairs(ps[1..])
  }

  /** The tuples the text path should build: triples with no position. */
  function Triples(ps: seq<(string, string)>): (es: seq<seq<Value>>)
    ensures |es| == |ps| && forall k :: 0 <= k < |ps| ==> es[k] == [Str(ps[k].0), Str(ps[k].1), Null]
  {
    if |ps| == 0 then [] else [[Str(ps[0].0), Str(ps[0].1), Null]] + Triples(ps[1..])
  }

  /** Reads a file from the file system map. */
  function ReadFile(files: map<string, string>, path: string): (r: Result<string>)
    ensures r.Ok? <==> path in files
    ensures r.Ok? ==> r.value == files[path]
    ensures r.Err? ==> Raises(r, "FileNotFoundError")
  {
    if path in files then Ok(files[path]) else Raise("FileNotFoundError", path)
  }

  /** Source selection: text first, then the file; `None` when neither is
      given.  The lines are those the text parser printed.  `triples`
      selects the corrected text path. */
  function RobotConfig(a: Args, files: map<string, string>, t: NumberText, triples: bool)
    : (r: Result<Option<(seq<string>, seq<seq<Value>>)>>)
    ensures r.Ok? && r.value.None? <==> !HasText(a) && !HasFile(a)
    ensures HasText(a) ==> (r.Ok? && r.value.Some? &&
      r.value.value.0 == ParseTextInput(a.text.value).1 &&
      |r.value.value.1| == |ParseTextInput(a.text.value).0|)
    ensures HasText(a) && !triples ==> forall k :: 0 <= k < |r.value.value.1| ==> |r.value.value.1[k]| == 2
    ensures HasText(a) && triples ==> forall k :: 0 <= k < |r.value.value.1| ==> |r.value.value.1[k]| == 3
  {
    if HasText(a) then
      var parsed := ParseTextInput(a.text.value);
      Ok(Some((parsed.1, if triples then Triples(parsed.0) else Pairs(parsed.0))))
    else if HasFile(a) then
      var text :- ReadFile(files, a.file.value);
      var config :- LoadRobotsFromFile(text, t);
      Ok(Some(([], config)))
    else Ok(None)
  }

  /** Text input takes precedence: the file argument is then never read. */
  lemma TextFirst(a: Args, files: map<string, string>, t: NumberText, triples: bool)
    requires HasText(a)
    ensures RobotConfig(a, files, t, triples) == RobotConfig(a.(file := None), map[], t, triples)
  {
  }

  // ---------------------------------------------------------------------
  // One cycle
  // ---------------------------------------------------------------------

  /** Every robot's `get_state`, in load order. */
  function States(e: Engine, robots: seq<Robot>, l: Messages.VecLayout): (out: (seq<Robot>, seq<Value>))
    requires !l.Fixed?
    ensures |out.0| == |robots| && |out.1| == |robots|
    ensures forall k :: 0 <= k < |robots| ==> out.0[k] == GetState(e, robots[k], l).0 && out.1[k] == GetState(e, robots[k], l).1
  {
    if |robots| == 0 then ([], [])
    else
      var rest := States(e, robots[1..], l);
      var first := GetState(e, robots[0], l);
      ([first.0] + rest.0, [first.1] + rest.1)
  }

  /** `zip(robots, command)` executing each pair in turn; a robot with no
      command is left alone and surplus commands are never looked at. */
  function ExecuteZip(e: Engine, robots: seq<Robot>, cmds: seq<Value>): (r: Result<(Engine, seq<Robot>)>)
    ensures |robots| == 0 || |cmds| == 0 ==> r == Ok((e, robots))
    ensures r.Ok? ==> |r.value.1| == |robots|
    ensures r.Ok? ==> forall k :: |cmds| <= k < |robots| ==> r.value.1[k] == robots[k]
    ensures r.Ok? ==> OnlyMotors(e, r.value.0)
    decreases |robots|
  {
    if |robots| == 0 || |cmds| == 0 then Ok((e, robots))
    else
      var first :- ExecuteCommandIntended(e, robots[0], cmds[0]);
      var rest :- ExecuteZip(first.0, robots[1..], cmds[1..]);
      Ok((rest.0, [first.1] + rest.1))
  }

  /** Commands beyond the last robot make no difference. */
  lemma {:induction false} ExecuteZipSurplus(e: Engine, robots: seq<Robot>, cmds: seq<Value>)
    requires |cmds| >= |robots|
    ensures ExecuteZip(e, robots, cmds) == ExecuteZip(e, robots, cmds[..|robots|])
    decreases |robots|
  {
    if |robots| > 0 {
      assert cmds[..|robots|][1..] == cmds[1..][..|robots| - 1];
      assert cmds[..|robots|][0] == cmds[0];
      match ExecuteCommandIntended(e, robots[0], cmds[0])
      case Err(_) =>
      case Ok(first) => ExecuteZipSurplus(first.0, robots[1..], cmds[1..]);
    }
  }

  /** `json.loads(req.receive())`: `receive` already decodes the reply once,
      and the result must be a string for the second decode. */
  function ReceiveAndLoad(reply: string, t: NumberText): (r: Result<Value>)
    ensures r.Ok? <==> Load(reply, t).Ok? && Load(reply, t).value.Str? && Load(Load(reply, t).value.s, t).Ok?
    ensures r.Ok? ==> r.value == Load(Load(reply, t).value.s, t).value
  {
    var once :- LoadsPy(reply, t);
    if !once.Str? then Err("TypeError: the JSON object must be str, bytes or bytearray")
    else LoadsPy(once.s, t)
  }

  /** What follows the send in a corrected cycle: decode the reply twice,
      execute the commands against the robots, step once. */
  function Respond(e: Engine, robots: seq<Robot>, reply: string, t: NumberText): (r: Result<(Engine, seq<Robot>)>)
    ensures r.Ok? ==> |r.value.1| == |robots| && r.value.0.steps == 1 + e.steps
  {
    var command :- ReceiveAndLoad(reply, t);
    var cmds :- Iterate(command);
    var done :- ExecuteZip(e, robots, cmds);
    Ok((StepSimulation(done.0), done.1))
  }

  /** One corrected cycle: the message sent, and the outcome. */
  function Cycle(e: Engine, robots: seq<Robot>, reply: string, t: NumberText)
    : (c: (string, Result<(Engine, seq<Robot>)>))
    ensures c.1.Ok? ==> |c.1.value.1| == |robots| && c.1.value.0.steps == 1 + e.steps
  {
    var read := States(e, robots, Messages.Dyn);
    (Dump(Arr(read.1), t, Spaced), Respond(e, read.0, reply, t))
  }

  /** The one message a cycle sends holds one robot state per robot, in
      load order: the positions and velocities each robot reads back from
      the engine. */
  lemma CycleSendsStates(e: Engine, robots: seq<Robot>, reply: string, t: NumberText)
    requires SoundOn(t, Numbers(Arr(States(e, robots, Messages.Dyn).1)))
    ensures var sent := Load(Cycle(e, robots, reply, t).0, t);
      sent.Ok? && sent.value.Arr? && |sent.value.items| == |robots| &&
      forall k :: 0 <= k < |robots| ==>
        var read := ReadJoints(e, robots[k].joints);
        sent.value.items[k] == Messages.RobotStateWire(Messages.RobotState.JointVel(read.1, read.2), Messages.Dyn)
  {
    var states := States(e, robots, Messages.Dyn).1;
    LoadDump(Arr(states), t, Spaced);
  }

  function CountSteps(es: seq<Event>): nat {
    if |es| == 0 then 0 else (if es[0].Stepped? then 1 else 0) + CountSteps(es[1..])
  }

  function CountSent(es: seq<Event>): nat {
    if |es| == 0 then 0 else (if es[0].Sent? then 1 else 0) + CountSent(es[1..])
  }

  /** The corrected `while True` loop inside `try`/`finally`. */
  function Loop(e: Engine, robots: seq<Robot>, replies: seq<string>, t: NumberText): (run: Run)
    ensures |run.events| > 0
    decreases |replies|
  {
    if |replies| == 0 then Run([Printed(Interrupted), Disconnected], e, robots, None)
    else
      var c := Cycle(e, robots, replies[0], t);
      match c.1
      case Err(err) => Run([Sent(c.0), Disconnected], e, robots, Some(err))
      case Ok(next) =>
        var rest := Loop(next.0, next.1, replies[1..], t);
        Run([Sent(c.0), Stepped] + rest.events, rest.engine, rest.robots, rest.raised)
  }

  lemma CountAppend(a: seq<Event>, b: seq<Event>)
    ensures CountSteps(a + b) == CountSteps(a) + CountSteps(b)
    ensures CountSent(a + b) == CountSent(a) + CountSent(b)
  {
    if |a| > 0 {
      assert (a + b)[0] == a[0];
      assert (a + b)[1..] == a[1..] + b;
      CountAppend(a[1..], b);
    } else {
      assert a + b == b;
    }
  }

  /** Each cycle sends one message and steps exactly once; a cycle that
      raises has sent but not stepped; and `disconnect` always comes last. */
  lemma {:induction false} LoopShape(e: Engine, robots: seq<Robot>, replies: seq<string>, t: NumberText)
    ensures var run := Loop(e, robots, replies, t);
      run.events[|run.events| - 1] == Disconnected &&
      (run.raised.None? ==> CountSteps(run.events) == |replies| && CountSent(run.events) == |replies|) &&
      (run.raised.Some? ==> (CountSent(run.events) == CountSteps(run.events) + 1 &&
        CountSteps(run.events) < |replies|)) &&
      run.engine.steps == e.steps + CountSteps(run.events)
    decreases |replies|
  {
    if |replies| == 0 {
      CountAppend([Printed(Interrupted)], [Disconnected]);
    } else {
      var c := Cycle(e, robots, replies[0], t);
      if c.1.Ok? {
        var next := c.1.value;
        LoopShape(next.0, next.1, replies[1..], t);
        LoopShapeStep(e, robots, replies, t, c.0, next);
      } else {
        LoopShapeRaise(e, robots, replies, t, c.0, c.1.error);
        CountSentThen(c.0, Disconnected);
      }
    }
  }

  /** A cycle that raises sends, then disconnects. */
  lemma LoopShapeRaise(e: Engine, robots: seq<Robot>, replies: seq<string>, t: NumberText,
                       sent: string, err: string)
    requires |replies| > 0 && Cycle(e, robots, replies[0], t) == (sent, Err(err))
    ensures Loop(e, robots, replies, t) == Run([Sent(sent), Disconnected], e, robots, Some(err))
  {
  }

  lemma CountSentThen(sent: string, last: Event)
    ensures CountSteps([Sent(sent), last]) == (if last.Stepped? then 1 else 0)
    ensures CountSent([Sent(sent), last]) == 1 + (if last.Sent? then 1 else 0)
  {
    CountAppend([Sent(sent)], [last]);
    assert [Sent(sent)] + [last] == [Sent(sent), last];
  }

  /** A completed cycle puts one send and one step before the rest of the run. */
  lemma LoopShapeStep(e: Engine, robots: seq<Robot>, replies: seq<string>, t: NumberText,
                      sent: string, next: (Engine, seq<Robot>))
    requires |replies| > 0 && Cycle(e, robots, replies[0], t) == (sent, Ok(next))
    ensures var rest := Loop(next.0, next.1, replies[1..], t);
      var run := Loop(e, robots, replies, t);
      run.events == [Sent(sent), Stepped] + rest.events && run.raised == rest.raised && run.engine == rest.engine &&
      CountSteps(run.events) == 1 + CountSteps(rest.events) && CountSent(run.events) == 1 + CountSent(rest.events) &&
      next.0.steps == e.steps + 1
  {
    var rest := Loop(next.0, next.1, replies[1..], t);
    CountAppend([Sent(sent)], [Stepped]);
    CountAppend([Sent(sent), Stepped], rest.events);
  }

  // ---------------------------------------------------------------------
  // main
  // ---------------------------------------------------------------------

  /** `p.loadURDF("plane.urdf")` before the robots. */
  function WithPlane(e: Engine): Engine {
    LoadUrdf(e, "plane.urdf", false, Origin).0
  }

  /** `main` as written: the text path builds pairs that the three-way
      unpack refuses, and the loop calls `receive_command`, which the
      socket wrapper does not define, right after the first send. */
  function MainAsWritten(a: Args, files: map<string, string>, e: Engine, t: NumberText): (run: Run)
    ensures !HasText(a) && !HasFile(a) ==> run == Run([Printed(NoSource)], WithPlane(e), [], None)
  {
    var plane := WithPlane(e);
    match RobotConfig(a, files, t, false)
    case Err(err) => Run([], plane, [], Some(err))
    case Ok(None) => Run([Printed(NoSource)], plane, [], None)
    case Ok(Some(source)) =>
      match LoadAll(plane, source.1)
      case Err(err) => Run(Printing(source.0), plane, [], Some(err))
      case Ok(loaded) =>
        var read := States(loaded.0, loaded.1, Messages.Flat);
        var sent := Dump(Arr(read.1), t, Spaced);
        Run(Printing(source.0) + [Sent(sent), Disconnected], loaded.0, read.0, Some(NoReceiveCommand))
  }

  /** The corrected `main`: the text path yields triples, and the reply is
      read with `receive`. */
  function Main(a: Args, files: map<string, string>, e: Engine, replies: seq<string>, t: NumberText): (run: Run)
    ensures !HasText(a) && !HasFile(a) ==> run == Run([Printed(NoSource)], WithPlane(e), [], None)
  {
    var plane := WithPlane(e);
    match RobotConfig(a, files, t, true)
    case Err(err) => Run([], plane, [], Some(err))
    case Ok(None) => Run([Printed(NoSource)], plane, [], None)
    case Ok(Some(source)) =>
      match LoadAll(plane, source.1)
      case Err(err) => Run(Printing(source.0), plane, [], Some(err))
      case Ok(loaded) =>
        var run := Loop(loaded.0, loaded.1, replies, t);
        Run(Printing(source.0) + run.events, run.engine, run.robots, run.raised)
  }

  /** As written, any command line with a well-formed token ends in
      ValueError before the loop, and `disconnect` never runs. */
  lemma TextPathAsWritten(a: Args, files: map<string, string>, e: Engine, t: NumberText)
    requires HasText(a) && |TypeIdTokens(a.text.value)| > 0
    ensures MainAsWritten(a, files, e, t).raised.Some? && "ValueError" <= MainAsWritten(a, files, e, t).raised.value
    ensures Disconnected !in MainAsWritten(a, files, e, t).events
  {
    var source := RobotConfig(a, files, t, false).value.value;
    assert |source.1[0]| == 2;
    assert LoadAll(WithPlane(e), source.1).Err?;
    assert forall k :: 0 <= k < |source.0| ==> Printing(source.0)[k].Printed?;
  }

  /** As written, a file that loads leads to exactly one send, then the
      AttributeError, then `disconnect`: the simulation never steps. */
  lemma FilePathAsWritten(a: Args, files: map<string, string>, e: Engine, t: NumberText)
    requires !HasText(a) && HasFile(a)
    requires RobotConfig(a, files, t, false).Ok?
    requires LoadAll(WithPlane(e), RobotConfig(a, files, t, false).value.value.1).Ok?
    ensures var run := MainAsWritten(a, files, e, t);
      run.raised == Some(NoReceiveCommand) && |run.events| == 2 &&
      run.events[0].Sent? && run.events[1] == Disconnected && CountSteps(run.events) == 0
  {
    var source := RobotConfig(a, files, t, false).value.value;
    assert source.0 == [];
    var loaded := LoadAll(WithPlane(e), source.1).value;
    var sent := Dump(Arr(States(loaded.0, loaded.1, Messages.Flat).1), t, Spaced);
    assert Printing(source.0) == [];
    assert MainAsWritten(a, files, e, t).events == [Sent(sent), Disconnected];
    CountAppend([Sent(sent)], [Disconnected]);
  }

  /** A command line of `panda_<id>` tokens parses to the pair
      `("panda", token)` for every token, printing nothing. */
  lemma {:induction false} PandaTokens(tokens: seq<string>)
    requires forall k :: 0 <= k < |tokens| ==> IsTypeId(tokens[k]) && "panda_" <= tokens[k]
    ensures var parsed := ParseTextInput(tokens);
      |parsed.0| == |tokens| && parsed.1 == [] &&
      forall k :: 0 <= k < |tokens| ==> parsed.0[k] == ("panda", tokens[k])
  {
    if |tokens| > 0 {
      PandaTokens(tokens[1..]);
      var pair := ParseToken(tokens[0]).value;
      SamePrefix(pair.0, "panda", tokens[0]);
      var rest := ParseTextInput(tokens[1..]);
      assert ParseTextInput(tokens) == ([pair] + rest.0, rest.1);
    }
  }

  /** Two separator-free types that both head `tok` are the same type. */
  lemma SamePrefix(x: string, y: string, tok: string)
    requires x + "_" <= tok && y + "_" <= tok && '_' !in x && '_' !in y
    ensures x == y
  {
    PrefixBeforeSeparator(x, tok, '_');
    PrefixBeforeSeparator(y, tok, '_');
  }

  /** Corrected, a command line of `panda_<id>` tokens loads one Panda per
      token and enters the loop, which steps once per reply until it ends,
      always with `disconnect`. */
  lemma TextPathCorrected(a: Args, files: map<string, string>, e: Engine, replies: seq<string>, t: NumberText)
    requires HasText(a)
    requires forall k :: 0 <= k < |a.text.value| ==> IsTypeId(a.text.value[k]) && "panda_" <= a.text.value[k]
    ensures var run := Main(a, files, e, replies, t);
      |run.events| > 0 && run.events[|run.events| - 1] == Disconnected &&
      (run.raised.None? ==> CountSteps(run.events) == |replies|)
  {
    PandaTokens(a.text.value);
    var config := Triples(ParseTextInput(a.text.value).0);
    var source := ([], config);
    assert RobotConfig(a, files, t, true) == Ok(Some(source));
    assert forall k :: 0 <= k < |config| ==> |config[k]| == 3 && config[k][0] == Str("panda");
    assert LoadAll(WithPlane(e), config).Ok?;
    var loaded := LoadAll(WithPlane(e), config).value;
    LoopShape(loaded.0, loaded.1, replies, t);
    MainEnters(a, files, e, replies, t, source, loaded);
    var inner := Loop(loaded.0, loaded.1, replies, t);
    assert Printing(source.0) + inner.events == inner.events;
  }

  /** Once the robots load, `main` is the loop after the parser's lines. */
  lemma MainEnters(a: Args, files: map<string, string>, e: Engine, replies: seq<string>, t: NumberText,
                   source: (seq<string>, seq<seq<Value>>), loaded: (Engine, seq<Robot>))
    requires RobotConfig(a, files, t, true) == Ok(Some(source))
    requires LoadAll(WithPlane(e), source.1) == Ok(loaded)
    ensures Main(a, files, e, replies, t).events == Printing(source.0) + Loop(loaded.0, loaded.1, replies, t).events
    ensures Main(a, files, e, replies, t).raised == Loop(loaded.0, loaded.1, replies, t).raised
  {
  }

  /** Where the first separator sits in `s`, or |s| if it does not occur. */
  function FirstIndex(s: string, c: char): (i: nat)
    ensures i <= |s|
  {
    if |s| == 0 then 0 else if s[0] == c then 0 else 1 + FirstIndex(s[1..], c)
  }

  /** A separator-free `x` followed by the separator at the start of `s` is
      exactly the part of `s` before its first separator. */
  lemma {:induction false} PrefixBeforeSeparator(x: string, s: string, c: char)
    requires x + [c] <= s && c !in x
    ensures |x| == FirstIndex(s, c) && x == s[..FirstIndex(s, c)]
  {
    if |x| > 0 {
      assert s[0] == x[0] && x[0] != c;
      assert x[1..] + [c] <= s[1..];
      PrefixBeforeSeparator(x[1..], s[1..], c);
      assert x == [x[0]] + x[1..];
    }
  }
}
