/** The string registries that turn a configured type name into a node,
    planner or controller.  The constructors themselves are not modelled:
    what is built is recorded as its kind plus the arguments it was given,
    so the contracts can say what is passed through.  A `panic!` naming the
    type is an `Err` carrying the panic text. */
module Registries {
  import opened Wrappers
  import Json
  import Messages

  // ---- node names ----

  /** `"<type>:<robot>"`, the name a node or planner is given. */
  function Qualified(kind: string, robotName: string): string {
    kind + ":" + robotName
  }

  /** Everything before the first ':' and everything after it; no ':' at
      all gives the whole string and an empty rest. */
  function SplitAtColon(s: string): (r: (string, string))
    ensures ':' !in r.0
    ensures |r.0| <= |s|
  {
    if s == [] then ([], [])
    else if s[0] == ':' then ([], s[1..])
    else
      var rest := SplitAtColon(s[1..]);
      ([s[0]] + rest.0, rest.1)
  }

  /** A qualified name splits back into its type and robot name, provided
      the type has no ':' (no registered type does); the robot name may. */
  lemma {:induction false} QualifiedSplits(kind: string, robotName: string)
    requires ':' !in kind
    ensures SplitAtColon(Qualified(kind, robotName)) == (kind, robotName)
    decreases |kind|
  {
    if kind != [] {
      assert Qualified(kind, robotName)[1..] == Qualified(kind[1..], robotName);
      assert Qualified(kind, robotName)[0] == kind[0] != ':';
      QualifiedSplits(kind[1..], robotName);
      assert [kind[0]] + kind[1..] == kind;
    }
  }

  // ---- create_node ----

  datatype NodeKind = Interp | Cfs | Impedance | ImpedanceDiag | Pid | Position | Bullet | ObstacleReleaser

  /** The registered type string of each node kind. */
  function NodeTypeName(k: NodeKind): (r: string)
    ensures ':' !in r
  {
    match k
    case Interp => "interp"
    case Cfs => "cfs"
    case Impedance => "impedence"
    case ImpedanceDiag => "impedence_diag"
    case Pid => "pid"
    case Position => "position"
    case Bullet => "bullet"
    case ObstacleReleaser => "obstacle_releaser"
  }

  /** The eight type strings `create_node` recognises. */
  const NodeTypeNames: set<string> :=
    {"interp", "cfs", "impedence", "impedence_diag", "pid", "position", "bullet", "obstacle_releaser"}

  /** The `match` of `create_node`: exact, case-sensitive comparison. */
  function ParseNodeType(t: string): (r: Option<NodeKind>)
    ensures r.Some? <==> t in NodeTypeNames
    ensures r.Some? ==> NodeTypeName(r.value) == t
  {
    if t == "interp" then Some(Interp)
    else if t == "cfs" then Some(Cfs)
    else if t == "impedence" then Some(Impedance)
    else if t == "impedence_diag" then Some(ImpedanceDiag)
    else if t == "pid" then Some(Pid)
    else if t == "position" then Some(Position)
    else if t == "bullet" then Some(Bullet)
    else if t == "obstacle_releaser" then Some(ObstacleReleaser)
    else None
  }

  /** Every kind is reached by its own name and by no other, so there are
      exactly eight recognised names. */
  lemma NodeTypeRoundTrip(k: NodeKind, k': NodeKind)
    ensures ParseNodeType(NodeTypeName(k)) == Some(k)
    ensures NodeTypeName(k) == NodeTypeName(k') ==> k == k'
    ensures NodeTypeName(k) in NodeTypeNames && |NodeTypeNames| == 8
  {
  }

  /** What `create_node` builds: the node kind, its name and the untouched
      parameters handed to `from_json`. */
  datatype NodeSpec = NodeSpec(kind: NodeKind, name: string, params: Json.Value)

  /** `create_node`. */
  function CreateNode(nodeType: string, robotName: string, params: Json.Value): (r: Result<NodeSpec>)
    ensures r.Ok? <==> nodeType in NodeTypeNames
    ensures r.Ok? ==> NodeTypeName(r.value.kind) == nodeType
    ensures r.Ok? ==> r.value.name == nodeType + ":" + robotName && r.value.params == params
    ensures r.Err? ==> r.error == "Unknown node type: " + nodeType
  {
    match ParseNodeType(nodeType)
    case Some(k) => Ok(NodeSpec(k, Qualified(nodeType, robotName), params))
    case None => Err("Unknown node type: " + nodeType)
  }

  /** A created node's name tells its type and robot back. */
  lemma CreatedNodeNameSplits(nodeType: string, robotName: string, params: Json.Value)
    requires CreateNode(nodeType, robotName, params).Ok?
    ensures SplitAtColon(CreateNode(nodeType, robotName, params).value.name) == (nodeType, robotName)
  {
    QualifiedSplits(NodeTypeName(CreateNode(nodeType, robotName, params).value.kind), robotName);
  }

  // ---- create_planner ----

  datatype PlannerKind = InterpPlanner | CfsPlanner

  /** What `create_planner` builds; `R` is the shared robot handle. */
  datatype PlannerSpec<R> = PlannerSpec(kind: PlannerKind, name: string, robot: R, json: Json.Value)

  /** `create_planner`: "interp" or "cfs", named like a node. */
  function CreatePlanner<R>(plannerType: string, robotName: string, robot: R, json: Json.Value): (r: Result<PlannerSpec<R>>)
    ensures r.Ok? <==> plannerType == "interp" || plannerType == "cfs"
    ensures r.Ok? ==> (r.value.kind.InterpPlanner? <==> plannerType == "interp")
    ensures r.Ok? ==> r.value.name == plannerType + ":" + robotName
    ensures r.Ok? ==> r.value.robot == robot && r.value.json == json
    ensures r.Err? ==> r.error == "Unknown planner type: " + plannerType
  {
    if plannerType == "interp" then Ok(PlannerSpec(InterpPlanner, Qualified(plannerType, robotName), robot, json))
    else if plannerType == "cfs" then Ok(PlannerSpec(CfsPlanner, Qualified(plannerType, robotName), robot, json))
    else Err("Unknown planner type: " + plannerType)
  }

  // ---- create_controller ----

  /** What `create_controller` builds: a PID controller with its name. */
  datatype ControllerSpec<R> = PidController(name: string, robot: R, json: Json.Value)

  /** `create_controller`: only "pid", and the name is the bare robot name. */
  function CreateController<R>(controllerType: string, robotName: string, robot: R, json: Json.Value): (r: Result<ControllerSpec<R>>)
    ensures r.Ok? <==> controllerType == "pid"
    ensures r.Ok? ==> r.value == PidController(robotName, robot, json)
    ensures r.Err? ==> r.error == "Unknown controller type: " + controllerType
  {
    if controllerType == "pid" then Ok(PidController(robotName, robot, json))
    else Err("Unknown controller type: " + controllerType)
  }

  /** The controller registry does not prefix the type: a PID node and a
      PID controller for the same robot get different names, and the
      controller's name does not split into a type. */
  lemma ControllerNameUnprefixed<R>(robotName: string, robot: R, json: Json.Value)
    requires ':' !in robotName
    ensures CreateNode("pid", robotName, json).value.name != CreateController("pid", robotName, robot, json).value.name
    ensures SplitAtColon(CreateController("pid", robotName, robot, json).value.name).1 == []
  {
    var n := CreateNode("pid", robotName, json).value.name;
    assert |n| == |robotName| + 4;
    NoColonSplit(robotName);
  }

  lemma {:induction false} NoColonSplit(s: string)
    requires ':' !in s
    ensures SplitAtColon(s) == (s, [])
    decreases |s|
  {
    if s != [] {
      assert s[0] != ':';
      NoColonSplit(s[1..]);
      assert [s[0]] + s[1..] == s;
    }
  }

  // ---- init_planner ----

  const I32Min := -0x8000_0000
  const I32Max := 0x7fff_ffff

  /** A JSON number serde reads as an `i32`: whole and within range. */
  predicate IsI32(x: real) {
    x == x.Floor as real && I32Min <= x.Floor <= I32Max
  }

  datatype LinearParams = LinearParams(interpolation: int)
  datatype PlannerState = Unknown | Uninit | Running
  datatype Linear = Linear(state: PlannerState, params: LinearParams)
  datatype PlannerConfig = PlannerConfig(plannerType: string, params: Json.Value)

  function DecodeI32(v: Json.Value): (r: Option<int>)
    ensures r.Some? <==> v.Num? && IsI32(v.n)
    ensures r.Some? ==> r.value as real == v.n
  {
    if v.Num? && IsI32(v.n) then Some(v.n.Floor) else None
  }

  /** serde's derived decoding of `LinearParams`: a map with exactly one
      `interpolation` (other keys ignored), or a one-element sequence. */
  function DecodeLinearParams(v: Json.Value): (r: Option<LinearParams>)
    ensures r.Some? ==> I32Min <= r.value.interpolation <= I32Max
    ensures v.Obj? ==> (r.Some? <==>
      Messages.Occurrences(v.members, "interpolation") == 1 &&
      Json.Get(v.members, "interpolation").Some? &&
      DecodeI32(Json.Get(v.members, "interpolation").value).Some?)
    ensures v.Arr? ==> (r.Some? <==> |v.items| == 1 && DecodeI32(v.items[0]).Some?)
    ensures !v.Obj? && !v.Arr? ==> r.None?
  {
    match v
    case Obj(ms) =>
      if Messages.Occurrences(ms, "interpolation") != 1 then None
      else
        assert Json.Get(ms, "interpolation").Some? by { OccurrenceFound(ms, "interpolation"); }
        var i := DecodeI32(Json.Get(ms, "interpolation").value);
        if i.Some? then Some(LinearParams(i.value)) else None
    case Arr(items) =>
      if |items| != 1 then None
      else
        var i := DecodeI32(items[0]);
        if i.Some? then Some(LinearParams(i.value)) else None
    case _ => None
  }

  lemma {:induction false} OccurrenceFound(ms: seq<Json.Member>, key: string)
    requires Messages.Occurrences(ms, key) > 0
    ensures Json.Get(ms, key).Some?
    decreases |ms|
  {
    if ms[0].key != key {
      OccurrenceFound(ms[1..], key);
      var i :| 0 <= i < |ms[1..]| && ms[1..][i].key == key;
      assert ms[i + 1].key == key;
    }
  }

  function EncodeLinearParams(p: LinearParams): Json.Value {
    Json.Obj([Json.Member("interpolation", Json.Num(p.interpolation as real))])
  }

  /** Parameters in `i32` range decode to themselves. */
  lemma LinearParamsRoundTrip(p: LinearParams)
    requires I32Min <= p.interpolation <= I32Max
    ensures DecodeLinearParams(EncodeLinearParams(p)) == Some(p)
  {
    var ms := EncodeLinearParams(p).members;
    assert ms[1..] == [];
    assert Messages.Occurrences(ms, "interpolation") == 1;
    assert ms[..|ms| - 1] == [];
    assert Json.Get(ms, "interpolation") == Some(Json.Num(p.interpolation as real));
  }

  /** `init_planner`. */
  function InitPlanner(config: Option<PlannerConfig>): (r: Result<Option<Linear>>)
    ensures config.None? ==> r == Ok(None)
    ensures config.Some? && config.value.plannerType != "linear" ==> r == Err("unknow planner")
    ensures config.Some? && config.value.plannerType == "linear" ==>
      (r.Ok? <==> DecodeLinearParams(config.value.params).Some?) &&
      (r.Ok? ==> r.value == Some(Linear(Uninit, DecodeLinearParams(config.value.params).value))) &&
      (r.Err? ==> r.error == "Failed to parse Linear parameters")
  {
    match config
    case None => Ok(None)
    case Some(c) =>
      if c.plannerType != "linear" then Err("unknow planner")
      else match DecodeLinearParams(c.params)
        case Some(p) => Ok(Some(Linear(Uninit, p)))
        case None => Err("Failed to parse Linear parameters")
  }

  /** `get_params` of the linear planner. */
  function LinearGetParams(l: Linear): (r: seq<real>)
    ensures |r| == 1 && r[0] == l.params.interpolation as real
  {
    [l.params.interpolation as real]
  }

  /** A linear configuration written from in-range parameters builds an
      uninitialised linear planner that reports those parameters back. */
  lemma InitPlannerRoundTrip(p: LinearParams)
    requires I32Min <= p.interpolation <= I32Max
    ensures InitPlanner(Some(PlannerConfig("linear", EncodeLinearParams(p)))) == Ok(Some(Linear(Uninit, p)))
    ensures LinearGetParams(Linear(Uninit, p)) == [p.interpolation as real]
  {
    LinearParamsRoundTrip(p);
  }
}
