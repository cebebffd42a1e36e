/** The message types that travel between nodes, robots, sensors and the
    simulator, and their serde_json wire form.

    serde encodes an enum "externally tagged": a unit variant is the string
    of its name, any other variant is a one-member object whose key is the
    variant's name and whose value is the payload (the bare value for one
    field, an array for several).  Vectors have three wire layouts:
    `Vec<f64>` and `SVector<f64, N>` are flat arrays (the latter of exactly N
    numbers), while nalgebra's `DVector<f64>` is its storage triple
    `[data, nrows, ncols]`, where `ncols` is the unit `null` of `Const<1>`.
 */
module Messages {
  import opened Wrappers
  import opened Json

  type Vector = seq<real>

  datatype Quaternion = Quaternion(i: real, j: real, k: real, w: real)
  datatype Translation = Translation(x: real, y: real, z: real)

  /** nalgebra's Isometry3: a rotation quaternion and a translation. */
  datatype Pose = Isometry(rotation: Quaternion, translation: Translation)

  const Identity: Pose := Isometry(Quaternion(0.0, 0.0, 0.0, 1.0), Translation(0.0, 0.0, 0.0))

  /** The message union of the node graph (NodeMessage<DVector<f64>>); the
      control command and track types of the node crates are aliases of it. */
  datatype NodeMessage =
    | NoneNodeMessage
    | Pose(pose: Pose)
    | Joint(joint: Vector)
    | JointList(joints: seq<Vector>)
    | JointWithPeriod(period: real, joint: Vector)
    | JointVel(joint: Vector, vel: Vector)
    | JointVelWithPeriod(period: real, joint: Vector, vel: Vector)
    | JointVelAcc(joint: Vector, vel: Vector, acc: Vector)
    | JointVelAccWithPeriod(period: real, joint: Vector, vel: Vector, acc: Vector)
    | Tau(tau: Vector)
    | TauWithPeriod(period: real, tau: Vector)

  /** The state a simulator reports for one robot (RobotState, SRobotState,
      DRobotState differ only in the vector type). */
  datatype RobotState =
    | Pose(pose: Pose)
    | Joint(joint: Vector)
    | Velocity(vel: Vector)
    | Acceleration(acc: Vector)
    | JointVel(joint: Vector, vel: Vector)
    | JointVelAcc(joint: Vector, vel: Vector, acc: Vector)

  /** The notices a node sends to the task manager. */
  datatype TaskState = RelyRelease(node: string) | PlanEnd(node: string) | ControlEnd(node: string)

  /** The struct form of a timed joint command: period first, then joint. */
  datatype TimedJoint = TimedJoint(period: real, joint: Vector)

  /** What a planner is asked to reach.  `Transform(id, start, end)` is the
      obstacle-motion request the obstacle releaser consumes. */
  datatype Target =
    | NoneTarget
    | Pose(pose: Pose)
    | Joint(joint: Vector)
    | JointList(joints: seq<Vector>)
    | Transform(id: nat, start: Pose, end: Pose)

  /** Target and track of the fixed-size planner workspace. */
  datatype SeriesTarget = Pose(pose: Pose) | Joint(joint: Vector) | EndSpace(pose: Pose, frames: seq<(string, Pose)>)

  datatype SeriesTrack =
    | Pose(pose: Vector)
    | Joint(joint: Vector)
    | Velocity(vel: Vector)
    | Acceleration(acc: Vector)
    | JointVel(joint: Vector, vel: Vector)
    | JointVelAcc(joint: Vector, vel: Vector, acc: Vector)

  // ---------------------------------------------------------------------
  // Pose as a flat vector
  // ---------------------------------------------------------------------

  /** The six numbers a pose is logged as: the quaternion's vector part and
      the translation.  The scalar part w is dropped. */
  function IsoToVec(p: Pose): (v: Vector)
    ensures |v| == 6
    ensures v[..3] == [p.rotation.i, p.rotation.j, p.rotation.k]
    ensures v[3..] == [p.translation.x, p.translation.y, p.translation.z]
  {
    [p.rotation.i, p.rotation.j, p.rotation.k, p.translation.x, p.translation.y, p.translation.z]
  }

  /** Rebuilding a pose from the six numbers and a separately known w. */
  function VecToIso(v: Vector, w: real): Pose
    requires |v| == 6
  {
    Isometry(Quaternion(v[0], v[1], v[2], w), Translation(v[3], v[4], v[5]))
  }

  /** The six numbers determine the pose once w is known. */
  lemma IsoToVecInverse(p: Pose)
    ensures VecToIso(IsoToVec(p), p.rotation.w) == p
  {
  }

  /** The flattening forgets w: poses that differ only in w flatten alike. */
  lemma IsoToVecForgetsW(p: Pose, w: real)
    ensures IsoToVec(p) == IsoToVec(p.(rotation := p.rotation.(w := w)))
    ensures w != p.rotation.w ==> p != p.(rotation := p.rotation.(w := w))
  {
  }

  // ---------------------------------------------------------------------
  // Constraint sets of the optimisation problems
  // ---------------------------------------------------------------------

  datatype Constraint =
    | NoConstraint
    | Zero
    | Equared(b: Vector)
    | AffineSpace
    | EpigraphSquaredNorm(bound: real)
    | FiniteSet(points: seq<Vector>)
    | Halfspace(normal: Vector, offset: real)
    | Hyperplane(normal: Vector, offset: real)
    | Rectangle(lower: Vector, upper: Vector)
    | Simplex
    | SecondOrderCone
    | Intersection(parts: seq<Constraint>)
    | Union(parts: seq<Constraint>)
    | CartesianProduct(indices: seq<nat>, parts: seq<Constraint>)

  predicate IsComposite(c: Constraint) {
    c.Intersection? || c.Union? || c.CartesianProduct?
  }

  /** Adding a part to a composite constraint; the index is kept only by a
      Cartesian product.  Any other constraint panics. */
  function PushConstraint(c: Constraint, index: nat, con: Constraint): (r: Result<Constraint>)
    ensures r.Ok? <==> IsComposite(c)
    ensures r.Err? ==> r.error == "Only CartesianProduct and Intersection can push"
    ensures r.Ok? ==> IsComposite(r.value) && r.value.parts == c.parts + [con]
    ensures r.Ok? ==> r.value.Intersection? == c.Intersection? && r.value.Union? == c.Union?
    ensures r.Ok? && c.CartesianProduct? ==> r.value.CartesianProduct? && r.value.indices == c.indices + [index]
  {
    if c.CartesianProduct? then Ok(CartesianProduct(c.indices + [index], c.parts + [con]))
    else if c.Intersection? then Ok(Intersection(c.parts + [con]))
    else if c.Union? then Ok(Union(c.parts + [con]))
    else Err("Only CartesianProduct and Intersection can push")
  }

  /** A Cartesian product whose index and part lists have the same length
      keeps them aligned: the pushed index names the pushed part. */
  lemma PushKeepsProductAligned(idx: seq<nat>, parts: seq<Constraint>, index: nat, con: Constraint)
    requires |idx| == |parts|
    ensures var r := PushConstraint(CartesianProduct(idx, parts), index, con);
      r.Ok? && |r.value.indices| == |r.value.parts|
      && r.value.indices[|parts|] == index && r.value.parts[|parts|] == con
  {
  }

  // ---------------------------------------------------------------------
  // Numbers and vectors on the wire
  // ---------------------------------------------------------------------

  datatype VecLayout =
    | Flat         // Vec<f64>
    | Fixed(n: nat)  // SVector<f64, n>
    | Dyn          // DVector<f64>

  function NumsOf(xs: seq<real>): (r: seq<Value>)
    ensures |r| == |xs| && forall i :: 0 <= i < |xs| ==> r[i] == Num(xs[i])
  {
    if |xs| == 0 then [] else [Num(xs[0])] + NumsOf(xs[1..])
  }

  function RealsOf(items: seq<Value>): (r: Result<seq<real>>)
    ensures r.Ok? <==> forall i :: 0 <= i < |items| ==> items[i].Num?
    ensures r.Ok? ==> |r.value| == |items| && forall i :: 0 <= i < |items| ==> r.value[i] == items[i].n
  {
    if |items| == 0 then Ok([])
    else if !items[0].Num? then Err("invalid type: expected f64")
    else
      match RealsOf(items[1..])
      case Err(e) => Err(e)
      case Ok(rest) => Ok([items[0].n] + rest)
  }

  function DecodeReal(j: Value): (r: Result<real>)
    ensures r.Ok? <==> j.Num?
    ensures r.Ok? ==> r.value == j.n
  {
    if j.Num? then Ok(j.n) else Err("invalid type: expected f64")
  }

  function EncodeVector(v: Vector, l: VecLayout): Value {
    if l.Dyn? then Arr([Arr(NumsOf(v)), Num(|v| as real), Null]) else Arr(NumsOf(v))
  }

  /** A DVector is accepted only when its row count matches its data. */
  function DecodeVector(j: Value, l: VecLayout): (r: Result<Vector>)
  {
    match l
    case Flat =>
      if j.Arr? then RealsOf(j.items) else Err("invalid type: expected a sequence")
    case Fixed(n) =>
      if j.Arr? && |j.items| == n then RealsOf(j.items) else Err("invalid length")
    case Dyn =>
      if j.Arr? && |j.items| == 3 && j.items[0].Arr? && j.items[1].Num? && j.items[2] == Null then
        match RealsOf(j.items[0].items)
        case Err(e) => Err(e)
        case Ok(data) =>
          if j.items[1].n == |data| as real then Ok(data) else Err("Matrix data dimension mismatch")
      else Err("invalid type: expected (data, nrows, ncols)")
  }

  predicate FitsVector(v: Vector, l: VecLayout) {
    l.Fixed? ==> |v| == l.n
  }

  lemma RealsOfNums(xs: seq<real>)
    ensures RealsOf(NumsOf(xs)) == Ok(xs)
  {
    var r := RealsOf(NumsOf(xs));
    assert r.Ok?;
    assert r.value == xs;
  }

  /** Every vector reads back in the layout it was written in. */
  lemma VectorRoundTrip(v: Vector, l: VecLayout)
    requires FitsVector(v, l)
    ensures DecodeVector(EncodeVector(v, l), l) == Ok(v)
  {
    RealsOfNums(v);
  }

  /** A flat list of numbers is never a DVector: its first item is not an
      array, or it does not have three items. */
  lemma FlatIsNotDyn(v: Vector)
    ensures DecodeVector(EncodeVector(v, Flat), Dyn).Err?
  {
  }

  function EncodeVectors(vs: seq<Vector>, l: VecLayout): (r: seq<Value>)
    ensures |r| == |vs| && forall i :: 0 <= i < |vs| ==> r[i] == EncodeVector(vs[i], l)
  {
    if |vs| == 0 then [] else [EncodeVector(vs[0], l)] + EncodeVectors(vs[1..], l)
  }

  function DecodeVectors(items: seq<Value>, l: VecLayout): Result<seq<Vector>> {
    if |items| == 0 then Ok([])
    else
      match DecodeVector(items[0], l)
      case Err(e) => Err(e)
      case Ok(v) =>
        match DecodeVectors(items[1..], l)
        case Err(e) => Err(e)
        case Ok(vs) => Ok([v] + vs)
  }

  lemma {:induction false} VectorsRoundTrip(vs: seq<Vector>, l: VecLayout)
    requires forall i :: 0 <= i < |vs| ==> FitsVector(vs[i], l)
    ensures DecodeVectors(EncodeVectors(vs, l), l) == Ok(vs)
  {
    if |vs| > 0 {
      VectorRoundTrip(vs[0], l);
      VectorsRoundTrip(vs[1..], l);
      assert EncodeVectors(vs, l)[1..] == EncodeVectors(vs[1..], l);
      assert [vs[0]] + vs[1..] == vs;
    }
  }

  // ---------------------------------------------------------------------
  // Poses on the wire
  // ---------------------------------------------------------------------

  function EncodePose(p: Pose): Value {
    Obj([Member("rotation", Arr(NumsOf([p.rotation.i, p.rotation.j, p.rotation.k, p.rotation.w]))),
         Member("translation", Arr(NumsOf([p.translation.x, p.translation.y, p.translation.z])))])
  }

  function Occurrences(ms: seq<Member>, key: string): nat {
    if |ms| == 0 then 0 else (if ms[0].key == key then 1 else 0) + Occurrences(ms[1..], key)
  }

  /** A key occurs in an object exactly when some member carries it. */
  lemma {:induction false} OccurrencesPositive(ms: seq<Member>, key: string)
    ensures Occurrences(ms, key) > 0 <==> exists i :: 0 <= i < |ms| && ms[i].key == key
  {
    if |ms| > 0 {
      OccurrencesPositive(ms[1..], key);
      if ms[0].key != key && Occurrences(ms[1..], key) == 0 {
        assert forall i :: 0 <= i < |ms| ==> ms[i].key != key by {
          forall i | 0 <= i < |ms|
            ensures ms[i].key != key
          {
            if i > 0 {
              assert ms[i] == ms[1..][i - 1];
            }
          }
        }
      } else if ms[0].key != key {
        var i :| 0 <= i < |ms[1..]| && ms[1..][i].key == key;
        assert ms[i + 1] == ms[1..][i];
      }
    }
  }

  /** A struct field: read when the key occurs exactly once, "missing field"
      when it does not occur and "duplicate field" when it occurs twice or
      more. */
  function Field(ms: seq<Member>, key: string): (r: Result<Value>)
    ensures r.Ok? <==> Occurrences(ms, key) == 1
    ensures r.Ok? ==> Get(ms, key) == Some(r.value)
    ensures Occurrences(ms, key) == 0 ==> r == Err("missing field `" + key + "`")
    ensures Occurrences(ms, key) > 1 ==> r == Err("duplicate field `" + key + "`")
  {
    var n := Occurrences(ms, key);
    if n == 0 then Err("missing field `" + key + "`")
    else if n > 1 then Err("duplicate field `" + key + "`")
    else
      OccurrencesPositive(ms, key);
      match Get(ms, key)
      case Some(v) => Ok(v)
      case None => Err("missing field `" + key + "`")
  }

  lemma OccurrencesOfPair(ms: seq<Member>, key: string)
    requires |ms| == 2 && ms[0].key != ms[1].key
    requires key == ms[0].key || key == ms[1].key
    ensures Occurrences(ms, key) == 1
  {
    assert ms[1..][1..] == [];
    assert Occurrences(ms[1..][1..], key) == 0;
    assert Occurrences(ms[1..], key) == if ms[1].key == key then 1 else 0;
  }

  function DecodeQuaternion(j: Value): Result<Quaternion> {
    var c :- DecodeVector(j, Fixed(4));
    Ok(Quaternion(c[0], c[1], c[2], c[3]))
  }

  function DecodeTranslation(j: Value): Result<Translation> {
    var c :- DecodeVector(j, Fixed(3));
    Ok(Translation(c[0], c[1], c[2]))
  }

  /** An Isometry3 as a map with `rotation` and `translation`, or as the
      two-element sequence serde also accepts for a struct. */
  function DecodePose(j: Value): Result<Pose> {
    match j
    case Obj(ms) =>
      var r :- Field(ms, "rotation");
      var t :- Field(ms, "translation");
      var q :- DecodeQuaternion(r);
      var tr :- DecodeTranslation(t);
      Ok(Isometry(q, tr))
    case Arr(items) =>
      if |items| != 2 then Err("invalid length")
      else
        var q :- DecodeQuaternion(items[0]);
        var tr :- DecodeTranslation(items[1]);
        Ok(Isometry(q, tr))
    case _ => Err("invalid type: expected struct Isometry")
  }

  lemma PoseRoundTrip(p: Pose)
    ensures DecodePose(EncodePose(p)) == Ok(p)
  {
    var q := [p.rotation.i, p.rotation.j, p.rotation.k, p.rotation.w];
    var tr := [p.translation.x, p.translation.y, p.translation.z];
    VectorRoundTrip(q, Fixed(4));
    VectorRoundTrip(tr, Fixed(3));
    var ms := EncodePose(p).members;
    OccurrencesOfPair(ms, "rotation");
    OccurrencesOfPair(ms, "translation");
  }

  // ---------------------------------------------------------------------
  // Enums on the wire
  // ---------------------------------------------------------------------

  function Tagged(tag: string, payload: Value): Value {
    Obj([Member(tag, payload)])
  }

  /** The variant's name and its payload, for the one-member object form. */
  function Variant(j: Value): (r: Result<(string, Value)>)
    ensures r.Ok? ==> j == Tagged(r.value.0, r.value.1)
  {
    if j.Obj? && |j.members| == 1 then Ok((j.members[0].key, j.members[0].value))
    else Err("invalid type: expected enum")
  }

  /** The fields of a tuple variant: an array of exactly `n` values. */
  function TupleFields(j: Value, n: nat): (r: Result<seq<Value>>)
    ensures r.Ok? ==> |r.value| == n && j == Arr(r.value)
  {
    if j.Arr? && |j.items| == n then Ok(j.items) else Err("invalid length")
  }

  const NodeMessageTags: set<string> := {
    "NoneNodeMessage", "Pose", "Joint", "JointList", "JointWithPeriod", "JointVel",
    "JointVelWithPeriod", "JointVelAcc", "JointVelAccWithPeriod", "Tau", "TauWithPeriod" }

  function NodeMessageTag(m: NodeMessage): (tag: string)
    ensures tag in NodeMessageTags
  {
    match m
    case NoneNodeMessage => "NoneNodeMessage"
    case Pose(_) => "Pose"
    case Joint(_) => "Joint"
    case JointList(_) => "JointList"
    case JointWithPeriod(_, _) => "JointWithPeriod"
    case JointVel(_, _) => "JointVel"
    case JointVelWithPeriod(_, _, _) => "JointVelWithPeriod"
    case JointVelAcc(_, _, _) => "JointVelAcc"
    case JointVelAccWithPeriod(_, _, _, _) => "JointVelAccWithPeriod"
    case Tau(_) => "Tau"
    case TauWithPeriod(_, _) => "TauWithPeriod"
  }

  function EncodeNodeMessage(m: NodeMessage, l: VecLayout): Value {
    var tag := NodeMessageTag(m);
    match m
    case NoneNodeMessage => Str(tag)
    case Pose(p) => Tagged(tag, EncodePose(p))
    case Joint(q) => Tagged(tag, EncodeVector(q, l))
    case JointList(qs) => Tagged(tag, Arr(EncodeVectors(qs, l)))
    case JointWithPeriod(t, q) => Tagged(tag, Arr([Num(t), EncodeVector(q, l)]))
    case JointVel(q, v) => Tagged(tag, Arr([EncodeVector(q, l), EncodeVector(v, l)]))
    case JointVelWithPeriod(t, q, v) => Tagged(tag, Arr([Num(t), EncodeVector(q, l), EncodeVector(v, l)]))
    case JointVelAcc(q, v, a) => Tagged(tag, Arr([EncodeVector(q, l), EncodeVector(v, l), EncodeVector(a, l)]))
    case JointVelAccWithPeriod(t, q, v, a) =>
      Tagged(tag, Arr([Num(t), EncodeVector(q, l), EncodeVector(v, l), EncodeVector(a, l)]))
    case Tau(u) => Tagged(tag, EncodeVector(u, l))
    case TauWithPeriod(t, u) => Tagged(tag, Arr([Num(t), EncodeVector(u, l)]))
  }

  /** A period followed by `n` vectors. */
  function TimedVectors(j: Value, n: nat, l: VecLayout): (r: Result<(real, seq<Vector>)>)
    ensures r.Ok? ==> |r.value.1| == n
  {
    var fs :- TupleFields(j, n + 1);
    var t :- DecodeReal(fs[0]);
    var vs :- DecodeVectors(fs[1..], l);
    if |vs| == n then Ok((t, vs)) else Err("invalid length")
  }

  /** `n` vectors. */
  function Vectors(j: Value, n: nat, l: VecLayout): (r: Result<seq<Vector>>)
    ensures r.Ok? ==> |r.value| == n
  {
    var fs :- TupleFields(j, n);
    var vs :- DecodeVectors(fs, l);
    if |vs| == n then Ok(vs) else Err("invalid length")
  }

  function NodeMessagePayload(tag: string, c: Value, l: VecLayout): Result<NodeMessage> {
    if tag == "NoneNodeMessage" then
      if c == Null then Ok(NoneNodeMessage) else Err("invalid type: expected unit")
    else if tag == "Pose" then
      var p :- DecodePose(c); Ok(NodeMessage.Pose(p))
    else if tag == "Joint" then
      var q :- DecodeVector(c, l); Ok(NodeMessage.Joint(q))
    else if tag == "JointList" then
      if !c.Arr? then Err("invalid type: expected a sequence")
      else var qs :- DecodeVectors(c.items, l); Ok(NodeMessage.JointList(qs))
    else if tag == "JointWithPeriod" then
      var tv :- TimedVectors(c, 1, l); Ok(NodeMessage.JointWithPeriod(tv.0, tv.1[0]))
    else if tag == "JointVel" then
      var vs :- Vectors(c, 2, l); Ok(NodeMessage.JointVel(vs[0], vs[1]))
    else if tag == "JointVelWithPeriod" then
      var tv :- TimedVectors(c, 2, l); Ok(NodeMessage.JointVelWithPeriod(tv.0, tv.1[0], tv.1[1]))
    else if tag == "JointVelAcc" then
      var vs :- Vectors(c, 3, l); Ok(NodeMessage.JointVelAcc(vs[0], vs[1], vs[2]))
    else if tag == "JointVelAccWithPeriod" then
      var tv :- TimedVectors(c, 3, l); Ok(NodeMessage.JointVelAccWithPeriod(tv.0, tv.1[0], tv.1[1], tv.1[2]))
    else if tag == "Tau" then
      var u :- DecodeVector(c, l); Ok(NodeMessage.Tau(u))
    else if tag == "TauWithPeriod" then
      var tv :- TimedVectors(c, 1, l); Ok(NodeMessage.TauWithPeriod(tv.0, tv.1[0]))
    else Err("unknown variant `" + tag + "`")
  }

  function DecodeNodeMessage(j: Value, l: VecLayout): Result<NodeMessage> {
    if j.Str? then
      if j.s == "NoneNodeMessage" then Ok(NoneNodeMessage)
      else if j.s in NodeMessageTags then Err("invalid type: unit variant")
      else Err("unknown variant `" + j.s + "`")
    else
      var tc :- Variant(j);
      NodeMessagePayload(tc.0, tc.1, l)
  }

  predicate FitsNodeMessage(m: NodeMessage, l: VecLayout) {
    match m
    case NoneNodeMessage => true
    case Pose(_) => true
    case Joint(q) => FitsVector(q, l)
    case JointList(qs) => forall i :: 0 <= i < |qs| ==> FitsVector(qs[i], l)
    case JointWithPeriod(_, q) => FitsVector(q, l)
    case JointVel(q, v) => FitsVector(q, l) && FitsVector(v, l)
    case JointVelWithPeriod(_, q, v) => FitsVector(q, l) && FitsVector(v, l)
    case JointVelAcc(q, v, a) => FitsVector(q, l) && FitsVector(v, l) && FitsVector(a, l)
    case JointVelAccWithPeriod(_, q, v, a) => FitsVector(q, l) && FitsVector(v, l) && FitsVector(a, l)
    case Tau(u) => FitsVector(u, l)
    case TauWithPeriod(_, u) => FitsVector(u, l)
  }

  lemma VectorsOfFields(vs: seq<Vector>, l: VecLayout)
    requires forall i :: 0 <= i < |vs| ==> FitsVector(vs[i], l)
    ensures Vectors(Arr(EncodeVectors(vs, l)), |vs|, l) == Ok(vs)
  {
    VectorsRoundTrip(vs, l);
  }

  lemma TimedVectorsOfFields(t: real, vs: seq<Vector>, l: VecLayout)
    requires forall i :: 0 <= i < |vs| ==> FitsVector(vs[i], l)
    ensures TimedVectors(Arr([Num(t)] + EncodeVectors(vs, l)), |vs|, l) == Ok((t, vs))
  {
    VectorsRoundTrip(vs, l);
    assert ([Num(t)] + EncodeVectors(vs, l))[1..] == EncodeVectors(vs, l);
  }

  /** The payload a non-unit node message is tagged with. */
  function NodeMessageContent(m: NodeMessage, l: VecLayout): (c: Value)
    requires !m.NoneNodeMessage?
    ensures EncodeNodeMessage(m, l) == Tagged(NodeMessageTag(m), c)
  {
    EncodeNodeMessage(m, l).members[0].value
  }

  lemma TaggedStep(tag: string, c: Value, l: VecLayout)
    ensures DecodeNodeMessage(Tagged(tag, c), l) == NodeMessagePayload(tag, c, l)
  {
  }

  lemma TimedPayload(t: real, q: Vector, l: VecLayout)
    requires FitsVector(q, l)
    ensures TimedVectors(Arr([Num(t), EncodeVector(q, l)]), 1, l) == Ok((t, [q]))
  {
    TimedVectorsOfFields(t, [q], l);
    assert [Num(t), EncodeVector(q, l)] == [Num(t)] + EncodeVectors([q], l);
  }

  lemma TimedPayload2(t: real, q: Vector, v: Vector, l: VecLayout)
    requires FitsVector(q, l) && FitsVector(v, l)
    ensures TimedVectors(Arr([Num(t), EncodeVector(q, l), EncodeVector(v, l)]), 2, l) == Ok((t, [q, v]))
  {
    TimedVectorsOfFields(t, [q, v], l);
    assert [Num(t), EncodeVector(q, l), EncodeVector(v, l)] == [Num(t)] + EncodeVectors([q, v], l);
  }

  lemma TimedPayload3(t: real, q: Vector, v: Vector, a: Vector, l: VecLayout)
    requires FitsVector(q, l) && FitsVector(v, l) && FitsVector(a, l)
    ensures TimedVectors(Arr([Num(t), EncodeVector(q, l), EncodeVector(v, l), EncodeVector(a, l)]), 3, l)
         == Ok((t, [q, v, a]))
  {
    TimedVectorsOfFields(t, [q, v, a], l);
    assert [Num(t), EncodeVector(q, l), EncodeVector(v, l), EncodeVector(a, l)]
        == [Num(t)] + EncodeVectors([q, v, a], l);
  }

  lemma PairPayload(q: Vector, v: Vector, l: VecLayout)
    requires FitsVector(q, l) && FitsVector(v, l)
    ensures Vectors(Arr([EncodeVector(q, l), EncodeVector(v, l)]), 2, l) == Ok([q, v])
  {
    VectorsOfFields([q, v], l);
    assert [EncodeVector(q, l), EncodeVector(v, l)] == EncodeVectors([q, v], l);
  }

  lemma TriplePayload(q: Vector, v: Vector, a: Vector, l: VecLayout)
    requires FitsVector(q, l) && FitsVector(v, l) && FitsVector(a, l)
    ensures Vectors(Arr([EncodeVector(q, l), EncodeVector(v, l), EncodeVector(a, l)]), 3, l) == Ok([q, v, a])
  {
    VectorsOfFields([q, v, a], l);
    assert [EncodeVector(q, l), EncodeVector(v, l), EncodeVector(a, l)] == EncodeVectors([q, v, a], l);
  }

  /** Each non-unit variant's payload decodes under its own tag. */
  lemma NodeMessagePayloadRoundTrip(m: NodeMessage, l: VecLayout)
    requires !m.NoneNodeMessage? && FitsNodeMessage(m, l)
    ensures NodeMessagePayload(NodeMessageTag(m), NodeMessageContent(m, l), l) == Ok(m)
  {
    match m
    case Pose(p) => PoseRoundTrip(p);
    case Joint(q) => VectorRoundTrip(q, l);
    case JointList(qs) => VectorsRoundTrip(qs, l);
    case JointWithPeriod(t, q) => TimedPayload(t, q, l);
    case JointVel(q, v) => PairPayload(q, v, l);
    case JointVelWithPeriod(t, q, v) => TimedPayload2(t, q, v, l);
    case JointVelAcc(q, v, a) => TriplePayload(q, v, a, l);
    case JointVelAccWithPeriod(t, q, v, a) => TimedPayload3(t, q, v, a, l);
    case Tau(u) => VectorRoundTrip(u, l);
    case TauWithPeriod(t, u) => TimedPayload(t, u, l);
  }

  /** Every node message reads back as itself in the layout it was written
      in; the node crates use the DVector layout. */
  lemma NodeMessageRoundTrip(m: NodeMessage, l: VecLayout)
    requires FitsNodeMessage(m, l)
    ensures DecodeNodeMessage(EncodeNodeMessage(m, l), l) == Ok(m)
  {
    if !m.NoneNodeMessage? {
      TaggedStep(NodeMessageTag(m), NodeMessageContent(m, l), l);
      NodeMessagePayloadRoundTrip(m, l);
    }
  }

  /** A one-member object whose key names no variant is refused. */
  lemma UnknownNodeMessageTag(tag: string, c: Value, l: VecLayout)
    requires tag !in NodeMessageTags
    ensures DecodeNodeMessage(Tagged(tag, c), l).Err?
  {
  }

  // ---------------------------------------------------------------------
  // Robot states, task states, control commands on the wire
  // ---------------------------------------------------------------------

  function RobotStateTag(s: RobotState): string {
    match s
    case Pose(_) => "Pose"
    case Joint(_) => "Joint"
    case Velocity(_) => "Velocity"
    case Acceleration(_) => "Acceleration"
    case JointVel(_, _) => "JointVel"
    case JointVelAcc(_, _, _) => "JointVelAcc"
  }

  /** The text serde accepts for a robot state (the state types derive only
      Deserialize; this is the form a simulator must send). */
  function RobotStateWire(s: RobotState, l: VecLayout): Value {
    var tag := RobotStateTag(s);
    match s
    case Pose(p) => Tagged(tag, EncodePose(p))
    case Joint(q) => Tagged(tag, EncodeVector(q, l))
    case Velocity(v) => Tagged(tag, EncodeVector(v, l))
    case Acceleration(a) => Tagged(tag, EncodeVector(a, l))
    case JointVel(q, v) => Tagged(tag, Arr([EncodeVector(q, l), EncodeVector(v, l)]))
    case JointVelAcc(q, v, a) => Tagged(tag, Arr([EncodeVector(q, l), EncodeVector(v, l), EncodeVector(a, l)]))
  }

  function RobotStatePayload(tag: string, c: Value, l: VecLayout): Result<RobotState> {
    if tag == "Pose" then
      var p :- DecodePose(c); Ok(RobotState.Pose(p))
    else if tag == "Joint" then
      var q :- DecodeVector(c, l); Ok(RobotState.Joint(q))
    else if tag == "Velocity" then
      var v :- DecodeVector(c, l); Ok(RobotState.Velocity(v))
    else if tag == "Acceleration" then
      var a :- DecodeVector(c, l); Ok(RobotState.Acceleration(a))
    else if tag == "JointVel" then
      var vs :- Vectors(c, 2, l); Ok(RobotState.JointVel(vs[0], vs[1]))
    else if tag == "JointVelAcc" then
      var vs :- Vectors(c, 3, l); Ok(RobotState.JointVelAcc(vs[0], vs[1], vs[2]))
    else Err("unknown variant `" + tag + "`")
  }

  /** Decoding a robot state; it has no unit variant, so a bare string is
      always refused. */
  function DecodeRobotState(j: Value, l: VecLayout): Result<RobotState> {
    var tc :- Variant(j);
    RobotStatePayload(tc.0, tc.1, l)
  }

  predicate FitsRobotState(s: RobotState, l: VecLayout) {
    match s
    case Pose(_) => true
    case Joint(q) => FitsVector(q, l)
    case Velocity(v) => FitsVector(v, l)
    case Acceleration(a) => FitsVector(a, l)
    case JointVel(q, v) => FitsVector(q, l) && FitsVector(v, l)
    case JointVelAcc(q, v, a) => FitsVector(q, l) && FitsVector(v, l) && FitsVector(a, l)
  }

  lemma RobotStateRoundTrip(s: RobotState, l: VecLayout)
    requires FitsRobotState(s, l)
    ensures DecodeRobotState(RobotStateWire(s, l), l) == Ok(s)
  {
    match s
    case Pose(p) => PoseRoundTrip(p);
    case Joint(q) => VectorRoundTrip(q, l);
    case Velocity(v) => VectorRoundTrip(v, l);
    case Acceleration(a) => VectorRoundTrip(a, l);
    case JointVel(q, v) => PairPayload(q, v, l);
    case JointVelAcc(q, v, a) => TriplePayload(q, v, a, l);
  }

  /** A list of robot states (Vec<DRobotState>): every element must decode. */
  function DecodeRobotStates(j: Value, l: VecLayout): (r: Result<seq<RobotState>>)
    ensures r.Ok? ==> j.Arr? && |r.value| == |j.items|
  {
    if !j.Arr? then Err("invalid type: expected a sequence") else DecodeRobotStateItems(j.items, l)
  }

  function DecodeRobotStateItems(items: seq<Value>, l: VecLayout): (r: Result<seq<RobotState>>)
    ensures r.Ok? ==> |r.value| == |items|
    ensures r.Ok? ==> forall i :: 0 <= i < |items| ==> DecodeRobotState(items[i], l) == Ok(r.value[i])
    ensures r.Err? <==> exists i :: 0 <= i < |items| && DecodeRobotState(items[i], l).Err?
  {
    if |items| == 0 then Ok([])
    else
      match DecodeRobotState(items[0], l)
      case Err(e) => Err(e)
      case Ok(s) =>
        match DecodeRobotStateItems(items[1..], l)
        case Err(e) =>
          assert exists i :: 0 <= i < |items| && DecodeRobotState(items[i], l).Err? by {
            var i :| 0 <= i < |items[1..]| && DecodeRobotState(items[1..][i], l).Err?;
            assert items[i + 1] == items[1..][i];
          }
          Err(e)
        case Ok(ss) =>
          assert forall i :: 1 <= i < |items| ==> items[i] == items[1..][i - 1];
          Ok([s] + ss)
  }

  function TaskStatePayload(tag: string, c: Value): Result<TaskState> {
    if !c.Str? then Err("invalid type: expected a string")
    else if tag == "RelyRelease" then Ok(RelyRelease(c.s))
    else if tag == "PlanEnd" then Ok(PlanEnd(c.s))
    else if tag == "ControlEnd" then Ok(ControlEnd(c.s))
    else Err("unknown variant `" + tag + "`")
  }

  function DecodeTaskState(j: Value): Result<TaskState> {
    var tc :- Variant(j);
    TaskStatePayload(tc.0, tc.1)
  }

  function TaskStateWire(s: TaskState): Value {
    match s
    case RelyRelease(n) => Tagged("RelyRelease", Str(n))
    case PlanEnd(n) => Tagged("PlanEnd", Str(n))
    case ControlEnd(n) => Tagged("ControlEnd", Str(n))
  }

  lemma TaskStateRoundTrip(s: TaskState)
    ensures DecodeTaskState(TaskStateWire(s)) == Ok(s)
  {
  }

  /** The control command of the fixed-size workspace (ControlCommand and
      ControlCommandN<N>): the node message variants other than
      NoneNodeMessage, Pose and JointList, with the same names. */
  predicate IsControlCommand(m: NodeMessage) {
    !(m.NoneNodeMessage? || m.Pose? || m.JointList?)
  }

  function DecodeControlCommand(j: Value, l: VecLayout): (r: Result<NodeMessage>)
    ensures r.Ok? ==> IsControlCommand(r.value) && FitsNodeMessage(r.value, l)
  {
    var tc :- Variant(j);
    if tc.0 in {"NoneNodeMessage", "Pose", "JointList"} then Err("unknown variant `" + tc.0 + "`")
    else
      var m :- NodeMessagePayload(tc.0, tc.1, l);
      if IsControlCommand(m) && FitsNodeMessage(m, l) then Ok(m) else Err("invalid length")
  }

  /** A control command reads back as itself; ControlCommandN<N> (layout
      Fixed(N)) refuses vectors of any other length. */
  lemma ControlCommandRoundTrip(m: NodeMessage, l: VecLayout)
    requires IsControlCommand(m) && FitsNodeMessage(m, l)
    ensures DecodeControlCommand(EncodeNodeMessage(m, l), l) == Ok(m)
  {
    NodeMessageRoundTrip(m, l);
  }

  /** A ControlCommandN<N> carrying a vector of the wrong length is refused. */
  lemma ControlCommandWrongLength(q: Vector, n: nat)
    requires |q| != n
    ensures DecodeControlCommand(EncodeNodeMessage(NodeMessage.Joint(q), Flat), Fixed(n)).Err?
  {
  }

  /** The timed joint struct, as a map or as a two-element sequence. */
  function DecodeTimedJoint(j: Value): Result<TimedJoint> {
    match j
    case Obj(ms) =>
      var p :- Field(ms, "period");
      var q :- Field(ms, "joint");
      var t :- DecodeReal(p);
      var v :- DecodeVector(q, Flat);
      Ok(TimedJoint(t, v))
    case Arr(items) =>
      if |items| != 2 then Err("invalid length")
      else
        var t :- DecodeReal(items[0]);
        var v :- DecodeVector(items[1], Flat);
        Ok(TimedJoint(t, v))
    case _ => Err("invalid type: expected struct JointWithPeriod")
  }

  function TimedJointWire(tj: TimedJoint): Value {
    Obj([Member("period", Num(tj.period)), Member("joint", EncodeVector(tj.joint, Flat))])
  }

  lemma TimedJointRoundTrip(tj: TimedJoint)
    ensures DecodeTimedJoint(TimedJointWire(tj)) == Ok(tj)
    ensures DecodeTimedJoint(Arr([Num(tj.period), EncodeVector(tj.joint, Flat)])) == Ok(tj)
  {
    VectorRoundTrip(tj.joint, Flat);
    var ms := TimedJointWire(tj).members;
    OccurrencesOfPair(ms, "period");
    OccurrencesOfPair(ms, "joint");
  }
}
