/** The obstacle releaser: a node that turns each `Transform(id, start,
    end)` target into a queue of interpolated poses for obstacle `id`, and
    on every update hands each obstacle the next pose of its queue; and
    the sensor record of named collision objects, with its registry.

    The pose interpolation (`lerp_slerp`) and the obstacle list's
    `update_pose` are foreign code and enter as function parameters; the
    obstacle list and the collision object are type parameters.
 */
module Obstacles {
  import opened Wrappers
  import opened Messages

  // ---------------------------------------------------------------------
  // The node's pose table
  // ---------------------------------------------------------------------

  /** One obstacle's pending poses, first to release at the front. */
  datatype PoseQueue = PoseQueue(id: nat, poses: seq<Pose>)

  /** The node state: a list of queues in first-seen id order. */
  type Table = seq<PoseQueue>

  function Ids(t: Table): (ids: seq<nat>)
    ensures |ids| == |t| && forall k :: 0 <= k < |t| ==> ids[k] == t[k].id
  {
    if |t| == 0 then [] else [t[0].id] + Ids(t[1..])
  }

  /** At most one queue per id. */
  predicate UniqueIds(t: Table) {
    forall a, b :: 0 <= a < b < |t| ==> t[a].id != t[b].id
  }

  /** The position of the first queue for `id`, if any (`iter().find`). */
  function Find(t: Table, id: nat): (r: Option<nat>)
    ensures r.Some? ==> (r.value < |t| && t[r.value].id == id &&
      forall k :: 0 <= k < r.value ==> t[k].id != id)
    ensures r.None? ==> forall k :: 0 <= k < |t| ==> t[k].id != id
  {
    if |t| == 0 then None
    else if t[0].id == id then Some(0)
    else
      match Find(t[1..], id)
      case None => None
      case Some(k) => Some(k + 1)
  }

  /** The `interp` poses pushed for one transform, at fractions i/interp
      for i = 0 .. interp-1: the start pose's fraction is included, the end
      pose's is not. */
  function Batch(start: Pose, end: Pose, interp: nat, lerp: (Pose, Pose, real) -> Pose): (b: seq<Pose>)
    ensures |b| == interp
    ensures forall i :: 0 <= i < interp ==> b[i] == lerp(start, end, i as real / interp as real)
  {
    seq(interp, i requires 0 <= i < interp => lerp(start, end, i as real / interp as real))
  }

  /** A Transform target: append its batch to the queue of its id, creating
      that queue at the end of the table when the id is new. */
  function Enqueue(t: Table, id: nat, batch: seq<Pose>): (t': Table)
    ensures Find(t, id).Some? ==> (|t'| == |t| &&
      t'[Find(t, id).value] == PoseQueue(id, t[Find(t, id).value].poses + batch) &&
      forall k :: 0 <= k < |t| && k != Find(t, id).value ==> t'[k] == t[k])
    ensures Find(t, id).None? ==> t' == t + [PoseQueue(id, batch)]
  {
    match Find(t, id)
    case Some(k) => t[k := PoseQueue(id, t[k].poses + batch)]
    case None => t + [PoseQueue(id, batch)]
  }

  /** Enqueueing keeps one queue per id and never removes one: the ids are
      the old ids, with the new one appended if it was not there. */
  lemma EnqueueKeepsIds(t: Table, id: nat, batch: seq<Pose>)
    requires UniqueIds(t)
    ensures UniqueIds(Enqueue(t, id, batch))
    ensures Ids(Enqueue(t, id, batch)) == if id in Ids(t) then Ids(t) else Ids(t) + [id]
  {
    var t' := Enqueue(t, id, batch);
    if Find(t, id).Some? {
      assert id in Ids(t) by { assert Ids(t)[Find(t, id).value] == id; }
      assert Ids(t') == Ids(t);
    } else {
      assert id !in Ids(t);
      assert Ids(t') == Ids(t) + [id];
    }
  }

  /** The poses pending for `id`, empty when the id has no queue. */
  function Pending(t: Table, id: nat): seq<Pose> {
    match Find(t, id)
    case Some(k) => t[k].poses
    case None => []
  }

  /** The same transform sent twice queues its batch twice: the update is
      not idempotent. */
  lemma EnqueueTwice(t: Table, id: nat, batch: seq<Pose>)
    requires UniqueIds(t)
    ensures Pending(Enqueue(Enqueue(t, id, batch), id, batch), id) == Pending(t, id) + batch + batch
  {
    var t1 := Enqueue(t, id, batch);
    EnqueueKeepsIds(t, id, batch);
    PendingAfterEnqueue(t, id, batch);
    PendingAfterEnqueue(t1, id, batch);
  }

  lemma PendingAfterEnqueue(t: Table, id: nat, batch: seq<Pose>)
    ensures Pending(Enqueue(t, id, batch), id) == Pending(t, id) + batch
  {
    var t' := Enqueue(t, id, batch);
    if Find(t, id).None? {
      assert t'[|t|].id == id;
      assert Find(t', id) == Some(|t|) by { FindLast(t, id, batch); }
    } else {
      var k := Find(t, id).value;
      assert Find(t', id) == Some(k) by { FindSame(t, t', id, k); }
    }
  }

  lemma {:induction false} FindLast(t: Table, id: nat, batch: seq<Pose>)
    requires Find(t, id).None?
    ensures Find(t + [PoseQueue(id, batch)], id) == Some(|t|)
  {
    if |t| > 0 {
      assert (t + [PoseQueue(id, batch)])[1..] == t[1..] + [PoseQueue(id, batch)];
      FindLast(t[1..], id, batch);
    }
  }

  /** Two tables whose ids agree up to and including the first match find
      the same position. */
  lemma {:induction false} FindSame(t: Table, u: Table, id: nat, k: nat)
    requires Find(t, id) == Some(k) && |u| == |t| && u[k].id == id
    requires forall j :: 0 <= j < k ==> u[j].id == t[j].id
    ensures Find(u, id) == Some(k)
  {
    if k > 0 {
      assert t[0].id != id;
      assert Find(t[1..], id) == Some(k - 1);
      FindSame(t[1..], u[1..], id, k - 1);
    }
  }

  // ---------------------------------------------------------------------
  // Releasing poses
  // ---------------------------------------------------------------------

  /** One update's release: every non-empty queue gives up its front pose,
      in table order; empty queues are skipped.  The result is the table
      after the pops and the (id, pose) pairs handed over, in order. */
  function Release(t: Table): (r: (Table, seq<(nat, Pose)>))
    ensures |r.0| == |t|
    ensures forall k :: 0 <= k < |t| ==>
      r.0[k].id == t[k].id && r.0[k].poses == (if |t[k].poses| > 0 then t[k].poses[1..] else [])
    ensures |r.1| == |NonEmpty(t)|
    ensures forall k :: 0 <= k < |r.1| ==> r.1[k] == (NonEmpty(t)[k].id, NonEmpty(t)[k].poses[0])
  {
    if |t| == 0 then ([], [])
    else
      var rest := Release(t[1..]);
      var q := t[0];
      if |q.poses| > 0 then ([PoseQueue(q.id, q.poses[1..])] + rest.0, [(q.id, q.poses[0])] + rest.1)
      else ([q] + rest.0, rest.1)
  }

  /** The queues that have something to release, in table order. */
  function NonEmpty(t: Table): (ne: seq<PoseQueue>)
    ensures forall k :: 0 <= k < |ne| ==> |ne[k].poses| > 0
    ensures |ne| <= |t|
  {
    if |t| == 0 then []
    else if |t[0].poses| > 0 then [t[0]] + NonEmpty(t[1..])
    else NonEmpty(t[1..])
  }

  /** The total number of poses still queued. */
  function Backlog(t: Table): nat {
    if |t| == 0 then 0 else |t[0].poses| + Backlog(t[1..])
  }

  /** A release takes exactly one pose from each non-empty queue. */
  lemma {:induction false} ReleaseDrains(t: Table)
    ensures Backlog(Release(t).0) + |Release(t).1| == Backlog(t)
  {
    if |t| > 0 {
      ReleaseDrains(t[1..]);
      assert Release(t).0[1..] == Release(t[1..]).0;
    }
  }

  /** `update_pose(id, pose)` for each released pair, in order. */
  function UpdateAll<L>(list: L, released: seq<(nat, Pose)>, updatePose: (L, nat, Pose) -> L): L
    decreases |released|
  {
    if |released| == 0 then list
    else UpdateAll(updatePose(list, released[0].0, released[0].1), released[1..], updatePose)
  }

  // ---------------------------------------------------------------------
  // The node
  // ---------------------------------------------------------------------

  datatype ReleaserNode<L> = ReleaserNode(interp: nat, inputs: seq<Target>, table: Table, sensor: Option<L>)

  /** `DObstacleReleaser::update`: pop at most one input; a Transform adds
      its batch to its id's queue, anything else is dropped; then, when a
      sensor is attached, release one pose per non-empty queue into it. */
  function Update<L>(n: ReleaserNode<L>, lerp: (Pose, Pose, real) -> Pose,
                     updatePose: (L, nat, Pose) -> L): (n': ReleaserNode<L>)
    ensures n'.interp == n.interp
    ensures n'.inputs == if |n.inputs| > 0 then n.inputs[1..] else []
    ensures n.sensor.None? ==> n'.sensor.None? && n'.table == Enqueued(n, lerp)
    ensures n.sensor.Some? ==> (n'.table == Release(Enqueued(n, lerp)).0 &&
      n'.sensor == Some(UpdateAll(n.sensor.value, Release(Enqueued(n, lerp)).1, updatePose)))
  {
    var t := Enqueued(n, lerp);
    var inputs := if |n.inputs| > 0 then n.inputs[1..] else [];
    match n.sensor
    case None => n.(inputs := inputs, table := t)
    case Some(list) =>
      var r := Release(t);
      n.(inputs := inputs, table := r.0, sensor := Some(UpdateAll(list, r.1, updatePose)))
  }

  /** The table after the input step of an update. */
  function Enqueued<L>(n: ReleaserNode<L>, lerp: (Pose, Pose, real) -> Pose): (t: Table)
    ensures |n.inputs| == 0 || !n.inputs[0].Transform? ==> t == n.table
  {
    if |n.inputs| > 0 && n.inputs[0].Transform? then
      var tr := n.inputs[0];
      Enqueue(n.table, tr.id, Batch(tr.start, tr.end, n.interp, lerp))
    else n.table
  }

  /** An update keeps one queue per id and never drops an id; a Transform
      for a new id adds exactly its queue at the end, holding the batch
      minus the pose released at once when a sensor is attached. */
  lemma UpdateKeepsTable<L>(n: ReleaserNode<L>, lerp: (Pose, Pose, real) -> Pose,
                            updatePose: (L, nat, Pose) -> L)
    requires UniqueIds(n.table)
    ensures var n' := Update(n, lerp, updatePose);
      UniqueIds(n'.table) && |Ids(n.table)| <= |Ids(n'.table)| && Ids(n'.table)[..|n.table|] == Ids(n.table)
  {
    var t := Enqueued(n, lerp);
    if |n.inputs| > 0 && n.inputs[0].Transform? {
      var tr := n.inputs[0];
      EnqueueKeepsIds(n.table, tr.id, Batch(tr.start, tr.end, n.interp, lerp));
    }
    assert Ids(t)[..|n.table|] == Ids(n.table);
    var n' := Update(n, lerp, updatePose);
    assert Ids(n'.table) == Ids(t);
  }

  /** With no sensor attached nothing is released: a transform's whole
      batch stays queued. */
  lemma NoSensorNoRelease<L>(n: ReleaserNode<L>, lerp: (Pose, Pose, real) -> Pose,
                             updatePose: (L, nat, Pose) -> L)
    requires n.sensor.None? && |n.inputs| > 0 && n.inputs[0].Transform?
    ensures var tr := n.inputs[0];
      Pending(Update(n, lerp, updatePose).table, tr.id) ==
        Pending(n.table, tr.id) + Batch(tr.start, tr.end, n.interp, lerp)
  {
    var tr := n.inputs[0];
    PendingAfterEnqueue(n.table, tr.id, Batch(tr.start, tr.end, n.interp, lerp));
  }

  // ---------------------------------------------------------------------
  // The sensor record
  // ---------------------------------------------------------------------

  /** A named list of labelled collision objects. */
  datatype Releaser<C> = Releaser(name: string, obstacle: seq<(string, C)>)

  /** `new` / `from_name`: the name, and no obstacles. */
  function FromName<C>(name: string): (r: Releaser<C>)
    ensures GetName(r) == name && GetCollision(r) == []
  {
    Releaser(name, [])
  }

  function GetName<C>(r: Releaser<C>): string {
    r.name
  }

  /** `get_collision`: the objects without their labels, in order. */
  function GetCollision<C>(r: Releaser<C>): (cs: seq<C>)
    ensures |cs| == |r.obstacle| && forall k :: 0 <= k < |cs| ==> cs[k] == r.obstacle[k].1
  {
    Objects(r.obstacle)
  }

  function Objects<C>(xs: seq<(string, C)>): (cs: seq<C>)
    ensures |cs| == |xs| && forall k :: 0 <= k < |cs| ==> cs[k] == xs[k].1
  {
    if |xs| == 0 then [] else [xs[0].1] + Objects(xs[1..])
  }

  /** `set_params`: the decoded list replaces the old one; a list that does
      not decode panics on the `unwrap`. */
  function SetParams<C>(r: Releaser<C>, decoded: Result<seq<(string, C)>>): (r': Result<Releaser<C>>)
    ensures r'.Ok? <==> decoded.Ok?
    ensures r'.Ok? ==> GetName(r'.value) == GetName(r)
  {
    var obstacle :- decoded;
    Ok(r.(obstacle := obstacle))
  }

  /** Setting the parameters forgets every earlier obstacle: the result
      depends on the name and the new list only. */
  lemma SetParamsReplaces<C>(a: Releaser<C>, b: Releaser<C>, xs: seq<(string, C)>)
    requires GetName(a) == GetName(b)
    ensures SetParams(a, Ok(xs)) == SetParams(b, Ok(xs))
    ensures GetCollision(SetParams(a, Ok(xs)).value) == seq(|xs|, k requires 0 <= k < |xs| => xs[k].1)
  {
  }

  // ---------------------------------------------------------------------
  // The sensor registry
  // ---------------------------------------------------------------------

  datatype Sensor<C> = ObstacleReleaser(releaser: Releaser<C>)

  /** `create_sensor`: only "obstacle_releaser" is known, and it starts
      empty under the given name; any other type panics naming it. */
  function CreateSensor<C>(sensorType: string, name: string): (r: Result<Sensor<C>>)
    ensures r.Ok? <==> sensorType == "obstacle_releaser"
    ensures r.Ok? ==> r.value.releaser == FromName(name)
    ensures r.Err? ==> r.error == "Sensor type not found," + sensorType
  {
    if sensorType == "obstacle_releaser" then Ok(ObstacleReleaser(FromName(name)))
    else Err("Sensor type not found," + sensorType)
  }
}
