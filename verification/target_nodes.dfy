/** The planner-side task manager of the newer crates: the current task and
    a list of planner names, each with the target queue that planner reads.
    A queue is a shared handle; `Q` stands for it, compared by identity. */
module TargetNodes {
  import opened Wrappers
  import Messages

  datatype RobotTasks = RobotTasks(name: string, targets: seq<Messages.Target>)
  datatype NodeDecl = NodeDecl(nodeType: string, name: string, param: string)
  datatype Task = Task(robotTasks: seq<RobotTasks>, nodes: seq<NodeDecl>)

  datatype TargetNode<Q> = TargetNode(plannerName: string, queue: Q)
  datatype Manager<Q> = Manager(task: Task, targetNodes: seq<TargetNode<Q>>)

  /** `new` (and `Default`): an empty task and no planners. */
  function New<Q>(): (r: Manager<Q>)
    ensures r.task.robotTasks == [] && r.task.nodes == [] && r.targetNodes == []
  {
    Manager(Task([], []), [])
  }

  /** `add_target_node`: append, even when the name is already listed. */
  function AddTargetNode<Q>(m: Manager<Q>, name: string, queue: Q): (r: Manager<Q>)
    ensures r.task == m.task && |r.targetNodes| == |m.targetNodes| + 1
    ensures r.targetNodes[..|m.targetNodes|] == m.targetNodes
    ensures r.targetNodes[|m.targetNodes|] == TargetNode(name, queue)
  {
    m.(targetNodes := m.targetNodes + [TargetNode(name, queue)])
  }

  /** `set_task`: replace the task, keep the planners. */
  function SetTask<Q>(m: Manager<Q>, task: Task): (r: Manager<Q>)
    ensures r.task == task && r.targetNodes == m.targetNodes
  {
    m.(task := task)
  }

  /** Position `i` holds the first planner called `name`. */
  predicate FirstAt<Q>(nodes: seq<TargetNode<Q>>, name: string, i: int) {
    0 <= i < |nodes| && nodes[i].plannerName == name &&
    forall j :: 0 <= j < i ==> nodes[j].plannerName != name
  }

  /** `get_queue_with_name`: the queue of the first planner so named, or
      None when no planner has the name. */
  function QueueWithName<Q>(m: Manager<Q>, name: string): (r: Option<Q>)
    ensures r.None? <==> forall i :: 0 <= i < |m.targetNodes| ==> m.targetNodes[i].plannerName != name
    ensures r.Some? ==> exists i :: FirstAt(m.targetNodes, name, i) && m.targetNodes[i].queue == r.value
  {
    First(m.targetNodes, name)
  }

  function First<Q>(nodes: seq<TargetNode<Q>>, name: string): (r: Option<Q>)
    ensures r.None? <==> forall i :: 0 <= i < |nodes| ==> nodes[i].plannerName != name
    ensures r.Some? ==> exists i :: FirstAt(nodes, name, i) && nodes[i].queue == r.value
  {
    if nodes == [] then None
    else if nodes[0].plannerName == name then
      assert FirstAt(nodes, name, 0);
      Some(nodes[0].queue)
    else
      var r := First(nodes[1..], name);
      assert r.Some? ==> exists i :: FirstAt(nodes, name, i) && nodes[i].queue == r.value by {
        if r.Some? {
          var i :| FirstAt(nodes[1..], name, i) && nodes[1..][i].queue == r.value;
          assert nodes[i + 1] == nodes[1..][i];
          forall j | 1 <= j < i + 1 ensures nodes[j].plannerName != name {
            assert nodes[j] == nodes[1..][j - 1];
          }
          assert FirstAt(nodes, name, i + 1);
        }
      }
      assert r.None? ==> forall i :: 0 <= i < |nodes| ==> nodes[i].plannerName != name by {
        if r.None? {
          forall i | 1 <= i < |nodes| ensures nodes[i].plannerName != name {
            assert nodes[i] == nodes[1..][i - 1];
          }
        }
      }
      r
  }

  /** Only one position can be the first. */
  lemma FirstAtUnique<Q>(nodes: seq<TargetNode<Q>>, name: string, i: int, k: int)
    requires FirstAt(nodes, name, i) && FirstAt(nodes, name, k)
    ensures i == k
  {
  }

  /** A name added again is shadowed: lookups keep finding the first queue. */
  lemma DuplicateNameShadowed<Q>(m: Manager<Q>, name: string, queue: Q)
    requires QueueWithName(m, name).Some?
    ensures QueueWithName(AddTargetNode(m, name, queue), name) == QueueWithName(m, name)
  {
    var r := AddTargetNode(m, name, queue);
    var i :| FirstAt(m.targetNodes, name, i) && m.targetNodes[i].queue == QueueWithName(m, name).value;
    var k :| FirstAt(r.targetNodes, name, k) && r.targetNodes[k].queue == QueueWithName(r, name).value;
    assert forall j :: 0 <= j < |m.targetNodes| ==> r.targetNodes[j] == m.targetNodes[j];
    assert FirstAt(r.targetNodes, name, i);
    FirstAtUnique(r.targetNodes, name, i, k);
  }

  /** A new name is found right after it is added, and other names are
      looked up as before. */
  lemma AddThenFind<Q>(m: Manager<Q>, name: string, queue: Q, other: string)
    requires QueueWithName(m, name).None? && other != name
    ensures QueueWithName(AddTargetNode(m, name, queue), name) == Some(queue)
    ensures QueueWithName(AddTargetNode(m, name, queue), other) == QueueWithName(m, other)
  {
    var r := AddTargetNode(m, name, queue);
    assert r.targetNodes[|m.targetNodes|].plannerName == name;
    assert forall j :: 0 <= j < |m.targetNodes| ==> r.targetNodes[j] == m.targetNodes[j];
    var q := QueueWithName(r, other);
    if q.Some? {
      var k :| FirstAt(r.targetNodes, other, k) && r.targetNodes[k].queue == q.value;
      assert FirstAt(m.targetNodes, other, k);
    }
  }
}
