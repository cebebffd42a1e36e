/** The task graph of the manager: tasks wait on the tasks they rely on, an
    in-degree table counts the waits, and the open set holds the tasks that
    may run.  Rust's `usize` is `nat` here; the open set's iteration order
    is a parameter of `OpenTasks`. */
module TaskDag {
  import opened Wrappers
  import Json
  import Messages

  type TaskId = nat

  /** One node of a task's node graph: kind, inputs, outputs, parameters. */
  datatype NodeSpec = NodeSpec(kind: string, inputs: seq<string>, outputs: seq<string>, param: Json.Value)

  datatype Task = Task(id: TaskId, rely: seq<TaskId>, target: seq<Messages.Target>,
                       nodes: seq<NodeSpec>, edges: seq<(nat, nat)>)

  /** `adj[p]` holds the tasks waiting on `p`; `inDegree[k]` counts the
      waits of `k`. */
  datatype Manager = Manager(tasks: map<TaskId, Task>, adj: map<TaskId, set<TaskId>>,
                             inDegree: map<TaskId, nat>, open: set<TaskId>)

  const Empty := Manager(map[], map[], map[], {})

  const UnwrapNone := "called `Option::unwrap()` on a `None` value"
  const SubtractOverflow := "attempt to subtract with overflow"

  /** The successors of `p`, empty when it has no entry. */
  function Succ(adj: map<TaskId, set<TaskId>>, p: TaskId): set<TaskId> {
    if p in adj then adj[p] else {}
  }

  /** The tasks with an edge into `k`. */
  function Preds(adj: map<TaskId, set<TaskId>>, k: TaskId): set<TaskId> {
    set p | p in adj && k in adj[p]
  }

  function Degree(deg: map<TaskId, nat>, k: TaskId): nat {
    if k in deg then deg[k] else 0
  }

  function Elems(s: seq<TaskId>): set<TaskId> {
    set x | x in s
  }

  predicate HasDuplicate(s: seq<TaskId>) {
    exists i, j :: 0 <= i < j < |s| && s[i] == s[j]
  }

  /** Every task whose count has reached zero is open. */
  predicate OpenWhenFree(m: Manager) {
    forall k :: k in m.inDegree && m.inDegree[k] == 0 ==> k in m.open
  }

  /** Every count equals the number of distinct tasks with an edge into it. */
  predicate Consistent(m: Manager) {
    forall k :: k in m.inDegree ==> m.inDegree[k] == |Preds(m.adj, k)|
  }

  /** No table mentions `id` yet, and no edge points at it. */
  predicate Fresh(m: Manager, id: TaskId) {
    id !in m.inDegree && forall p :: p in m.adj ==> id !in m.adj[p]
  }

  /** The rely loop: one edge `p -> id` for every listed `p`, known or not. */
  function AddEdges(adj: map<TaskId, set<TaskId>>, id: TaskId, rely: seq<TaskId>): (r: map<TaskId, set<TaskId>>)
    ensures forall p :: p in r <==> p in adj || p in rely
    ensures forall p :: Succ(r, p) == Succ(adj, p) + (if p in rely then {id} else {})
    decreases |rely|
  {
    if rely == [] then adj
    else
      var r := AddEdges(adj[rely[0] := Succ(adj, rely[0]) + {id}], id, rely[1..]);
      assert forall p :: p in rely <==> p == rely[0] || p in rely[1..];
      r
  }

  /** `entry(id).or_default()`: an empty successor set for `id` unless it
      has one. */
  function WithEntry(adj: map<TaskId, set<TaskId>>, id: TaskId): (r: map<TaskId, set<TaskId>>)
    ensures r.Keys == adj.Keys + {id}
    ensures forall p :: Succ(r, p) == Succ(adj, p)
  {
    if id in adj then adj else adj[id := {}]
  }

  /** `add_task`: store the task, make sure both tables have its entry, add
      the edges and count every listed predecessor, and open the task when
      its count is zero.  An id added again keeps its old count and adds to
      it. */
  function AddTask(m: Manager, t: Task): (r: Manager)
    ensures r.tasks == m.tasks[t.id := t]
    ensures r.inDegree.Keys == m.inDegree.Keys + {t.id}
    ensures r.inDegree[t.id] == Degree(m.inDegree, t.id) + |t.rely|
    ensures forall k :: k in m.inDegree && k != t.id ==> r.inDegree[k] == m.inDegree[k]
    ensures t.id in r.adj && forall p :: p in r.adj <==> p in m.adj || p == t.id || p in t.rely
    ensures forall p :: Succ(r.adj, p) == Succ(m.adj, p) + (if p in t.rely then {t.id} else {})
    ensures t.id in r.open <==> t.id in m.open || r.inDegree[t.id] == 0
    ensures forall k :: k != t.id ==> (k in r.open <==> k in m.open)
  {
    var deg := m.inDegree[t.id := Degree(m.inDegree, t.id) + |t.rely|];
    Manager(m.tasks[t.id := t], AddEdges(WithEntry(m.adj, t.id), t.id, t.rely), deg,
            if deg[t.id] == 0 then m.open + {t.id} else m.open)
  }

  /** `from_json` after parsing: the tasks added one after another. */
  function FromTasks(ts: seq<Task>): (r: Manager)
    ensures r.tasks.Keys == set t | t in ts :: t.id
    ensures OpenWhenFree(r)
  {
    AddAll(Empty, ts)
  }

  function AddAll(m: Manager, ts: seq<Task>): (r: Manager)
    ensures r.tasks.Keys == m.tasks.Keys + set t | t in ts :: t.id
    ensures OpenWhenFree(m) ==> OpenWhenFree(r)
    decreases |ts|
  {
    if ts == [] then m
    else
      var r := AddAll(AddTask(m, ts[0]), ts[1..]);
      IdsCons(ts);
      if OpenWhenFree(m) then AddKeepsOpen(m, ts[0]); r else r
  }

  /** `add_task` keeps every free task open. */
  lemma AddKeepsOpen(m: Manager, t: Task)
    requires OpenWhenFree(m)
    ensures OpenWhenFree(AddTask(m, t))
  {
    var r := AddTask(m, t);
    forall k | k in r.inDegree && r.inDegree[k] == 0
      ensures k in r.open
    {
      if k != t.id {
        assert k in m.inDegree && m.inDegree[k] == 0;
      }
    }
  }

  lemma IdsCons(ts: seq<Task>)
    requires ts != []
    ensures (set t | t in ts :: t.id) == {ts[0].id} + set t | t in ts[1..] :: t.id
  {
    assert forall t :: t in ts <==> t == ts[0] || t in ts[1..];
  }

  /** `get_open_tasks`: the open ids, in the hash set's iteration order
      `order`, that still name a stored task. */
  function OpenTasks(m: Manager, order: seq<TaskId>): (r: seq<Task>)
    requires forall k :: k in order <==> k in m.open
    ensures |r| <= |order|
    ensures forall x :: x in r <==> exists k :: k in m.open && k in m.tasks && m.tasks[k] == x
  {
    Collect(m.tasks, order)
  }

  function Collect(tasks: map<TaskId, Task>, order: seq<TaskId>): (r: seq<Task>)
    ensures |r| <= |order|
    ensures forall x :: x in r <==> exists i :: 0 <= i < |order| && order[i] in tasks && tasks[order[i]] == x
  {
    if order == [] then []
    else
      var rest := Collect(tasks, order[1..]);
      var r := if order[0] in tasks then [tasks[order[0]]] + rest else rest;
      assert forall x :: x in rest <==> exists i :: 1 <= i < |order| && order[i] in tasks && tasks[order[i]] == x by {
        forall x | x in rest ensures exists i :: 1 <= i < |order| && order[i] in tasks && tasks[order[i]] == x {
          var j :| 0 <= j < |order[1..]| && order[1..][j] in tasks && tasks[order[1..][j]] == x;
          assert order[j + 1] == order[1..][j];
        }
        forall x | exists i :: 1 <= i < |order| && order[i] in tasks && tasks[order[i]] == x ensures x in rest {
          var i :| 1 <= i < |order| && order[i] in tasks && tasks[order[i]] == x;
          assert order[1..][i - 1] == order[i];
        }
      }
      r
  }

  /** The successors whose counts `remove_task` would lower. */
  predicate Lowerable(m: Manager, id: TaskId) {
    forall k :: k in Succ(m.adj, id) ==> k in m.inDegree && m.inDegree[k] > 0
  }

  /** `remove_task`: lower the count of every successor of `id`, opening
      those that reach zero, then erase `id` from the tables and the open
      set.  A successor with no count panics on `unwrap`; one at zero
      underflows.  Successors are visited in hash order, so when both
      faults are present either message may come first; this model reports
      the missing entry. */
  function RemoveTask(m: Manager, id: TaskId): (r: Result<Manager>)
    ensures r.Ok? <==> Lowerable(m, id)
    ensures (exists k :: k in Succ(m.adj, id) && k !in m.inDegree) ==> r == Err(UnwrapNone)
    ensures r.Err? && (forall k :: k in Succ(m.adj, id) ==> k in m.inDegree) ==> r == Err(SubtractOverflow)
    ensures r.Ok? ==>
      r.value.tasks == m.tasks - {id} && r.value.adj == m.adj - {id} &&
      r.value.inDegree.Keys == m.inDegree.Keys - {id} &&
      (forall k :: k in r.value.inDegree ==>
        r.value.inDegree[k] + (if k in Succ(m.adj, id) then 1 else 0) == m.inDegree[k]) &&
      (forall k :: k in r.value.open <==>
        k != id && (k in m.open || (k in Succ(m.adj, id) && m.inDegree[k] == 1)))
    ensures r.Ok? && OpenWhenFree(m) ==> OpenWhenFree(r.value)
  {
    var n := Succ(m.adj, id);
    if exists k :: k in n && k !in m.inDegree then Err(UnwrapNone)
    else if exists k :: k in n && m.inDegree[k] == 0 then Err(SubtractOverflow)
    else
      var deg := map k | k in m.inDegree :: if k in n then m.inDegree[k] - 1 else m.inDegree[k];
      var freed := set k | k in n && deg[k] == 0;
      Ok(Manager(m.tasks - {id}, m.adj - {id}, deg - {id}, (m.open + freed) - {id}))
  }

  /** Removing an id no table knows changes nothing. */
  lemma RemoveUnknown(m: Manager, id: TaskId)
    requires id !in m.tasks && id !in m.adj && id !in m.inDegree && id !in m.open
    ensures RemoveTask(m, id) == Ok(m)
  {
    var r := RemoveTask(m, id).value;
    assert r.tasks == m.tasks && r.adj == m.adj;
    assert r.inDegree == m.inDegree;
    assert r.open == m.open;
  }

  /** Removing a predecessor after its successor was removed panics. */
  lemma SuccessorFirstPanics(m: Manager, p: TaskId, k: TaskId)
    requires k in Succ(m.adj, p) && k != p && RemoveTask(m, k).Ok?
    ensures RemoveTask(RemoveTask(m, k).value, p) == Err(UnwrapNone)
  {
    var m1 := RemoveTask(m, k).value;
    assert k in Succ(m1.adj, p) && k !in m1.inDegree;
  }

  /** A newly added task opens at once exactly when it relies on nothing. */
  lemma AddOpensIffNoRely(m: Manager, t: Task)
    requires t.id !in m.inDegree && t.id !in m.open
    ensures t.id in AddTask(m, t).open <==> t.rely == []
  {
  }

  // ---- The rely count ----

  lemma {:induction false} ElemsBound(s: seq<TaskId>)
    ensures |Elems(s)| <= |s|
    ensures HasDuplicate(s) ==> |Elems(s)| < |s|
  {
    if s != [] {
      ElemsBound(s[1..]);
      assert Elems(s) == {s[0]} + Elems(s[1..]);
      if s[0] in s[1..] {
        assert Elems(s) == Elems(s[1..]);
      } else if HasDuplicate(s) {
        var i, j :| 0 <= i < j < |s| && s[i] == s[j];
        assert i != 0 by { assert s[j] == s[1..][j - 1]; }
        assert s[1..][i - 1] == s[1..][j - 1];
        assert HasDuplicate(s[1..]);
      }
    }
  }

  /** Adding a fresh task draws exactly one edge from each distinct
      predecessor it lists, and none into any other task. */
  lemma PredsAfterAdd(m: Manager, t: Task, r: Manager)
    requires Fresh(m, t.id) && r.adj == AddTask(m, t).adj
    ensures Preds(r.adj, t.id) == Elems(t.rely)
    ensures forall k :: k != t.id ==> Preds(r.adj, k) == Preds(m.adj, k)
  {
    PredsOfAdded(m, t, r.adj);
    forall k | k != t.id
      ensures Preds(r.adj, k) == Preds(m.adj, k)
    {
      PredsOfOther(m, t, r.adj, k);
    }
  }

  lemma PredsOfAdded(m: Manager, t: Task, adj: map<TaskId, set<TaskId>>)
    requires Fresh(m, t.id)
    requires forall p :: Succ(adj, p) == Succ(m.adj, p) + (if p in t.rely then {t.id} else {})
    ensures Preds(adj, t.id) == Elems(t.rely)
  {
    assert forall p :: p in Preds(adj, t.id) <==> t.id in Succ(adj, p);
  }

  lemma PredsOfOther(m: Manager, t: Task, adj: map<TaskId, set<TaskId>>, k: TaskId)
    requires k != t.id
    requires forall p :: Succ(adj, p) == Succ(m.adj, p) + (if p in t.rely then {t.id} else {})
    ensures Preds(adj, k) == Preds(m.adj, k)
  {
    assert forall p :: p in Preds(adj, k) <==> k in Succ(adj, p);
    assert forall p :: p in Preds(m.adj, k) <==> k in Succ(m.adj, p);
  }

  /** As written, a fresh task that lists one predecessor twice is counted
      more waits than it has edges into it, so the manager stops being
      consistent. */
  lemma DuplicateRelyOvercounts(m: Manager, t: Task)
    requires Fresh(m, t.id) && HasDuplicate(t.rely)
    ensures AddTask(m, t).inDegree[t.id] > |Preds(AddTask(m, t).adj, t.id)|
    ensures !Consistent(AddTask(m, t))
  {
    var r := AddTask(m, t);
    PredsAfterAdd(m, t, r);
    ElemsBound(t.rely);
  }

  /** The smallest case: task `k` lists task `p` twice.  Once `p` is
      removed no edge points at `k` any more, yet its count stays at one, so
      no removal can ever open it. */
  lemma DuplicateRelyNeverOpens(p: TaskId, k: TaskId, target: seq<Messages.Target>)
    requires p != k
    ensures var m := AddTask(AddTask(Empty, Task(p, [], target, [], [])), Task(k, [p, p], target, [], []));
      RemoveTask(m, p).Ok? &&
      var after := RemoveTask(m, p).value;
      k in after.tasks && k !in after.open && after.inDegree[k] == 1 &&
      Preds(after.adj, k) == {} &&
      forall q :: RemoveTask(after, q).Ok? ==> k !in RemoveTask(after, q).value.open
  {
    var m := TwoAdded(p, k, target);
    var after := RemovedFirst(m, p, k);
    forall q | RemoveTask(after, q).Ok?
      ensures k !in RemoveTask(after, q).value.open
    {
      StaysClosed(after, q, k);
    }
  }

  /** Removing `p` from the two-task manager leaves `k` closed, counted
      once, with no edge into it. */
  lemma RemovedFirst(m: Manager, p: TaskId, k: TaskId) returns (after: Manager)
    requires p != k && k in m.tasks
    requires m.inDegree.Keys == {p, k} && m.inDegree[k] == 2 && m.open == {p}
    requires Succ(m.adj, p) == {k} && forall q :: q != p ==> Succ(m.adj, q) == {}
    ensures RemoveTask(m, p).Ok? && after == RemoveTask(m, p).value
    ensures k in after.tasks && k !in after.open && after.inDegree[k] == 1 && Preds(after.adj, k) == {}
  {
    assert Lowerable(m, p);
    after := RemoveTask(m, p).value;
    assert after.adj == m.adj - {p};
    forall q
      ensures q !in Preds(after.adj, k)
    {
      if q != p {
        assert Succ(after.adj, q) == Succ(m.adj, q);
      }
    }
  }

  /** A closed task with no edge into it stays closed whatever is removed. */
  lemma StaysClosed(m: Manager, q: TaskId, k: TaskId)
    requires k !in m.open && Preds(m.adj, k) == {} && RemoveTask(m, q).Ok?
    ensures k !in RemoveTask(m, q).value.open
  {
    assert q !in Preds(m.adj, k);
  }

  /** Task `p` with no predecessor, then task `k` listing `p` twice. */
  lemma TwoAdded(p: TaskId, k: TaskId, target: seq<Messages.Target>) returns (m: Manager)
    requires p != k
    ensures m == AddTask(AddTask(Empty, Task(p, [], target, [], [])), Task(k, [p, p], target, [], []))
    ensures m.inDegree.Keys == {p, k} && m.inDegree[k] == 2 && m.open == {p} && k in m.tasks
    ensures Succ(m.adj, p) == {k} && forall q :: q != p ==> Succ(m.adj, q) == {}
  {
    var m0 := AddTask(Empty, Task(p, [], target, [], []));
    assert m0.inDegree.Keys == {p} && m0.open == {p};
    assert forall q :: Succ(m0.adj, q) == {};
    m := AddTask(m0, Task(k, [p, p], target, [], []));
  }

  /** `add_task` counting each predecessor once, as the edge set does. */
  function AddTaskDistinct(m: Manager, t: Task): (r: Manager)
    ensures r.tasks == m.tasks[t.id := t] && r.adj == AddTask(m, t).adj
    ensures r.inDegree == m.inDegree[t.id := Degree(m.inDegree, t.id) + |Elems(t.rely)|]
    ensures t.id in r.open <==> t.id in m.open || r.inDegree[t.id] == 0
    ensures forall k :: k != t.id ==> (k in r.open <==> k in m.open)
  {
    var a := AddTask(m, t);
    var deg := m.inDegree[t.id := Degree(m.inDegree, t.id) + |Elems(t.rely)|];
    Manager(a.tasks, a.adj, deg, if deg[t.id] == 0 then m.open + {t.id} else m.open)
  }

  /** The corrected add keeps every free task open. */
  lemma OpenAfterDistinct(m: Manager, t: Task)
    requires OpenWhenFree(m)
    ensures OpenWhenFree(AddTaskDistinct(m, t))
  {
    var r := AddTaskDistinct(m, t);
    forall k | k in r.inDegree && r.inDegree[k] == 0
      ensures k in r.open
    {
      if k != t.id {
        assert k in m.inDegree && m.inDegree[k] == 0;
      }
    }
  }

  /** The corrected add keeps every count equal to the edges into it. */
  lemma ConsistentAfterDistinct(m: Manager, t: Task)
    requires Consistent(m) && Fresh(m, t.id)
    ensures Consistent(AddTaskDistinct(m, t))
  {
    var r := AddTaskDistinct(m, t);
    PredsAfterAdd(m, t, r);
  }

  /** Removing a task keeps every count equal to the edges into it. */
  lemma RemoveKeepsConsistent(m: Manager, id: TaskId)
    requires Consistent(m) && RemoveTask(m, id).Ok?
    ensures Consistent(RemoveTask(m, id).value)
  {
    var r := RemoveTask(m, id).value;
    forall k | k in r.inDegree
      ensures r.inDegree[k] == |Preds(r.adj, k)|
    {
      assert forall p :: p in Preds(r.adj, k) <==> p in Preds(m.adj, k) && p != id;
      assert Preds(r.adj, k) == Preds(m.adj, k) - {id};
      if k in Succ(m.adj, id) {
        assert id in Preds(m.adj, k);
      } else {
        assert id !in Preds(m.adj, k);
      }
    }
  }

  /** In a consistent manager a task opens as soon as the last task it
      waits on is removed. */
  lemma LastPredecessorOpens(m: Manager, p: TaskId, k: TaskId)
    requires Consistent(m) && Preds(m.adj, k) == {p} && k != p && k in m.inDegree
    requires RemoveTask(m, p).Ok?
    ensures k in RemoveTask(m, p).value.open
  {
    assert p in Preds(m.adj, k);
  }

  /** With the distinct count a repeated predecessor no longer blocks: in a
      consistent manager, a fresh task whose only predecessor is `p`, listed
      any number of times, opens when `p` is removed. */
  lemma DistinctRelyOpens(m0: Manager, p: TaskId, t: Task)
    requires Consistent(m0) && Fresh(m0, t.id) && Lowerable(m0, p)
    requires p != t.id && Elems(t.rely) == {p}
    ensures var m := AddTaskDistinct(m0, t);
      RemoveTask(m, p).Ok? && t.id in RemoveTask(m, p).value.open
  {
    var m := AddTaskDistinct(m0, t);
    ConsistentAfterDistinct(m0, t);
    assert Preds(m.adj, t.id) == {p} by {
      PredsAfterAdd(m0, t, m);
    }
    assert Lowerable(m, p) by {
      assert Succ(m.adj, p) == Succ(m0.adj, p) + {t.id};
    }
    LastPredecessorOpens(m, p, t.id);
  }
}
