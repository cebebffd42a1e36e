/** The node-lifecycle counters the thread manager keeps: how many nodes
    exist and how many are waiting, starting, updating or finished.  A node
    moves waiting -> starting -> updating -> finished -> waiting.  The
    counters are `usize`; a move out of an empty counter underflows, which
    panics in a debug build and is an `Err` here. */
module NodeLifecycle {
  import opened Wrappers

  datatype NodeState = NodeState(nodeSize: nat, waiting: nat, starting: nat, updating: nat, finished: nat)

  datatype Move = Wait | Start | Update | Finish

  const SubtractOverflow := "attempt to subtract with overflow"

  /** Every node is in exactly one phase. */
  predicate Balanced(s: NodeState) {
    s.waiting + s.starting + s.updating + s.finished == s.nodeSize
  }

  /** The counter a move draws from. */
  function Source(s: NodeState, m: Move): nat {
    match m
    case Wait => s.finished
    case Start => s.waiting
    case Update => s.starting
    case Finish => s.updating
  }

  /** `new` (and `Default`): no nodes. */
  function New(): (r: NodeState)
    ensures Balanced(r) && r.nodeSize == 0
    ensures r.waiting == 0 && r.starting == 0 && r.updating == 0 && r.finished == 0
  {
    NodeState(0, 0, 0, 0, 0)
  }

  /** `add_node`: one more node, and it starts out waiting. */
  function AddNode(s: NodeState): (r: NodeState)
    ensures r.nodeSize == s.nodeSize + 1 && r.waiting == s.waiting + 1
    ensures r.starting == s.starting && r.updating == s.updating && r.finished == s.finished
    ensures Balanced(r) <==> Balanced(s)
  {
    s.(nodeSize := s.nodeSize + 1, waiting := s.waiting + 1)
  }

  /** `wait`, `start`, `update` and `finish`: one node passes from the
      source counter to the next phase. */
  function Apply(s: NodeState, m: Move): (r: Result<NodeState>)
    ensures r.Ok? <==> Source(s, m) > 0
    ensures r.Err? ==> r.error == SubtractOverflow
    ensures r.Ok? ==> r.value.nodeSize == s.nodeSize && Source(r.value, m) + 1 == Source(s, m)
    ensures r.Ok? ==> (Balanced(r.value) <==> Balanced(s))
    ensures r.Ok? && m.Start? ==> r.value.starting == s.starting + 1 && r.value.updating == s.updating && r.value.finished == s.finished
    ensures r.Ok? && m.Update? ==> r.value.updating == s.updating + 1 && r.value.waiting == s.waiting && r.value.finished == s.finished
    ensures r.Ok? && m.Finish? ==> r.value.finished == s.finished + 1 && r.value.waiting == s.waiting && r.value.starting == s.starting
    ensures r.Ok? && m.Wait? ==> r.value.waiting == s.waiting + 1 && r.value.starting == s.starting && r.value.updating == s.updating
  {
    match m
    case Wait =>
      if s.finished == 0 then Err(SubtractOverflow)
      else Ok(s.(waiting := s.waiting + 1, finished := s.finished - 1))
    case Start =>
      if s.waiting == 0 then Err(SubtractOverflow)
      else Ok(s.(starting := s.starting + 1, waiting := s.waiting - 1))
    case Update =>
      if s.starting == 0 then Err(SubtractOverflow)
      else Ok(s.(updating := s.updating + 1, starting := s.starting - 1))
    case Finish =>
      if s.updating == 0 then Err(SubtractOverflow)
      else Ok(s.(finished := s.finished + 1, updating := s.updating - 1))
  }

  /** `refresh`: every node back to waiting. */
  function Refresh(s: NodeState): (r: NodeState)
    ensures Balanced(r) && r.nodeSize == s.nodeSize
    ensures r.waiting == r.nodeSize
    ensures Balanced(s) && s.waiting == s.nodeSize ==> r == s
  {
    NodeState(s.nodeSize, s.nodeSize, 0, 0, 0)
  }

  /** A run of moves, stopping at the first that underflows. */
  function Run(s: NodeState, ms: seq<Move>): (r: Result<NodeState>)
    decreases |ms|
  {
    if ms == [] then Ok(s)
    else
      var next :- Apply(s, ms[0]);
      Run(next, ms[1..])
  }

  /** No run of moves, however long, changes the number of nodes or breaks
      the balance. */
  lemma {:induction false} RunKeepsBalance(s: NodeState, ms: seq<Move>)
    requires Balanced(s)
    ensures Run(s, ms).Ok? ==> Balanced(Run(s, ms).value) && Run(s, ms).value.nodeSize == s.nodeSize
    decreases |ms|
  {
    if ms != [] && Apply(s, ms[0]).Ok? {
      RunKeepsBalance(Apply(s, ms[0]).value, ms[1..]);
    }
  }

  /** In a balanced state no counter exceeds the number of nodes. */
  lemma CountersBounded(s: NodeState)
    requires Balanced(s)
    ensures s.waiting <= s.nodeSize && s.starting <= s.nodeSize
    ensures s.updating <= s.nodeSize && s.finished <= s.nodeSize
  {
  }

  /** A waiting node taken once round the whole cycle leaves every counter
      as it was. */
  lemma FullCycle(s: NodeState)
    requires s.waiting > 0
    ensures Run(s, [Start, Update, Finish, Wait]) == Ok(s)
  {
    var s1 := Apply(s, Start).value;
    var s2 := Apply(s1, Update).value;
    var s3 := Apply(s2, Finish).value;
    var s4 := Apply(s3, Wait).value;
    assert s4 == s;
    assert [Start, Update, Finish, Wait][1..] == [Update, Finish, Wait];
    assert [Update, Finish, Wait][1..] == [Finish, Wait];
    assert [Finish, Wait][1..] == [Wait];
  }

  /** With every node waiting only a start can move: every other move draws
      from an empty counter. */
  lemma AllWaitingOnlyStarts(s: NodeState, m: Move)
    requires Balanced(s) && s.waiting == s.nodeSize && !m.Start?
    ensures Apply(s, m).Err?
  {
  }
}
