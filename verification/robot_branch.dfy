/** A robot branch: several serial robots driven as one, whose joint
    vectors are the concatenation of the members' vectors.  `indices` holds
    the offset at which each member's slice starts, plus the total. */
module RobotBranch {
  import opened Wrappers
  import Linalg
  import Robots

  type Vector = seq<real>

  datatype Branch = Branch(robots: seq<Robots.SeriesRobot>, indices: seq<nat>)

  const EmptyBranch: Branch := Branch([], [])

  function Dofs(robots: seq<Robots.SeriesRobot>): (ds: seq<nat>)
    ensures |ds| == |robots| && forall i :: 0 <= i < |robots| ==> ds[i] == Robots.Dof(robots[i])
  {
    seq(|robots|, i requires 0 <= i < |robots| => Robots.Dof(robots[i]))
  }

  function Sum(ds: seq<nat>): nat {
    if |ds| == 0 then 0 else Sum(ds[..|ds| - 1]) + ds[|ds| - 1]
  }

  /** The bookkeeping invariant: no members and no offsets, or offsets that
      start at 0 and are the running sums of the members' dofs. */
  predicate Valid(b: Branch) {
    (|b.robots| == 0 && |b.indices| == 0)
    || (|b.indices| == |b.robots| + 1
        && forall i :: 0 <= i < |b.indices| ==> b.indices[i] == Sum(Dofs(b.robots)[..i]))
  }

  /** Adding a member: the first push seeds the offsets with 0, every push
      appends the previous last offset plus the new member's dof. */
  function Push(b: Branch, r: Robots.SeriesRobot): (b': Branch)
    ensures b'.robots == b.robots + [r]
    ensures |b.indices| > 0 ==> b'.indices == b.indices + [b.indices[|b.indices| - 1] + Robots.Dof(r)]
    ensures |b.indices| == 0 ==> b'.indices == [0, Robots.Dof(r)]
  {
    var idx := if |b.indices| == 0 then [0] else b.indices;
    Branch(b.robots + [r], idx + [idx[|idx| - 1] + Robots.Dof(r)])
  }

  lemma DofsSnoc(robots: seq<Robots.SeriesRobot>, r: Robots.SeriesRobot)
    ensures Dofs(robots + [r]) == Dofs(robots) + [Robots.Dof(r)]
  {
  }

  /** Push keeps the offsets equal to the running sums. */
  lemma PushValid(b: Branch, r: Robots.SeriesRobot)
    requires Valid(b)
    ensures Valid(Push(b, r))
  {
    var b' := Push(b, r);
    var ds' := Dofs(b'.robots);
    DofsSnoc(b.robots, r);
    forall i | 0 <= i < |b'.indices|
      ensures b'.indices[i] == Sum(ds'[..i])
    {
      if i < |b'.indices| - 1 {
        assert ds'[..i] == Dofs(b.robots)[..i];
        if |b.indices| == 0 {
          assert i == 0;
        }
      } else {
        assert ds'[..i][..i - 1] == Dofs(b.robots)[..i - 1];
        if |b.indices| == 0 {
          assert ds'[..i][..i - 1] == [];
        }
      }
    }
  }

  function PushAll(b: Branch, rs: seq<Robots.SeriesRobot>): Branch
    decreases |rs|
  {
    if |rs| == 0 then b else PushAll(Push(b, rs[0]), rs[1..])
  }

  lemma {:induction false} PushAllValid(b: Branch, rs: seq<Robots.SeriesRobot>)
    requires Valid(b)
    ensures Valid(PushAll(b, rs)) && PushAll(b, rs).robots == b.robots + rs
    decreases |rs|
  {
    if |rs| > 0 {
      PushValid(b, rs[0]);
      PushAllValid(Push(b, rs[0]), rs[1..]);
      assert b.robots + [rs[0]] + rs[1..] == b.robots + rs;
    }
  }

  /** The branch's dof is the last offset plus one; with no member the
      `unwrap` panics. */
  function Dof(b: Branch): (r: Result<nat>)
    ensures r.Ok? <==> |b.indices| > 0
  {
    if |b.indices| == 0 then Err("called `Option::unwrap()` on a `None` value")
    else Ok(b.indices[|b.indices| - 1] + 1)
  }

  /** One more than the summed dofs of the members. */
  lemma DofIsSumPlusOne(b: Branch)
    requires Valid(b) && |b.robots| > 0
    ensures Dof(b) == Ok(Sum(Dofs(b.robots)) + 1)
  {
    assert Dofs(b.robots)[..|b.robots|] == Dofs(b.robots);
  }

  // ---------------------------------------------------------------------
  // merge
  // ---------------------------------------------------------------------

  function Concat(vs: seq<Vector>): (r: Vector)
  {
    if |vs| == 0 then [] else Concat(vs[..|vs| - 1]) + vs[|vs| - 1]
  }

  function Lengths(vs: seq<Vector>): (ls: seq<nat>)
    ensures |ls| == |vs| && forall i :: 0 <= i < |vs| ==> ls[i] == |vs[i]|
  {
    seq(|vs|, i requires 0 <= i < |vs| => |vs[i]|)
  }

  lemma {:induction false} ConcatLength(vs: seq<Vector>)
    ensures |Concat(vs)| == Sum(Lengths(vs))
  {
    if |vs| > 0 {
      ConcatLength(vs[..|vs| - 1]);
      assert Lengths(vs)[..|vs| - 1] == Lengths(vs[..|vs| - 1]);
    }
  }

  /** The copying loop of `merge`: each vector is written at the running
      offset into `acc`; a vector that does not fit panics. */
  function CopyFrom(acc: Vector, vs: seq<Vector>, offset: nat): (r: Result<Vector>)
    requires offset <= |acc|
    ensures r.Ok? ==> |r.value| == |acc|
    decreases |vs|
  {
    if |vs| == 0 then Ok(acc)
    else if offset + |vs[0]| > |acc| then Err("Matrix slicing out of bounds.")
    else CopyFrom(acc[..offset] + vs[0] + acc[offset + |vs[0]|..], vs[1..], offset + |vs[0]|)
  }

  /** Merge into a zero vector of length `dof()`. */
  function Merge(b: Branch, vs: seq<Vector>): Result<Vector> {
    var total :- Dof(b);
    CopyFrom(Linalg.Zeros(total), vs, 0)
  }

  lemma ConcatCons(v: Vector, vs: seq<Vector>)
    ensures Concat([v] + vs) == v + Concat(vs)
    decreases |vs|
  {
    if |vs| > 0 {
      assert ([v] + vs)[..|vs|] == [v] + vs[..|vs| - 1];
      ConcatCons(v, vs[..|vs| - 1]);
    }
  }

  lemma CopyStep(acc: Vector, v: Vector, offset: nat, rest: Vector)
    requires offset + |v| + |rest| <= |acc|
    ensures var acc' := acc[..offset] + v + acc[offset + |v|..];
      acc'[..offset + |v|] + rest + acc'[offset + |v| + |rest|..]
      == acc[..offset] + (v + rest) + acc[offset + |v + rest|..]
  {
  }

  /** The copy loop writes the concatenation of the inputs at the offset and
      leaves the rest of `acc` as it was; it succeeds exactly when the
      concatenation fits. */
  lemma {:induction false} CopyFromIsConcat(acc: Vector, vs: seq<Vector>, offset: nat)
    requires offset <= |acc|
    ensures CopyFrom(acc, vs, offset).Ok? <==> offset + |Concat(vs)| <= |acc|
    ensures CopyFrom(acc, vs, offset).Ok? ==>
      CopyFrom(acc, vs, offset).value == acc[..offset] + Concat(vs) + acc[offset + |Concat(vs)|..]
    decreases |vs|
  {
    if |vs| == 0 {
    } else {
      ConcatCons(vs[0], vs[1..]);
      assert [vs[0]] + vs[1..] == vs;
      if offset + |vs[0]| <= |acc| {
        var acc' := acc[..offset] + vs[0] + acc[offset + |vs[0]|..];
        CopyFromIsConcat(acc', vs[1..], offset + |vs[0]|);
        if offset + |Concat(vs)| <= |acc| {
          CopyStep(acc, vs[0], offset, Concat(vs[1..]));
        }
      }
    }
  }

  /** `merge` succeeds exactly when the inputs fit in `dof()` entries; the
      result is their concatenation followed by zeros. */
  lemma MergeIsConcatPadded(b: Branch, vs: seq<Vector>)
    requires |b.indices| > 0
    ensures var total := Dof(b).value;
      (Merge(b, vs).Ok? <==> |Concat(vs)| <= total)
      && (Merge(b, vs).Ok? ==> Merge(b, vs).value == Concat(vs) + Linalg.Zeros(total - |Concat(vs)|))
  {
    var total := Dof(b).value;
    CopyFromIsConcat(Linalg.Zeros(total), vs, 0);
    if |Concat(vs)| <= total {
      assert Linalg.Zeros(total)[|Concat(vs)|..] == Linalg.Zeros(total - |Concat(vs)|);
    }
  }

  // ---------------------------------------------------------------------
  // split
  // ---------------------------------------------------------------------

  /** Slice i, from indices[i] to indices[i+1] + extra, lies inside a
      vector of length n. */
  predicate SliceFits(indices: seq<nat>, i: nat, extra: nat, n: nat)
    requires i + 1 < |indices|
  {
    indices[i] <= indices[i + 1] + extra <= n
  }

  /** Slice i runs from indices[i] to indices[i+1] + extra.  The program
      uses extra = 1; `split` with no offsets underflows `len() - 1`. */
  function SplitWith(indices: seq<nat>, v: Vector, extra: nat): (r: Result<seq<Vector>>)
    ensures r.Ok? <==> |indices| > 0 && forall i :: 0 <= i < |indices| - 1 ==> SliceFits(indices, i, extra, |v|)
    ensures r.Ok? ==> |r.value| == |indices| - 1
    ensures r.Ok? ==> forall i :: 0 <= i < |indices| - 1 ==>
      SliceFits(indices, i, extra, |v|) && r.value[i] == v[indices[i]..indices[i + 1] + extra]
  {
    if |indices| == 0 then Err("attempt to subtract with overflow")
    else if !(forall i :: 0 <= i < |indices| - 1 ==> SliceFits(indices, i, extra, |v|)) then
      Err("Matrix slicing out of bounds.")
    else Ok(seq(|indices| - 1, i requires 0 <= i < |indices| - 1 && SliceFits(indices, i, extra, |v|) =>
              v[indices[i]..indices[i + 1] + extra]))
  }

  /** `split` as the program writes it. */
  function SplitAsWritten(b: Branch, v: Vector): Result<seq<Vector>> {
    SplitWith(b.indices, v, 1)
  }

  /** `split` as its documentation intends: slice i is exactly member i's
      part. */
  function Split(b: Branch, v: Vector): Result<seq<Vector>> {
    SplitWith(b.indices, v, 0)
  }

  /** The inputs merge expects: one vector per member, of the member's dof. */
  predicate Matches(b: Branch, vs: seq<Vector>) {
    |vs| == |b.robots| && forall i :: 0 <= i < |vs| ==> |vs[i]| == Robots.Dof(b.robots[i])
  }

  lemma {:induction false} ConcatAppend(a: seq<Vector>, c: seq<Vector>)
    ensures Concat(a + c) == Concat(a) + Concat(c)
    decreases |c|
  {
    if |c| > 0 {
      assert (a + c)[..|a + c| - 1] == a + c[..|c| - 1];
      ConcatAppend(a, c[..|c| - 1]);
    } else {
      assert a + c == a;
    }
  }

  lemma PrefixSumIsConcatLength(b: Branch, vs: seq<Vector>, i: nat)
    requires Valid(b) && Matches(b, vs) && i <= |vs| && |b.indices| > 0
    ensures b.indices[i] == |Concat(vs[..i])|
  {
    ConcatLength(vs[..i]);
    assert Lengths(vs[..i]) == Dofs(b.robots)[..i];
  }

  lemma SliceOfConcat(vs: seq<Vector>, i: nat)
    requires i < |vs|
    ensures var s := |Concat(vs[..i])|;
      s + |vs[i]| <= |Concat(vs)| && Concat(vs)[s..s + |vs[i]|] == vs[i]
  {
    assert vs == vs[..i] + [vs[i]] + vs[i + 1..];
    ConcatAppend(vs[..i] + [vs[i]], vs[i + 1..]);
    ConcatAppend(vs[..i], [vs[i]]);
    assert Concat([vs[i]]) == vs[i] by {
      assert [vs[i]][..0] == [];
    }
  }

  /** Member i's part of the concatenation sits between offsets i and i+1. */
  lemma MergedSlice(b: Branch, vs: seq<Vector>, i: nat)
    requires Valid(b) && |b.robots| > 0 && Matches(b, vs) && i < |vs|
    ensures b.indices[i] + |vs[i]| == b.indices[i + 1] <= |Concat(vs)|
    ensures Concat(vs)[b.indices[i]..b.indices[i + 1]] == vs[i]
  {
    PrefixSumIsConcatLength(b, vs, i);
    PrefixSumIsConcatLength(b, vs, i + 1);
    ConcatAppend(vs[..i], [vs[i]]);
    assert vs[..i + 1] == vs[..i] + [vs[i]];
    assert Concat([vs[i]]) == vs[i] by {
      assert [vs[i]][..0] == [];
    }
    SliceOfConcat(vs, i);
  }

  /** Merge of matching inputs succeeds, and its result is the
      concatenation followed by one zero. */
  lemma MergeMatching(b: Branch, vs: seq<Vector>)
    requires Valid(b) && |b.robots| > 0 && Matches(b, vs)
    ensures Merge(b, vs) == Ok(Concat(vs) + [0.0])
    ensures b.indices[|vs|] == |Concat(vs)|
  {
    DofIsSumPlusOne(b);
    PrefixSumIsConcatLength(b, vs, |vs|);
    assert vs[..|vs|] == vs;
    MergeIsConcatPadded(b, vs);
    assert Linalg.Zeros(1) == [0.0];
  }

  /** Split undoes merge: each member gets back exactly its vector. */
  lemma SplitMerge(b: Branch, vs: seq<Vector>)
    requires Valid(b) && |b.robots| > 0 && Matches(b, vs)
    ensures Merge(b, vs).Ok? && Split(b, Merge(b, vs).value) == Ok(vs)
  {
    MergeMatching(b, vs);
    var c := Concat(vs);
    var m := c + [0.0];
    forall i | 0 <= i < |b.indices| - 1
      ensures SliceFits(b.indices, i, 0, |m|) && m[b.indices[i]..b.indices[i + 1]] == vs[i]
    {
      MergedSlice(b, vs, i);
      assert m[b.indices[i]..b.indices[i + 1]] == c[b.indices[i]..b.indices[i + 1]];
    }
    var r := Split(b, m);
    assert r.Ok?;
    assert r.value == vs;
  }

  /** As written, split hands member i one entry too many: every slice has
      the member's dof plus one entries, so split(merge(vs)) is never vs. */
  lemma SplitAsWrittenOverlaps(b: Branch, vs: seq<Vector>)
    requires Valid(b) && |b.robots| > 0 && Matches(b, vs)
    ensures Merge(b, vs).Ok?
    ensures var r := SplitAsWritten(b, Merge(b, vs).value);
      r.Ok? && |r.value| == |vs|
      && (forall i :: 0 <= i < |vs| ==> |r.value[i]| == |vs[i]| + 1)
      && r != Ok(vs)
  {
    MergeMatching(b, vs);
    var m := Concat(vs) + [0.0];
    forall i | 0 <= i < |b.indices| - 1
      ensures SliceFits(b.indices, i, 1, |m|)
    {
      MergedSlice(b, vs, i);
      if i + 1 < |vs| {
        MergedSlice(b, vs, i + 1);
        MonotoneOffsets(b, vs, i + 1);
      }
    }
    var r := SplitAsWritten(b, m);
    assert r.Ok?;
    forall i | 0 <= i < |vs|
      ensures |r.value[i]| == |vs[i]| + 1
    {
      MergedSlice(b, vs, i);
      assert SliceFits(b.indices, i, 1, |m|);
    }
    assert |r.value[0]| != |vs[0]|;
  }

  lemma MonotoneOffsets(b: Branch, vs: seq<Vector>, i: nat)
    requires Valid(b) && |b.robots| > 0 && Matches(b, vs) && i <= |vs|
    ensures b.indices[i] <= b.indices[|vs|]
    decreases |vs| - i
  {
    if i < |vs| {
      MergedSlice(b, vs, i);
      MonotoneOffsets(b, vs, i + 1);
    }
  }

  /** The smallest witness: one robot of one joint.  merge([[5]]) is
      [5, 0] and the written split returns [[5, 0]]. */
  lemma SplitAsWrittenCounterexample(r: Robots.SeriesRobot)
    requires Robots.Dof(r) == 1
    ensures var b := Push(EmptyBranch, r);
      Merge(b, [[5.0]]) == Ok([5.0, 0.0])
      && SplitAsWritten(b, [5.0, 0.0]) == Ok([[5.0, 0.0]])
      && Split(b, [5.0, 0.0]) == Ok([[5.0]])
  {
    var b := Push(EmptyBranch, r);
    assert b.indices == [0, 1];
    PushValid(EmptyBranch, r);
    assert Concat([[5.0]]) == [5.0] by {
      assert [[5.0]][..0] == [];
    }
    MergeMatching(b, [[5.0]]);
    var v := [5.0, 0.0];
    assert SliceFits(b.indices, 0, 1, |v|) && SliceFits(b.indices, 0, 0, |v|);
    var w := SplitAsWritten(b, v);
    assert w.Ok? && |w.value| == 1 && w.value[0] == v[0..2] == v;
    assert w.value == [v];
    assert [5.0] + [0.0] == v;
    var c := Split(b, v);
    assert c.Ok? && |c.value| == 1 && c.value[0] == v[0..1] == [5.0];
    assert c.value == [[5.0]];
  }

  // ---------------------------------------------------------------------
  // Setters and reset of the whole branch
  // ---------------------------------------------------------------------

  datatype Field = Q | QDot | QDdot | QJerk

  function SetField(r: Robots.SeriesRobot, f: Field, v: Vector): Robots.SeriesRobot {
    match f
    case Q => Robots.SetQ(r, v)
    case QDot => Robots.SetQDot(r, v)
    case QDdot => Robots.SetQDdot(r, v)
    case QJerk => Robots.SetQJerk(r, v)
  }

  /** Member i takes part i, paired by `zip`: members past the last part are
      left alone. */
  function SetParts(b: Branch, f: Field, parts: seq<Vector>): (b': Branch)
    ensures b'.indices == b.indices && |b'.robots| == |b.robots|
    ensures forall i :: 0 <= i < |b.robots| ==>
      b'.robots[i] == if i < |parts| then SetField(b.robots[i], f, parts[i]) else b.robots[i]
  {
    b.(robots := seq(|b.robots|, i requires 0 <= i < |b.robots| =>
      if i < |parts| then SetField(b.robots[i], f, parts[i]) else b.robots[i]))
  }

  /** The split setters as the program writes them: they call the written
      `split`, so member i receives the rows from offset i to offset i+1
      inclusive. */
  function SetSplit(b: Branch, f: Field, v: Vector): (r: Result<Branch>)
    ensures r.Ok? <==> SplitAsWritten(b, v).Ok?
    ensures r.Ok? ==> r.value == SetParts(b, f, SplitAsWritten(b, v).value)
  {
    var parts :- SplitAsWritten(b, v);
    Ok(SetParts(b, f, parts))
  }

  /** The split setters over the corrected `split`. */
  function SetSplitCorrected(b: Branch, f: Field, v: Vector): (r: Result<Branch>)
    ensures r.Ok? <==> Split(b, v).Ok?
    ensures r.Ok? ==> r.value == SetParts(b, f, Split(b, v).value)
  {
    var parts :- Split(b, v);
    Ok(SetParts(b, f, parts))
  }

  /** As written, setting q through the branch from a merged vector gives
      every member its own vector followed by one more row: the first row of
      the next member's part, or the zero pad for the last member. */
  lemma SetSplitOfMerge(b: Branch, vs: seq<Vector>)
    requires Valid(b) && |b.robots| > 0 && Matches(b, vs)
    ensures Merge(b, vs).Ok?
    ensures var m := Merge(b, vs).value;
      var r := SetSplit(b, Q, m);
      r.Ok? &&
      (forall i :: 0 <= i < |b.robots| ==>
        b.indices[i + 1] < |m| && r.value.robots[i].state.q == vs[i] + [m[b.indices[i + 1]]]) &&
      r.value.robots[|b.robots| - 1].state.q == vs[|b.robots| - 1] + [0.0]
  {
    SplitAsWrittenOverlaps(b, vs);
    var m := Merge(b, vs).value;
    var parts := SplitAsWritten(b, m).value;
    forall i | 0 <= i < |b.robots|
      ensures b.indices[i + 1] < |m| && parts[i] == vs[i] + [m[b.indices[i + 1]]]
    {
      AsWrittenPart(b, vs, i);
    }
    MergeMatching(b, vs);
  }

  /** Slice i of the written split of a merged vector is member i's vector
      and the row after it. */
  lemma AsWrittenPart(b: Branch, vs: seq<Vector>, i: nat)
    requires Valid(b) && |b.robots| > 0 && Matches(b, vs) && i < |b.robots|
    requires Merge(b, vs).Ok? && SplitAsWritten(b, Merge(b, vs).value).Ok?
    ensures var m := Merge(b, vs).value;
      b.indices[i + 1] < |m| && SplitAsWritten(b, m).value[i] == vs[i] + [m[b.indices[i + 1]]]
  {
    MergeMatching(b, vs);
    MergedSlice(b, vs, i);
    var m := Merge(b, vs).value;
    assert m[b.indices[i]..b.indices[i + 1]] == vs[i];
    assert SplitAsWritten(b, m).value[i] == m[b.indices[i]..b.indices[i + 1] + 1];
  }

  /** With the corrected split, setting q from a merged vector gives every
      member exactly its own vector back. */
  lemma SetSplitCorrectedOfMerge(b: Branch, vs: seq<Vector>)
    requires Valid(b) && |b.robots| > 0 && Matches(b, vs)
    ensures Merge(b, vs).Ok?
    ensures var r := SetSplitCorrected(b, Q, Merge(b, vs).value);
      r.Ok? && forall i :: 0 <= i < |b.robots| ==> r.value.robots[i].state.q == vs[i]
  {
    SplitMerge(b, vs);
  }

  /** Resetting the branch resets every member and keeps the offsets. */
  function Reset(b: Branch): (b': Branch)
    ensures b'.indices == b.indices && |b'.robots| == |b.robots|
    ensures forall i :: 0 <= i < |b.robots| ==> b'.robots[i] == Robots.Reset(b.robots[i])
  {
    b.(robots := seq(|b.robots|, i requires 0 <= i < |b.robots| => Robots.Reset(b.robots[i])))
  }

  lemma ResetKeepsValid(b: Branch)
    requires Valid(b)
    ensures Valid(Reset(b))
  {
    assert Dofs(Reset(b).robots) == Dofs(b.robots);
  }
}
