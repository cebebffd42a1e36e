/** Straight-line interpolation between joint vectors, as the planners and
    the interp node use it.  Every variant places point `i` of `n` at
    fraction i/n of the way; they differ in which `i` they emit. */
module Interpolation {
  import opened Linalg

  /** All vectors of the list as long as `start`. */
  predicate SameLength(start: Vector, list: seq<Vector>) {
    forall k :: 0 <= k < |list| ==> |list[k]| == |start|
  }

  /** The point at fraction i/n from `s` to `e`, component by component. */
  function Point(s: Vector, e: Vector, i: int, n: int): (p: Vector)
    requires |s| == |e| && n != 0
    ensures |p| == |s|
  {
    seq(|s|, j requires 0 <= j < |s| => s[j] + (e[j] - s[j]) * (i as real) / (n as real))
  }

  /** Fraction zero is the start itself. */
  lemma PointZero(s: Vector, e: Vector, n: int)
    requires |s| == |e| && n != 0
    ensures Point(s, e, 0, n) == s
  {
  }

  /** A fraction i/n below one of a difference gives the difference back
      only when the difference is zero. */
  lemma FractionFixed(d: real, i: real, n: real)
    requires 0.0 <= i < n && d * i / n == d
    ensures d == 0.0
  {
    assert d * i == d * n;
    assert d * (n - i) == 0.0;
  }

  /** Only a segment of zero length reaches its end before fraction one. */
  lemma PointShort(s: Vector, e: Vector, i: int, n: int)
    requires |s| == |e| && 0 <= i < n
    ensures Point(s, e, i, n) == e ==> s == e
  {
    if Point(s, e, i, n) == e {
      forall j | 0 <= j < |s|
        ensures s[j] == e[j]
      {
        assert Point(s, e, i, n)[j] == e[j];
        FractionFixed(e[j] - s[j], i as real, n as real);
      }
    }
  }

  /** `interpolation` of the linear series planner: points 0 .. n-1 from
      `s` towards `e`, none for a count of zero or below (the count is an
      `i32`). */
  function Segment(s: Vector, e: Vector, n: int): (r: seq<Vector>)
    requires |s| == |e|
    ensures |r| == if n <= 0 then 0 else n
    ensures forall i :: 0 <= i < |r| ==> r[i] == Point(s, e, i, n)
  {
    if n <= 0 then [] else seq(n, i requires 0 <= i < n => Point(s, e, i, n))
  }

  /** A non-empty segment starts at `s` and never reaches `e` unless the
      two coincide. */
  lemma SegmentEnds(s: Vector, e: Vector, n: int)
    requires |s| == |e| && n > 0
    ensures Segment(s, e, n)[0] == s
    ensures forall i :: 0 <= i < n ==> (Segment(s, e, n)[i] == e ==> s == e)
  {
    PointZero(s, e, n);
    forall i | 0 <= i < n
      ensures Segment(s, e, n)[i] == e ==> s == e
    {
      PointShort(s, e, i, n);
    }
  }

  /** `interpolation` of the planner utilities: points 1 .. n-1, so both
      ends are left out; nothing for n <= 1. */
  function Interior(s: Vector, e: Vector, n: nat): (r: seq<Vector>)
    requires |s| == |e|
    ensures |r| == if n <= 1 then 0 else n - 1
  {
    if n <= 1 then [] else seq(n - 1, k requires 0 <= k < n - 1 => Point(s, e, k + 1, n))
  }

  /** The planner utility's points are the linear series' points without
      the start. */
  lemma InteriorIsSegmentTail(s: Vector, e: Vector, n: nat)
    requires |s| == |e| && n >= 1
    ensures Interior(s, e, n) == Segment(s, e, n)[1..]
  {
  }

  /** `lerp`: a segment of `n` points from `start` to the first target, then
      from each target to the next.  No target itself is emitted. */
  function Lerp(start: Vector, list: seq<Vector>, n: nat): (r: seq<Vector>)
    requires SameLength(start, list)
    ensures |r| == |list| * n
    decreases |list|
  {
    if list == [] then []
    else Segment(start, list[0], n) + Lerp(list[0], list[1..], n)
  }

  /** Where segment `k` starts: `start` for the first, the previous target
      after that. */
  function SegmentStart(start: Vector, list: seq<Vector>, k: nat): Vector
    requires k < |list|
  {
    if k == 0 then start else list[k - 1]
  }

  /** Point i of segment k sits at index k*n + i and lies at fraction i/n
      from the segment's start to target k. */
  lemma {:induction false} LerpAt(start: Vector, list: seq<Vector>, n: nat, k: nat, i: nat)
    requires SameLength(start, list) && k < |list| && i < n
    ensures k * n + i < |Lerp(start, list, n)|
    ensures |SegmentStart(start, list, k)| == |list[k]|
    ensures Lerp(start, list, n)[k * n + i] == Point(SegmentStart(start, list, k), list[k], i, n)
    decreases k
  {
    IndexBelow(|list|, n, k, i);
    if k == 0 {
      LerpHead(start, list, n, i);
    } else {
      LerpStep(start, list, n, k, i);
      LerpAt(list[0], list[1..], n, k - 1, i);
      assert SegmentStart(list[0], list[1..], k - 1) == SegmentStart(start, list, k);
      assert list[1..][k - 1] == list[k];
    }
  }

  /** Point i of segment k > 0 is point i of segment k - 1 of the track
      that starts at the first target. */
  lemma LerpStep(start: Vector, list: seq<Vector>, n: nat, k: nat, i: nat)
    requires SameLength(start, list) && 0 < k < |list| && i < n
    ensures SameLength(list[0], list[1..])
    ensures k * n + i < |Lerp(start, list, n)|
    ensures (k - 1) * n + i < |Lerp(list[0], list[1..], n)|
    ensures Lerp(start, list, n)[k * n + i] == Lerp(list[0], list[1..], n)[(k - 1) * n + i]
  {
    assert SameLength(list[0], list[1..]);
    IndexBelow(|list|, n, k, i);
    IndexBelow(|list| - 1, n, k - 1, i);
    PeelSegment(n, k, i);
    LerpShift(start, list, n, (k - 1) * n + i);
  }

  /** The first segment opens the track. */
  lemma LerpHead(start: Vector, list: seq<Vector>, n: nat, i: nat)
    requires SameLength(start, list) && list != [] && i < n
    ensures Lerp(start, list, n)[0 * n + i] == Point(start, list[0], i, n)
  {
    assert SameLength(list[0], list[1..]);
    var head := Segment(start, list[0], n);
    var tail := Lerp(list[0], list[1..], n);
    assert 0 * n + i == i;
    assert (head + tail)[i] == head[i];
  }

  /** Past the first segment, the track is the track from the first target. */
  lemma LerpShift(start: Vector, list: seq<Vector>, n: nat, x: nat)
    requires SameLength(start, list) && list != [] && x < (|list| - 1) * n
    ensures SameLength(list[0], list[1..])
    ensures Lerp(start, list, n)[n + x] == Lerp(list[0], list[1..], n)[x]
  {
    assert SameLength(list[0], list[1..]);
    var head := Segment(start, list[0], n);
    var tail := Lerp(list[0], list[1..], n);
    assert (head + tail)[|head| + x] == tail[x];
  }

  lemma PeelSegment(n: nat, k: nat, i: nat)
    requires k > 0
    ensures k * n + i == n + ((k - 1) * n + i)
  {
  }

  lemma IndexBelow(len: nat, n: nat, k: nat, i: nat)
    requires k < len && i < n
    ensures k * n + i < len * n
  {
    assert (k + 1) * n <= len * n;
  }

  /** Zero points per segment, or no targets, gives nothing; otherwise the
      track opens at `start`. */
  lemma LerpEdges(start: Vector, list: seq<Vector>, n: nat)
    requires SameLength(start, list)
    ensures (n == 0 || list == []) <==> Lerp(start, list, n) == []
    ensures n > 0 && list != [] ==> Lerp(start, list, n)[0] == start
  {
    if n > 0 && list != [] {
      LerpAt(start, list, n, 0, 0);
      PointZero(start, list[0], n);
    }
  }
}
