/** The planner's QP helpers: `matrix_to_csc`, which turns a dense matrix
    into the compressed-sparse-column triple the solver takes, and the
    shape of `get_optimize_function`'s cost matrix
    H = w0 I + w1 VᵀV + w2 AᵀA over first and second differences. */
module Optimize {
  import opened Wrappers
  import opened ControlLaw

  /** `rows` rows of `cols` entries each. */
  predicate IsMatrix(m: Matrix, rows: nat, cols: nat) {
    |m| == rows && forall i :: 0 <= i < rows ==> |m[i]| == cols
  }

  datatype CscMatrix = CscMatrix(nrows: nat, ncols: nat, indptr: seq<nat>, indices: seq<nat>, data: seq<real>)

  // ---- one column ----

  /** The rows below `n` where column `j` is non-zero, ascending. */
  function ColRows(h: Matrix, nrows: nat, ncols: nat, j: nat, n: nat): seq<nat>
    requires IsMatrix(h, nrows, ncols) && j < ncols && n <= nrows
    decreases n
  {
    if n == 0 then []
    else ColRows(h, nrows, ncols, j, n - 1) + (if h[n - 1][j] != 0.0 then [n - 1] else [])
  }

  /** The values at those rows, in the same order. */
  function ColVals(h: Matrix, nrows: nat, ncols: nat, j: nat, n: nat): (r: seq<real>)
    requires IsMatrix(h, nrows, ncols) && j < ncols && n <= nrows
    ensures |r| == |ColRows(h, nrows, ncols, j, n)|
    decreases n
  {
    if n == 0 then []
    else ColVals(h, nrows, ncols, j, n - 1) + (if h[n - 1][j] != 0.0 then [h[n - 1][j]] else [])
  }

  /** `vals` pairs up with `rows`: each row is below `n` and holds the
      matrix's non-zero value there. */
  predicate ColumnEntries(h: Matrix, nrows: nat, ncols: nat, j: nat, n: nat, rows: seq<nat>, vals: seq<real>)
    requires IsMatrix(h, nrows, ncols) && j < ncols && n <= nrows
  {
    |vals| == |rows| &&
    forall p :: 0 <= p < |rows| ==> rows[p] < n && vals[p] == h[rows[p]][j] && vals[p] != 0.0
  }

  predicate Ascending(rows: seq<nat>) {
    forall p, p' :: 0 <= p < p' < |rows| ==> rows[p] < rows[p']
  }

  /** A column's entries: ascending rows below `n`, each holding the
      matrix's non-zero value there. */
  lemma ColumnFacts(h: Matrix, nrows: nat, ncols: nat, j: nat, n: nat)
    requires IsMatrix(h, nrows, ncols) && j < ncols && n <= nrows
    ensures ColumnEntries(h, nrows, ncols, j, n, ColRows(h, nrows, ncols, j, n), ColVals(h, nrows, ncols, j, n))
    ensures Ascending(ColRows(h, nrows, ncols, j, n))
  {
    ColumnValues(h, nrows, ncols, j, n);
    ColumnAscending(h, nrows, ncols, j, n);
  }

  lemma {:induction false} ColumnValues(h: Matrix, nrows: nat, ncols: nat, j: nat, n: nat)
    requires IsMatrix(h, nrows, ncols) && j < ncols && n <= nrows
    ensures ColumnEntries(h, nrows, ncols, j, n, ColRows(h, nrows, ncols, j, n), ColVals(h, nrows, ncols, j, n))
    decreases n
  {
    if n > 0 {
      ColumnValues(h, nrows, ncols, j, n - 1);
      var rows := ColRows(h, nrows, ncols, j, n - 1);
      var vals := ColVals(h, nrows, ncols, j, n - 1);
      var rows' := ColRows(h, nrows, ncols, j, n);
      var vals' := ColVals(h, nrows, ncols, j, n);
      if h[n - 1][j] != 0.0 {
        assert rows' == rows + [n - 1];
        assert vals' == vals + [h[n - 1][j]];
        forall p | 0 <= p < |rows'|
          ensures rows'[p] < n && vals'[p] == h[rows'[p]][j] && vals'[p] != 0.0
        {
          if p < |rows| {
            assert rows'[p] == rows[p] && vals'[p] == vals[p];
          }
        }
      } else {
        assert rows' == rows && vals' == vals;
      }
    }
  }

  lemma {:induction false} ColumnAscending(h: Matrix, nrows: nat, ncols: nat, j: nat, n: nat)
    requires IsMatrix(h, nrows, ncols) && j < ncols && n <= nrows
    ensures Ascending(ColRows(h, nrows, ncols, j, n))
    decreases n
  {
    if n > 0 {
      ColumnAscending(h, nrows, ncols, j, n - 1);
      ColumnValues(h, nrows, ncols, j, n - 1);
      var rows := ColRows(h, nrows, ncols, j, n - 1);
      var rows' := ColRows(h, nrows, ncols, j, n);
      if h[n - 1][j] != 0.0 {
        assert rows' == rows + [n - 1];
        forall p, p' | 0 <= p < p' < |rows'|
          ensures rows'[p] < rows'[p']
        {
          assert rows'[p] == rows[p];
          if p' < |rows| {
            assert rows'[p'] == rows[p'];
          }
        }
      } else {
        assert rows' == rows;
      }
    }
  }

  // ---- the encoding, column by column ----

  /** The triple after the first `k` columns. */
  function Prefix(h: Matrix, nrows: nat, ncols: nat, k: nat): (r: CscMatrix)
    requires IsMatrix(h, nrows, ncols) && k <= ncols
    ensures r.nrows == nrows && r.ncols == ncols
    ensures |r.indptr| == k + 1 && r.indptr[0] == 0
    ensures r.indptr[k] == |r.indices| == |r.data|
    decreases k
  {
    if k == 0 then CscMatrix(nrows, ncols, [0], [], [])
    else
      var p := Prefix(h, nrows, ncols, k - 1);
      var indices := p.indices + ColRows(h, nrows, ncols, k - 1, nrows);
      CscMatrix(nrows, ncols, p.indptr + [|indices|], indices, p.data + ColVals(h, nrows, ncols, k - 1, nrows))
  }

  function Encode(h: Matrix, nrows: nat, ncols: nat): CscMatrix
    requires IsMatrix(h, nrows, ncols)
  {
    Prefix(h, nrows, ncols, ncols)
  }

  /** `matrix_to_csc`: scan column by column, row by row, keeping every
      entry that is not 0.0 and closing each column with the running count. */
  method MatrixToCsc(h: Matrix, nrows: nat, ncols: nat) returns (c: CscMatrix)
    requires IsMatrix(h, nrows, ncols)
    ensures c == Encode(h, nrows, ncols)
    ensures Shaped(c) && Decode(c) == h
  {
    c := CscMatrix(nrows, ncols, [0], [], []);
    var j := 0;
    while j < ncols
      invariant 0 <= j <= ncols
      invariant c == Prefix(h, nrows, ncols, j)
    {
      var indices, data := ScanColumn(h, nrows, ncols, j, c.indices, c.data);
      PrefixNext(h, nrows, ncols, j, c);
      c := c.(indptr := c.indptr + [|indices|], indices := indices, data := data);
      j := j + 1;
    }
    RoundTrip(h, nrows, ncols);
  }

  /** The triple after column `j` closes: the column's rows and values
      appended, and the running count after them. */
  lemma PrefixNext(h: Matrix, nrows: nat, ncols: nat, j: nat, p: CscMatrix)
    requires IsMatrix(h, nrows, ncols) && j < ncols && p == Prefix(h, nrows, ncols, j)
    ensures var indices := p.indices + ColRows(h, nrows, ncols, j, nrows);
      Prefix(h, nrows, ncols, j + 1) ==
        p.(indptr := p.indptr + [|indices|], indices := indices, data := p.data + ColVals(h, nrows, ncols, j, nrows))
  {
  }

  /** The inner loop: append column `j`'s non-zero rows and values. */
  method ScanColumn(h: Matrix, nrows: nat, ncols: nat, j: nat, indices0: seq<nat>, data0: seq<real>)
    returns (indices: seq<nat>, data: seq<real>)
    requires IsMatrix(h, nrows, ncols) && j < ncols
    ensures indices == indices0 + ColRows(h, nrows, ncols, j, nrows)
    ensures data == data0 + ColVals(h, nrows, ncols, j, nrows)
  {
    indices, data := indices0, data0;
    var i := 0;
    while i < nrows
      invariant 0 <= i <= nrows
      invariant indices == indices0 + ColRows(h, nrows, ncols, j, i)
      invariant data == data0 + ColVals(h, nrows, ncols, j, i)
    {
      if h[i][j] != 0.0 {
        data := data + [h[i][j]];
        indices := indices + [i];
      }
      i := i + 1;
    }
  }

  // ---- the format ----

  /** `indptr` has one entry per column plus one, starts at 0, never
      decreases and ends at the number of stored entries; every row index
      is in range. */
  predicate Shaped(c: CscMatrix) {
    |c.indptr| == c.ncols + 1 && c.indptr[0] == 0 &&
    (forall j :: 0 <= j < c.ncols ==> c.indptr[j] <= c.indptr[j + 1]) &&
    (forall j :: 0 <= j <= c.ncols ==> c.indptr[j] <= |c.indices|) &&
    c.indptr[c.ncols] == |c.indices| == |c.data| &&
    (forall p :: 0 <= p < |c.indices| ==> c.indices[p] < c.nrows)
  }

  function ColIndices(c: CscMatrix, j: nat): seq<nat>
    requires Shaped(c) && j < c.ncols
  {
    c.indices[c.indptr[j]..c.indptr[j + 1]]
  }

  function ColData(c: CscMatrix, j: nat): seq<real>
    requires Shaped(c) && j < c.ncols
  {
    c.data[c.indptr[j]..c.indptr[j + 1]]
  }

  /** The value stored for row `i` among a column's entries, 0.0 if none. */
  function Lookup(rows: seq<nat>, vals: seq<real>, i: nat): real
    requires |rows| == |vals|
  {
    if rows == [] then 0.0
    else if rows[0] == i then vals[0]
    else Lookup(rows[1..], vals[1..], i)
  }

  /** The dense matrix a CSC triple stands for. */
  function Decode(c: CscMatrix): (h: Matrix)
    requires Shaped(c)
    ensures IsMatrix(h, c.nrows, c.ncols)
  {
    seq(c.nrows, i requires 0 <= i < c.nrows =>
      seq(c.ncols, j requires 0 <= j < c.ncols => Lookup(ColIndices(c, j), ColData(c, j), i)))
  }

  // ---- lemmas ----

  lemma {:induction false} LookupAppend(rows: seq<nat>, vals: seq<real>, rows': seq<nat>, vals': seq<real>, i: nat)
    requires |rows| == |vals| && |rows'| == |vals'|
    ensures Lookup(rows + rows', vals + vals', i) == if i in rows then Lookup(rows, vals, i) else Lookup(rows', vals', i)
    decreases |rows|
  {
    if rows != [] {
      assert (rows + rows')[1..] == rows[1..] + rows';
      assert (vals + vals')[1..] == vals[1..] + vals';
      LookupAppend(rows[1..], vals[1..], rows', vals', i);
      assert i in rows <==> rows[0] == i || i in rows[1..];
    } else {
      assert rows + rows' == rows' && vals + vals' == vals';
    }
  }

  lemma {:induction false} LookupAbsent(rows: seq<nat>, vals: seq<real>, i: nat)
    requires |rows| == |vals| && i !in rows
    ensures Lookup(rows, vals, i) == 0.0
    decreases |rows|
  {
    if rows != [] {
      LookupAbsent(rows[1..], vals[1..], i);
    }
  }

  /** Looking a row up among the first `n` rows of a column gives the
      matrix entry: stored when non-zero, 0.0 otherwise. */
  lemma {:induction false} ColumnLookup(h: Matrix, nrows: nat, ncols: nat, j: nat, n: nat, i: nat)
    requires IsMatrix(h, nrows, ncols) && j < ncols && i < n <= nrows
    ensures Lookup(ColRows(h, nrows, ncols, j, n), ColVals(h, nrows, ncols, j, n), i) == h[i][j]
    decreases n
  {
    var rows := ColRows(h, nrows, ncols, j, n - 1);
    var vals := ColVals(h, nrows, ncols, j, n - 1);
    ColumnFacts(h, nrows, ncols, j, n - 1);
    var last: seq<nat> := if h[n - 1][j] != 0.0 then [n - 1] else [];
    var lastVal := if h[n - 1][j] != 0.0 then [h[n - 1][j]] else [];
    LookupAppend(rows, vals, last, lastVal, i);
    if i < n - 1 {
      ColumnLookup(h, nrows, ncols, j, n - 1, i);
      if i !in rows {
        LookupAbsent(rows, vals, i);
        LookupAbsent(last, lastVal, i);
      }
    } else {
      assert i !in rows;
      if h[n - 1][j] == 0.0 {
        LookupAbsent(last, lastVal, i);
      }
    }
  }

  /** `q` continues `p`: each of its three arrays starts with `p`'s. */
  predicate Extends(p: CscMatrix, q: CscMatrix) {
    p.indptr <= q.indptr && p.indices <= q.indices && p.data <= q.data
  }

  lemma ExtendsTransitive(p: CscMatrix, q: CscMatrix, r: CscMatrix)
    requires Extends(p, q) && Extends(q, r)
    ensures Extends(p, r)
  {
    PrefixTransitive(p.indptr, q.indptr, r.indptr);
    PrefixTransitive(p.indices, q.indices, r.indices);
    PrefixTransitive(p.data, q.data, r.data);
  }

  lemma ExtendsReflexive(p: CscMatrix)
    ensures Extends(p, p)
  {
    assert p.indptr == p.indptr[..|p.indptr|];
    assert p.indices == p.indices[..|p.indices|];
    assert p.data == p.data[..|p.data|];
  }

  lemma PrefixTransitive<T>(a: seq<T>, b: seq<T>, c: seq<T>)
    requires a <= b && b <= c
    ensures a <= c
  {
    assert a == b[..|a|];
    assert b == c[..|b|];
  }

  /** Scanning one more column only appends to each of the three arrays. */
  lemma PrefixStep(h: Matrix, nrows: nat, ncols: nat, k: nat)
    requires IsMatrix(h, nrows, ncols) && k < ncols
    ensures Extends(Prefix(h, nrows, ncols, k), Prefix(h, nrows, ncols, k + 1))
  {
  }

  /** Every array continues the one before it. */
  predicate Chain(ps: seq<CscMatrix>) {
    forall k :: 0 <= k < |ps| - 1 ==> Extends(ps[k], ps[k + 1])
  }

  lemma {:induction false} ChainGrows(ps: seq<CscMatrix>, k: nat, k': nat)
    requires Chain(ps) && k <= k' < |ps|
    ensures Extends(ps[k], ps[k'])
    decreases k' - k
  {
    if k < k' {
      ChainGrows(ps, k, k' - 1);
      ExtendsTransitive(ps[k], ps[k' - 1], ps[k']);
    } else {
      ExtendsReflexive(ps[k]);
    }
  }

  /** The triples after 0, 1, ..., `ncols` columns. */
  function Prefixes(h: Matrix, nrows: nat, ncols: nat): (ps: seq<CscMatrix>)
    requires IsMatrix(h, nrows, ncols)
    ensures |ps| == ncols + 1 && forall k :: 0 <= k <= ncols ==> ps[k] == Prefix(h, nrows, ncols, k)
  {
    seq(ncols + 1, k requires 0 <= k <= ncols => Prefix(h, nrows, ncols, k))
  }

  lemma PrefixesChain(h: Matrix, nrows: nat, ncols: nat)
    requires IsMatrix(h, nrows, ncols)
    ensures Chain(Prefixes(h, nrows, ncols))
  {
    var ps := Prefixes(h, nrows, ncols);
    forall k | 0 <= k < |ps| - 1
      ensures Extends(ps[k], ps[k + 1])
    {
      PrefixStep(h, nrows, ncols, k);
    }
  }

  /** The first k columns are fixed once written: later columns only append. */
  lemma PrefixGrows(h: Matrix, nrows: nat, ncols: nat, k: nat, k': nat)
    requires IsMatrix(h, nrows, ncols) && k <= k' <= ncols
    ensures Extends(Prefix(h, nrows, ncols, k), Prefix(h, nrows, ncols, k'))
  {
    var ps := Prefixes(h, nrows, ncols);
    PrefixesChain(h, nrows, ncols);
    ChainGrows(ps, k, k');
  }

  /** Column j of the encoding holds exactly the non-zero rows of column j
      of the matrix, ascending, with their values. */
  lemma EncodedColumn(h: Matrix, nrows: nat, ncols: nat, j: nat)
    requires IsMatrix(h, nrows, ncols) && j < ncols
    ensures var c := Encode(h, nrows, ncols);
      c.indptr[j] <= c.indptr[j + 1] <= |c.indices| == |c.data| &&
      c.indices[c.indptr[j]..c.indptr[j + 1]] == ColRows(h, nrows, ncols, j, nrows) &&
      c.data[c.indptr[j]..c.indptr[j + 1]] == ColVals(h, nrows, ncols, j, nrows)
  {
    var c := Encode(h, nrows, ncols);
    var p := Prefix(h, nrows, ncols, j);
    var q := Prefix(h, nrows, ncols, j + 1);
    var rows := ColRows(h, nrows, ncols, j, nrows);
    var vals := ColVals(h, nrows, ncols, j, nrows);
    PrefixGrows(h, nrows, ncols, j + 1, ncols);
    PrefixNext(h, nrows, ncols, j, p);
    ColumnFacts(h, nrows, ncols, j, nrows);
    assert c.indptr[j] == q.indptr[j] == |p.indices|;
    assert c.indptr[j + 1] == q.indptr[j + 1] == |q.indices|;
    assert c.indices[|p.indices|..|q.indices|] == q.indices[|p.indices|..];
    assert c.data[|p.data|..|q.data|] == q.data[|p.data|..];
  }

  /** The encoding is a well-formed CSC triple. */
  lemma EncodeShaped(h: Matrix, nrows: nat, ncols: nat)
    requires IsMatrix(h, nrows, ncols)
    ensures Shaped(Encode(h, nrows, ncols))
  {
    var c := Encode(h, nrows, ncols);
    forall j | 0 <= j < ncols
      ensures c.indptr[j] <= c.indptr[j + 1]
    {
      EncodedColumn(h, nrows, ncols, j);
    }
    IndptrBounded(c);
    forall x | 0 <= x < |c.indices|
      ensures c.indices[x] < nrows
    {
      var j := ColumnOf(c, x);
      EncodedColumn(h, nrows, ncols, j);
      ColumnValues(h, nrows, ncols, j, nrows);
      assert c.indices[x] == ColRows(h, nrows, ncols, j, nrows)[x - c.indptr[j]];
    }
  }

  /** Column j of the encoding stores the non-zero entries of column j of
      the matrix, rows ascending, each with its value. */
  lemma EncodedEntries(h: Matrix, nrows: nat, ncols: nat, j: nat)
    requires IsMatrix(h, nrows, ncols) && j < ncols
    ensures Shaped(Encode(h, nrows, ncols))
    ensures ColumnEntries(h, nrows, ncols, j, nrows, ColIndices(Encode(h, nrows, ncols), j), ColData(Encode(h, nrows, ncols), j))
    ensures Ascending(ColIndices(Encode(h, nrows, ncols), j))
  {
    EncodeShaped(h, nrows, ncols);
    EncodedColumn(h, nrows, ncols, j);
    ColumnFacts(h, nrows, ncols, j, nrows);
  }

  /** Every stored position lies in some column's range. */
  function ColumnOf(c: CscMatrix, x: nat): (j: nat)
    requires |c.indptr| == c.ncols + 1 && c.indptr[0] == 0 && c.indptr[c.ncols] == |c.indices|
    requires forall j :: 0 <= j < c.ncols ==> c.indptr[j] <= c.indptr[j + 1]
    requires x < |c.indices|
    ensures j < c.ncols && c.indptr[j] <= x < c.indptr[j + 1]
  {
    ColumnFrom(c, x, c.ncols)
  }

  function ColumnFrom(c: CscMatrix, x: nat, k: nat): (j: nat)
    requires |c.indptr| == c.ncols + 1 && c.indptr[0] == 0
    requires forall j :: 0 <= j < c.ncols ==> c.indptr[j] <= c.indptr[j + 1]
    requires k <= c.ncols && x < c.indptr[k]
    ensures j < k && c.indptr[j] <= x < c.indptr[j + 1]
    decreases k
  {
    if c.indptr[k - 1] <= x then k - 1 else ColumnFrom(c, x, k - 1)
  }

  /** A non-decreasing `indptr` stays below its last entry. */
  lemma IndptrBounded(c: CscMatrix)
    requires |c.indptr| == c.ncols + 1
    requires forall j :: 0 <= j < c.ncols ==> c.indptr[j] <= c.indptr[j + 1]
    ensures forall j :: 0 <= j <= c.ncols ==> c.indptr[j] <= c.indptr[c.ncols]
  {
    forall j | 0 <= j <= c.ncols
      ensures c.indptr[j] <= c.indptr[c.ncols]
    {
      IndptrClimb(c, j, c.ncols);
    }
  }

  lemma {:induction false} IndptrClimb(c: CscMatrix, j: nat, k: nat)
    requires |c.indptr| == c.ncols + 1 && j <= k <= c.ncols
    requires forall j :: 0 <= j < c.ncols ==> c.indptr[j] <= c.indptr[j + 1]
    ensures c.indptr[j] <= c.indptr[k]
    decreases k - j
  {
    if j < k {
      IndptrClimb(c, j, k - 1);
    }
  }

  /** Decoding the encoding gives the matrix back. */
  lemma RoundTrip(h: Matrix, nrows: nat, ncols: nat)
    requires IsMatrix(h, nrows, ncols)
    ensures Shaped(Encode(h, nrows, ncols)) && Decode(Encode(h, nrows, ncols)) == h
  {
    EncodeShaped(h, nrows, ncols);
    var c := Encode(h, nrows, ncols);
    var d := Decode(c);
    forall i, j | 0 <= i < nrows && 0 <= j < ncols
      ensures d[i][j] == h[i][j]
    {
      EncodedColumn(h, nrows, ncols, j);
      ColumnFacts(h, nrows, ncols, j, nrows);
      ColumnLookup(h, nrows, ncols, j, nrows, i);
    }
    forall i | 0 <= i < nrows
      ensures d[i] == h[i]
    {
    }
  }

  // ---- get_optimize_function ----

  const SubtractOverflow := "attempt to subtract with overflow"
  const IndexOutOfBounds := "index out of bounds"

  /** `identity(dim, dim)`. */
  function Identity(dim: nat): (m: Matrix)
    ensures IsMatrix(m, dim, dim)
  {
    seq(dim, i requires 0 <= i < dim => seq(dim, k requires 0 <= k < dim => if i == k then 1.0 else 0.0))
  }

  /** The first-difference matrix: identity with -1 written at column
      i + offset of row i (over the 1.0 when offset is 0). */
  function FirstDiff(dim: nat, offset: nat): (m: Matrix)
    requires offset <= dim
    ensures IsMatrix(m, dim - offset, dim)
  {
    seq(dim - offset, i requires 0 <= i < dim - offset => seq(dim, k requires 0 <= k < dim =>
      if k == i + offset then -1.0 else if k == i then 1.0 else 0.0))
  }

  /** The second-difference matrix: identity with -2 at i + offset, then 1
      at i + 2 offset; the later write wins where they meet. */
  function SecondDiff(dim: nat, offset: nat): (m: Matrix)
    requires 2 * offset <= dim
    ensures IsMatrix(m, dim - 2 * offset, dim)
  {
    seq(dim - 2 * offset, i requires 0 <= i < dim - 2 * offset => seq(dim, k requires 0 <= k < dim =>
      if k == i + 2 * offset then 1.0 else if k == i + offset then -2.0 else if k == i then 1.0 else 0.0))
  }

  function Column(m: Matrix, cols: nat, k: nat): (v: seq<real>)
    requires IsMatrix(m, |m|, cols) && k < cols
    ensures |v| == |m| && forall r :: 0 <= r < |m| ==> v[r] == m[r][k]
  {
    seq(|m|, r requires 0 <= r < |m| => m[r][k])
  }

  /** `mᵀ m`: entry (i, k) is the dot product of columns i and k. */
  function Gram(m: Matrix, cols: nat): (g: Matrix)
    requires IsMatrix(m, |m|, cols)
    ensures IsMatrix(g, cols, cols)
    ensures forall i, k :: 0 <= i < cols && 0 <= k < cols ==> g[i][k] == Dot(Column(m, cols, i), Column(m, cols, k))
  {
    seq(cols, i requires 0 <= i < cols => seq(cols, k requires 0 <= k < cols => Dot(Column(m, cols, i), Column(m, cols, k))))
  }

  lemma {:induction false} DotSymmetric(a: seq<real>, b: seq<real>)
    requires |a| == |b|
    ensures Dot(a, b) == Dot(b, a)
    decreases |a|
  {
    if |a| > 0 {
      DotSymmetric(a[1..], b[1..]);
    }
  }

  /** w0 I + w1 VᵀV + w2 AᵀA, entry by entry. */
  function Weighted(dim: nat, offset: nat, w: seq<real>): (h: Matrix)
    requires 2 * offset <= dim && |w| >= 3
    ensures IsMatrix(h, dim, dim)
  {
    var i1 := Identity(dim);
    var q2 := Gram(FirstDiff(dim, offset), dim);
    var q3 := Gram(SecondDiff(dim, offset), dim);
    seq(dim, i requires 0 <= i < dim => seq(dim, k requires 0 <= k < dim =>
      Mix(w, i1[i][k], q2[i][k], q3[i][k])))
  }

  /** One entry of the weighted sum. */
  function Mix(w: seq<real>, a: real, b: real, c: real): real
    requires |w| >= 3
  {
    a * w[0] + b * w[1] + c * w[2]
  }

  /** `get_optimize_function`: both differences need `dim` at least
      `2 * offset` (the `usize` subtractions), the weights need three
      entries; the result is H in CSC form. */
  method GetOptimizeFunction(dim: nat, offset: nat, w: seq<real>) returns (r: Result<CscMatrix>)
    ensures r.Ok? <==> 2 * offset <= dim && |w| >= 3
    ensures offset > dim || (offset <= dim < 2 * offset) ==> r == Err(SubtractOverflow)
    ensures 2 * offset <= dim && |w| < 3 ==> r == Err(IndexOutOfBounds)
    ensures r.Ok? ==> (r.value.nrows == dim && r.value.ncols == dim && Shaped(r.value) &&
      Decode(r.value) == Weighted(dim, offset, w))
  {
    if dim < offset || dim < 2 * offset {
      return Err(SubtractOverflow);
    }
    if |w| < 3 {
      return Err(IndexOutOfBounds);
    }
    var c := MatrixToCsc(Weighted(dim, offset, w), dim, dim);
    return Ok(c);
  }

  /** The cost matrix is square and symmetric for every offset and weight. */
  lemma WeightedSymmetric(dim: nat, offset: nat, w: seq<real>)
    requires 2 * offset <= dim && |w| >= 3
    ensures forall i, k :: 0 <= i < dim && 0 <= k < dim ==> Weighted(dim, offset, w)[i][k] == Weighted(dim, offset, w)[k][i]
  {
    forall i, k | 0 <= i < dim && 0 <= k < dim
      ensures Weighted(dim, offset, w)[i][k] == Weighted(dim, offset, w)[k][i]
    {
      WeightedEntrySymmetric(dim, offset, w, i, k);
    }
  }

  lemma WeightedEntrySymmetric(dim: nat, offset: nat, w: seq<real>, i: nat, k: nat)
    requires 2 * offset <= dim && |w| >= 3 && i < dim && k < dim
    ensures Weighted(dim, offset, w)[i][k] == Weighted(dim, offset, w)[k][i]
  {
    var i1 := Identity(dim);
    var q2 := Gram(FirstDiff(dim, offset), dim);
    var q3 := Gram(SecondDiff(dim, offset), dim);
    GramSymmetric(FirstDiff(dim, offset), dim, i, k);
    GramSymmetric(SecondDiff(dim, offset), dim, i, k);
    assert i1[i][k] == i1[k][i];
    assert Weighted(dim, offset, w)[i][k] == Mix(w, i1[i][k], q2[i][k], q3[i][k]);
    assert Weighted(dim, offset, w)[k][i] == Mix(w, i1[k][i], q2[k][i], q3[k][i]);
  }

  lemma GramSymmetric(m: Matrix, cols: nat, i: nat, k: nat)
    requires IsMatrix(m, |m|, cols) && i < cols && k < cols
    ensures Gram(m, cols)[i][k] == Gram(m, cols)[k][i]
  {
    DotSymmetric(Column(m, cols, i), Column(m, cols, k));
  }
}
