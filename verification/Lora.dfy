/**
 * Two-dimensional LoRA tensors kept as factors: the tensor is B * A, and each
 * operation rewrites the factors without ever forming the product.
 */
module Lora {
  import opened Words

  // ---------- matrices ----------

  datatype Matrix = Matrix(rows: nat, cols: nat, cells: seq<seq<real>>)

  predicate WellShaped(m: Matrix) {
    |m.cells| == m.rows && forall i :: 0 <= i < m.rows ==> |m.cells[i]| == m.cols
  }

  type Mat = m: Matrix | WellShaped(m) witness Matrix(0, 0, [])

  function At(m: Mat, i: nat, j: nat): real
    requires i < m.rows && j < m.cols
  {
    m.cells[i][j]
  }

  lemma {:induction false} SameCells(m: Mat, n: Mat)
    requires m.rows == n.rows && m.cols == n.cols
    requires forall i: nat, j: nat :: i < m.rows && j < m.cols ==> At(m, i, j) == At(n, i, j)
    ensures m == n
  {
    forall i | 0 <= i < m.rows ensures m.cells[i] == n.cells[i] {
      forall j | 0 <= j < m.cols ensures m.cells[i][j] == n.cells[i][j] {
        assert At(m, i, j) == At(n, i, j);
      }
    }
  }

  /** Sum over t < k of b[i][t] * a[t][j]. */
  function Dot(b: Mat, a: Mat, i: nat, j: nat, k: nat): real
    requires i < b.rows && j < a.cols && k <= b.cols && k <= a.rows
  {
    if k == 0 then 0.0 else Dot(b, a, i, j, k - 1) + At(b, i, k - 1) * At(a, k - 1, j)
  }

  function Product(b: Mat, a: Mat): (p: Mat)
    requires b.cols == a.rows
    ensures p.rows == b.rows && p.cols == a.cols
    ensures forall i: nat, j: nat :: i < p.rows && j < p.cols ==> At(p, i, j) == Dot(b, a, i, j, b.cols)
  {
    Matrix(b.rows, a.cols,
           seq(b.rows, i requires 0 <= i < b.rows => seq(a.cols, j requires 0 <= j < a.cols => Dot(b, a, i, j, b.cols))))
  }

  predicate InRange(idx: seq<nat>, n: nat) { forall k :: 0 <= k < |idx| ==> idx[k] < n }

  function PickRows(m: Mat, idx: seq<nat>): (p: Mat)
    requires InRange(idx, m.rows)
    ensures p.rows == |idx| && p.cols == m.cols
    ensures forall i: nat, j: nat :: i < p.rows && j < p.cols ==> At(p, i, j) == At(m, idx[i], j)
  {
    Matrix(|idx|, m.cols, seq(|idx|, i requires 0 <= i < |idx| => m.cells[idx[i]]))
  }

  function PickCols(m: Mat, idx: seq<nat>): (p: Mat)
    requires InRange(idx, m.cols)
    ensures p.rows == m.rows && p.cols == |idx|
    ensures forall i: nat, j: nat :: i < p.rows && j < p.cols ==> At(p, i, j) == At(m, i, idx[j])
  {
    Matrix(m.rows, |idx|,
           seq(m.rows, i requires 0 <= i < m.rows => seq(|idx|, j requires 0 <= j < |idx| => At(m, i, idx[j]))))
  }

  function Transposed(m: Mat): (p: Mat)
    ensures p.rows == m.cols && p.cols == m.rows
    ensures forall i: nat, j: nat :: i < p.rows && j < p.cols ==> At(p, i, j) == At(m, j, i)
  {
    Matrix(m.cols, m.rows,
           seq(m.cols, i requires 0 <= i < m.cols => seq(m.rows, j requires 0 <= j < m.rows => At(m, j, i))))
  }

  /** Row i of the result is row source[i] of `m` times factor[i]. */
  function ScaleRows(m: Mat, source: seq<nat>, factor: seq<real>): (p: Mat)
    requires |source| == |factor| && InRange(source, m.rows)
    ensures p.rows == |source| && p.cols == m.cols
    ensures forall i: nat, j: nat :: i < p.rows && j < p.cols ==> At(p, i, j) == At(m, source[i], j) * factor[i]
  {
    Matrix(|source|, m.cols,
           seq(|source|, i requires 0 <= i < |source| =>
             seq(m.cols, j requires 0 <= j < m.cols => At(m, source[i], j) * factor[i])))
  }

  function Stack(top: Mat, bottom: Mat): (p: Mat)
    requires top.cols == bottom.cols
    ensures p.rows == top.rows + bottom.rows && p.cols == top.cols
    ensures forall i: nat, j: nat :: i < p.rows && j < p.cols ==>
              At(p, i, j) == if i < top.rows then At(top, i, j) else At(bottom, i - top.rows, j)
  {
    Matrix(top.rows + bottom.rows, top.cols, top.cells + bottom.cells)
  }

  // ---------- products of rewritten factors ----------

  /** A dot product only sees one row and one column. */
  lemma {:induction false} DotSame(b: Mat, a: Mat, i: nat, j: nat, b': Mat, a': Mat, i': nat, j': nat, k: nat)
    requires i < b.rows && j < a.cols && k <= b.cols && k <= a.rows
    requires i' < b'.rows && j' < a'.cols && k <= b'.cols && k <= a'.rows
    requires forall t: nat :: t < k ==> At(b, i, t) == At(b', i', t) && At(a, t, j) == At(a', t, j')
    ensures Dot(b, a, i, j, k) == Dot(b', a', i', j', k)
  {
    if k > 0 { DotSame(b, a, i, j, b', a', i', j', k - 1); }
  }

  lemma {:induction false} ProductOfPicks(b: Mat, a: Mat, rows: seq<nat>, cols: seq<nat>)
    requires b.cols == a.rows && InRange(rows, b.rows) && InRange(cols, a.cols)
    ensures Product(PickRows(b, rows), PickCols(a, cols)) == PickCols(PickRows(Product(b, a), rows), cols)
  {
    var b', a' := PickRows(b, rows), PickCols(a, cols);
    var l, r := Product(b', a'), PickCols(PickRows(Product(b, a), rows), cols);
    forall i: nat, j: nat | i < l.rows && j < l.cols ensures At(l, i, j) == At(r, i, j) {
      DotSame(b', a', i, j, b, a, rows[i], cols[j], b.cols);
    }
    SameCells(l, r);
  }

  lemma {:induction false} DotTransposed(b: Mat, a: Mat, i: nat, j: nat, k: nat)
    requires i < b.rows && j < a.cols && k <= b.cols && k <= a.rows
    ensures Dot(Transposed(a), Transposed(b), j, i, k) == Dot(b, a, i, j, k)
  {
    if k > 0 {
      DotTransposed(b, a, i, j, k - 1);
      assert At(Transposed(a), j, k - 1) == At(a, k - 1, j) && At(Transposed(b), k - 1, i) == At(b, i, k - 1);
    }
  }

  lemma {:induction false} ProductTransposed(b: Mat, a: Mat)
    requires b.cols == a.rows
    ensures Product(Transposed(a), Transposed(b)) == Transposed(Product(b, a))
  {
    var l, r := Product(Transposed(a), Transposed(b)), Transposed(Product(b, a));
    forall i: nat, j: nat | i < l.rows && j < l.cols ensures At(l, i, j) == At(r, i, j) {
      DotTransposed(b, a, j, i, b.cols);
    }
    SameCells(l, r);
  }

  lemma {:induction false} DotScaled(b: Mat, a: Mat, source: seq<nat>, factor: seq<real>, i: nat, j: nat, k: nat)
    requires |source| == |factor| && InRange(source, b.rows) && i < |source| && j < a.cols && k <= b.cols && k <= a.rows
    ensures Dot(ScaleRows(b, source, factor), a, i, j, k) == Dot(b, a, source[i], j, k) * factor[i]
  {
    if k > 0 {
      DotScaled(b, a, source, factor, i, j, k - 1);
      var (x, f, y) := (At(b, source[i], k - 1), factor[i], At(a, k - 1, j));
      assert (x * f) * y == (x * y) * f;
      assert (Dot(b, a, source[i], j, k - 1) + x * y) * f == Dot(b, a, source[i], j, k - 1) * f + (x * y) * f;
    }
  }

  lemma {:induction false} ProductScaled(b: Mat, a: Mat, source: seq<nat>, factor: seq<real>)
    requires b.cols == a.rows && |source| == |factor| && InRange(source, b.rows)
    ensures Product(ScaleRows(b, source, factor), a) == ScaleRows(Product(b, a), source, factor)
  {
    var l, r := Product(ScaleRows(b, source, factor), a), ScaleRows(Product(b, a), source, factor);
    forall i: nat, j: nat | i < l.rows && j < l.cols ensures At(l, i, j) == At(r, i, j) {
      DotScaled(b, a, source, factor, i, j, b.cols);
    }
    SameCells(l, r);
  }

  lemma {:induction false} ProductStacked(top: Mat, bottom: Mat, a: Mat)
    requires top.cols == bottom.cols == a.rows
    ensures Product(Stack(top, bottom), a) == Stack(Product(top, a), Product(bottom, a))
  {
    var b := Stack(top, bottom);
    var l, r := Product(b, a), Stack(Product(top, a), Product(bottom, a));
    forall i: nat, j: nat | i < l.rows && j < l.cols ensures At(l, i, j) == At(r, i, j) {
      if i < top.rows {
        DotSame(b, a, i, j, top, a, i, j, a.rows);
      } else {
        DotSame(b, a, i, j, bottom, a, i - top.rows, j, a.rows);
      }
    }
    SameCells(l, r);
  }

  // ---------- index arithmetic of Python and torch ----------

  /** `start:stop:step`; None stands for an omitted part. */
  datatype Slice = Slice(start: Option<int>, stop: Option<int>, step: Option<int>)

  const ALL: Slice := Slice(None, None, None)

  function Clamp(x: int, n: nat): (r: nat)
    ensures r <= n
  {
    var y := if x < 0 then x + n else x;
    if y < 0 then 0 else if y > n then n else y
  }

  function Steps(from: nat, to: nat, step: nat): seq<nat>
    requires step > 0
    decreases if from < to then to - from else 0
  {
    if from >= to then [] else [from] + Steps(from + step, to, step)
  }

  lemma {:induction false} StepsInRange(from: nat, to: nat, step: nat, n: nat)
    requires step > 0 && to <= n
    ensures InRange(Steps(from, to, step), n)
    decreases if from < to then to - from else 0
  {
    if from < to { StepsInRange(from + step, to, step, n); }
  }

  /** The selected indices; torch refuses steps that are not positive. */
  function Indices(s: Slice, n: nat): (r: Option<seq<nat>>)
    ensures r.Some? ==> InRange(r.value, n)
  {
    var step := if s.step.Some? then s.step.value else 1;
    if step <= 0 then None else
      var from := if s.start.Some? then Clamp(s.start.value, n) else 0;
      var to := if s.stop.Some? then Clamp(s.stop.value, n) else n;
      StepsInRange(from, to, step, n);
      Some(Steps(from, to, step))
  }

  lemma {:induction false} CountAll(from: nat, n: nat)
    requires from <= n
    ensures |Steps(from, n, 1)| == n - from
    ensures forall k :: 0 <= k < n - from ==> Steps(from, n, 1)[k] == from + k
    decreases if from < n then n - from else 0
  {
    if from < n { CountAll(from + 1, n); }
  }

  /** An integer chunk size, or the list of sizes. */
  datatype SplitSpec = Chunk(size: int) | Sizes(sizes: seq<int>)

  function Sum(sizes: seq<int>): int {
    if sizes == [] then 0 else sizes[0] + Sum(sizes[1..])
  }

  function ChunkSizes(n: nat, size: nat): seq<int>
    requires size > 0
    decreases n
  {
    if n <= size then [n] else [size] + ChunkSizes(n - size, size)
  }

  /** The sizes torch.split cuts a dimension of length n into. */
  function PieceSizes(spec: SplitSpec, n: nat): Option<seq<int>> {
    match spec
    case Chunk(size) =>
      if size < 0 || (size == 0 && n != 0) then None
      else if size == 0 then Some([0]) else Some(ChunkSizes(n, size))
    case Sizes(sizes) =>
      if (exists k :: 0 <= k < |sizes| && sizes[k] < 0) || Sum(sizes) != n then None else Some(sizes)
  }

  predicate NonNegative(sizes: seq<int>) { forall k :: 0 <= k < |sizes| ==> sizes[k] >= 0 }

  lemma {:induction false} ChunkSizesSum(n: nat, size: nat)
    requires size > 0
    ensures NonNegative(ChunkSizes(n, size)) && Sum(ChunkSizes(n, size)) == n
    decreases n
  {
    if n <= size {
      assert [n][1..] == [];
    } else {
      ChunkSizesSum(n - size, size);
      assert ChunkSizes(n, size)[1..] == ChunkSizes(n - size, size);
    }
  }

  /** Pieces are cut without loss: the sizes are not negative and add up to the dimension. */
  lemma {:induction false} PieceSizesSum(spec: SplitSpec, n: nat)
    requires PieceSizes(spec, n).Some?
    ensures NonNegative(PieceSizes(spec, n).value) && Sum(PieceSizes(spec, n).value) == n
  {
    match spec
    case Chunk(size) =>
      if size > 0 { ChunkSizesSum(n, size); } else { assert [0][1..] == []; }
    case Sizes(_) =>
  }

  lemma {:induction false} SumUpTo(sizes: seq<int>, k: nat)
    requires NonNegative(sizes) && k < |sizes|
    ensures 0 <= Sum(sizes[..k]) <= Sum(sizes[..k]) + sizes[k] <= Sum(sizes)
    ensures Sum(sizes[..k + 1]) == Sum(sizes[..k]) + sizes[k]
  {
    SumNonNegative(sizes[1..]);
    if k > 0 {
      SumUpTo(sizes[1..], k - 1);
      assert sizes[..k][1..] == sizes[1..][..k - 1] && sizes[..k + 1][1..] == sizes[1..][..k];
    } else {
      assert sizes[..1][1..] == [];
    }
  }

  lemma {:induction false} SumNonNegative(sizes: seq<int>)
    requires NonNegative(sizes)
    ensures Sum(sizes) >= 0
  {
    if sizes != [] { SumNonNegative(sizes[1..]); }
  }

  /** The indices of piece `which`. */
  function PieceIndices(spec: SplitSpec, n: nat, which: nat): (r: Option<seq<nat>>)
    ensures r.Some? ==> InRange(r.value, n)
  {
    var sizes := PieceSizes(spec, n);
    if sizes.None? || which >= |sizes.value| then None else
      PieceSizesSum(spec, n);
      SumUpTo(sizes.value, which);
      var from := Sum(sizes.value[..which]);
      var to := from + sizes.value[which];
      StepsInRange(from, to, 1, n);
      Some(Steps(from, to, 1))
  }

  /** The pieces, in order, are exactly the indices 0 .. n. */
  function PiecesUpTo(spec: SplitSpec, n: nat, count: nat): seq<nat>
    requires PieceSizes(spec, n).Some? && count <= |PieceSizes(spec, n).value|
  {
    if count == 0 then [] else PiecesUpTo(spec, n, count - 1) + PieceIndices(spec, n, count - 1).value
  }

  lemma {:induction false} StepsAppend(from: nat, mid: nat, to: nat)
    requires from <= mid <= to
    ensures Steps(from, mid, 1) + Steps(mid, to, 1) == Steps(from, to, 1)
    decreases mid - from
  {
    if from < mid {
      StepsAppend(from + 1, mid, to);
      assert [from] + (Steps(from + 1, mid, 1) + Steps(mid, to, 1)) == Steps(from, mid, 1) + Steps(mid, to, 1);
    }
  }

  lemma {:induction false} PiecesCover(spec: SplitSpec, n: nat, count: nat)
    requires PieceSizes(spec, n).Some? && count <= |PieceSizes(spec, n).value|
    ensures 0 <= Sum(PieceSizes(spec, n).value[..count])
    ensures PiecesUpTo(spec, n, count) == Steps(0, Sum(PieceSizes(spec, n).value[..count]), 1)
  {
    hide Steps;
    var sizes := PieceSizes(spec, n).value;
    PieceSizesSum(spec, n);
    if count == 0 {
      CountAll(0, 0);
    } else {
      PiecesCover(spec, n, count - 1);
      SumUpTo(sizes, count - 1);
      StepsAppend(0, Sum(sizes[..count - 1]), Sum(sizes[..count]));
    }
  }

  /** Splitting loses, repeats and reorders nothing. */
  lemma {:induction false} SplitCoversDimension(spec: SplitSpec, n: nat)
    requires PieceSizes(spec, n).Some?
    ensures PiecesUpTo(spec, n, |PieceSizes(spec, n).value|) == seq(n, k => k)
  {
    hide Steps;
    var sizes := PieceSizes(spec, n).value;
    PieceSizesSum(spec, n);
    PiecesCover(spec, n, |sizes|);
    assert sizes[..|sizes|] == sizes;
    CountAll(0, n);
  }

  // ---------- factored tensors ----------

  datatype Factors = Factors(a: Mat, b: Mat)

  /** The constructor's shape assertion. */
  type LoraTensor = l: Factors | l.a.rows == l.b.cols witness Factors(Matrix(0, 0, []), Matrix(0, 0, []))

  function Dense(l: LoraTensor): Mat { Product(l.b, l.a) }

  /** `t[rows]`: a slice of the first dimension only touches B. */
  function GetRows(l: LoraTensor, rows: Slice): Option<LoraTensor> {
    var i := Indices(rows, l.b.rows);
    if i.None? then None else Some(Factors(l.a, PickRows(l.b, i.value)))
  }

  /** `t[rows, cols]`. */
  function GetBlock(l: LoraTensor, rows: Slice, cols: Slice): Option<LoraTensor> {
    var i, j := Indices(rows, l.b.rows), Indices(cols, l.a.cols);
    if i.None? || j.None? then None else Some(Factors(PickCols(l.a, j.value), PickRows(l.b, i.value)))
  }

  function FromEnd(dim: int): int { if dim >= 0 then dim - 2 else dim }

  /**
   * permute: the last dimension either stays, or both swap roles. Since dimensions
   * are first counted from the end, a first one of 2 arrives at B as 0, which B accepts.
   */
  function Permute(l: LoraTensor, d0: int, d1: int): Option<LoraTensor> {
    var (e0, e1) := (FromEnd(d0), FromEnd(d1));
    if e1 == -1 then (if e0 == -2 || e0 == 0 then Some(l) else None)
    else if e1 == -2 && e0 == -1 then Some(Factors(Transposed(l.b), Transposed(l.a)))
    else None
  }

  /** dims[dim0], dims[dim1] = dims[dim1], dims[dim0], with Python's negative indices. */
  function SwapDims(dim0: int, dim1: int): Option<(int, int)> {
    if !(-2 <= dim0 < 2 && -2 <= dim1 < 2) then None
    else if FromEnd(dim0) == FromEnd(dim1) then Some((0, 1))
    else Some((1, 0))
  }

  function SwapAxes(l: LoraTensor, dim0: int, dim1: int): Option<LoraTensor> {
    var dims := SwapDims(dim0, dim1);
    if dims.None? then None else Permute(l, dims.value.0, dims.value.1)
  }

  /** Piece `which` of split(spec, dim). */
  function SplitPiece(l: LoraTensor, spec: SplitSpec, dim: int, which: nat): Option<LoraTensor> {
    var d := if dim < 0 then dim + 2 else dim;
    if d == 1 then
      var j := PieceIndices(spec, l.a.cols, which);
      if j.None? then None else Some(Factors(PickCols(l.a, j.value), l.b))
    else if d == 0 then
      var i := PieceIndices(spec, l.b.rows, which);
      if i.None? then None else Some(Factors(l.a, PickRows(l.b, i.value)))
    else None
  }

  /** A multiplier: a number, a column vector, or anything whose last dimension is not 1. */
  datatype Scale = Scalar(c: real) | Column(v: seq<real>) | Wide(m: Mat)

  function Constant(n: nat, c: real): seq<real> { seq(n, _ => c) }

  /** How a multiplier of last dimension 1 is broadcast over `n` rows: source rows and factors. */
  function Broadcast(s: Scale, n: nat): (r: Option<(seq<nat>, seq<real>)>)
    requires !s.Wide?
    ensures r.Some? ==> |r.value.0| == |r.value.1| && InRange(r.value.0, n)
  {
    var same: seq<nat> := seq(n, i => i);
    match s
    case Scalar(c) => Some((same, Constant(n, c)))
    case Column(v) =>
      if |v| == n then Some((same, v))
      else if |v| == 1 then Some((same, Constant(n, v[0])))
      else if n == 1 then Some((seq(|v|, _ => 0), v))
      else None
  }

  function Multiply(l: LoraTensor, s: Scale): Option<LoraTensor> {
    if s.Wide? then None else
      var f := Broadcast(s, l.b.rows);
      if f.None? then None else Some(Factors(l.a, ScaleRows(l.b, f.value.0, f.value.1)))
  }

  function StackAll(ms: seq<Mat>): (r: Option<Mat>)
    ensures r.Some? ==> ms != [] && r.value.cols == ms[0].cols
  {
    if ms == [] then None
    else if |ms| == 1 then Some(ms[0])
    else
      var rest := StackAll(ms[1..]);
      if rest.None? || rest.value.cols != ms[0].cols then None else Some(Stack(ms[0], rest.value))
  }

  function BFactors(ls: seq<LoraTensor>): (r: seq<Mat>)
    ensures |r| == |ls|
  {
    if ls == [] then [] else [ls[0].b] + BFactors(ls[1..])
  }

  predicate SharesA(ls: seq<LoraTensor>) {
    forall i :: 0 < i < |ls| ==> ls[i].a == ls[0].a
  }

  /** torch.cat along dimension 0, which needs one common A. */
  function Concatenate(ls: seq<LoraTensor>, dim: int): Option<LoraTensor> {
    if dim != 0 || ls == [] || !SharesA(ls) then None else
      var b := StackAll(BFactors(ls));
      if b.None? || b.value.cols != ls[0].a.rows then None else Some(Factors(ls[0].a, b.value))
  }

  // ---------- programs over tensors ----------

  datatype Program =
    | Input(k: nat)
    | Rows(p: Program, rows: Slice)
    | Block(p: Program, rows: Slice, cols: Slice)
    | Permuted(p: Program, d0: int, d1: int)
    | Swapped(p: Program, dim0: int, dim1: int)
    | Piece(p: Program, spec: SplitSpec, dim: int, which: nat)
    | Scaled(p: Program, scale: Scale)
    | Joined(ps: seq<Program>, dim: int)

  function RunFactored(p: Program, inputs: seq<LoraTensor>): Option<LoraTensor>
    decreases p, 1
  {
    match p
    case Input(k) => if k < |inputs| then Some(inputs[k]) else None
    case Rows(q, rows) => var l := RunFactored(q, inputs); if l.None? then None else GetRows(l.value, rows)
    case Block(q, rows, cols) => var l := RunFactored(q, inputs); if l.None? then None else GetBlock(l.value, rows, cols)
    case Permuted(q, d0, d1) => var l := RunFactored(q, inputs); if l.None? then None else Permute(l.value, d0, d1)
    case Swapped(q, d0, d1) => var l := RunFactored(q, inputs); if l.None? then None else SwapAxes(l.value, d0, d1)
    case Piece(q, spec, dim, which) =>
      var l := RunFactored(q, inputs); if l.None? then None else SplitPiece(l.value, spec, dim, which)
    case Scaled(q, s) => var l := RunFactored(q, inputs); if l.None? then None else Multiply(l.value, s)
    case Joined(qs, dim) => var ls := RunAllFactored(qs, inputs); if ls.None? then None else Concatenate(ls.value, dim)
  }

  function RunAllFactored(ps: seq<Program>, inputs: seq<LoraTensor>): (r: Option<seq<LoraTensor>>)
    ensures r.Some? ==> |r.value| == |ps|
    decreases ps, 0
  {
    if ps == [] then Some([]) else
      var l, rest := RunFactored(ps[0], inputs), RunAllFactored(ps[1..], inputs);
      if l.None? || rest.None? then None else Some([l.value] + rest.value)
  }

  // ---------- the same operations on the dense matrix ----------

  function DenseBlock(m: Mat, rows: Slice, cols: Slice): Option<Mat> {
    var i, j := Indices(rows, m.rows), Indices(cols, m.cols);
    if i.None? || j.None? then None else Some(PickCols(PickRows(m, i.value), j.value))
  }

  predicate IsAxis(d: int) { -2 <= d < 2 }

  /** Axes -2 and 0 are the rows, -1 and 1 the columns. */
  predicate SameAxis(d0: int, d1: int) { (d0 - d1) % 2 == 0 }

  function DensePermute(m: Mat, d0: int, d1: int): Option<Mat> {
    if !IsAxis(d0) || !IsAxis(d1) || SameAxis(d0, d1) then None
    else Some(if SameAxis(d0, 0) then m else Transposed(m))
  }

  function DenseSwap(m: Mat, d0: int, d1: int): Option<Mat> {
    if !IsAxis(d0) || !IsAxis(d1) then None else Some(if SameAxis(d0, d1) then m else Transposed(m))
  }

  function DensePiece(m: Mat, spec: SplitSpec, dim: int, which: nat): Option<Mat> {
    var d := if dim < 0 then dim + 2 else dim;
    if d == 1 then var j := PieceIndices(spec, m.cols, which); if j.None? then None else Some(PickCols(m, j.value))
    else if d == 0 then var i := PieceIndices(spec, m.rows, which); if i.None? then None else Some(PickRows(m, i.value))
    else None
  }

  function DenseScale(m: Mat, s: Scale): Option<Mat> {
    match s
    case Wide(w) =>
      if w.rows != m.rows || w.cols != m.cols then None else
        Some(Matrix(m.rows, m.cols,
                    seq(m.rows, i requires 0 <= i < m.rows =>
                      seq(m.cols, j requires 0 <= j < m.cols => At(m, i, j) * At(w, i, j)))))
    case _ => var f := Broadcast(s, m.rows); if f.None? then None else Some(ScaleRows(m, f.value.0, f.value.1))
  }

  function RunDense(p: Program, inputs: seq<Mat>): Option<Mat>
    decreases p, 1
  {
    match p
    case Input(k) => if k < |inputs| then Some(inputs[k]) else None
    case Rows(q, rows) => var m := RunDense(q, inputs); if m.None? then None else DenseBlock(m.value, rows, ALL)
    case Block(q, rows, cols) => var m := RunDense(q, inputs); if m.None? then None else DenseBlock(m.value, rows, cols)
    case Permuted(q, d0, d1) => var m := RunDense(q, inputs); if m.None? then None else DensePermute(m.value, d0, d1)
    case Swapped(q, d0, d1) => var m := RunDense(q, inputs); if m.None? then None else DenseSwap(m.value, d0, d1)
    case Piece(q, spec, dim, which) =>
      var m := RunDense(q, inputs); if m.None? then None else DensePiece(m.value, spec, dim, which)
    case Scaled(q, s) => var m := RunDense(q, inputs); if m.None? then None else DenseScale(m.value, s)
    case Joined(qs, dim) =>
      var ms := RunAllDense(qs, inputs); if ms.None? || dim != 0 then None else StackAll(ms.value)
  }

  function RunAllDense(ps: seq<Program>, inputs: seq<Mat>): (r: Option<seq<Mat>>)
    ensures r.Some? ==> |r.value| == |ps|
    decreases ps, 0
  {
    if ps == [] then Some([]) else
      var m, rest := RunDense(ps[0], inputs), RunAllDense(ps[1..], inputs);
      if m.None? || rest.None? then None else Some([m.value] + rest.value)
  }

  function DenseAll(ls: seq<LoraTensor>): (r: seq<Mat>)
    ensures |r| == |ls|
    ensures forall i :: 0 <= i < |ls| ==> r[i] == Dense(ls[i])
  {
    if ls == [] then [] else [Dense(ls[0])] + DenseAll(ls[1..])
  }

  // ---------- each operation commutes with forming the product ----------

  lemma {:induction false} PickEverything(m: Mat)
    ensures Indices(ALL, m.cols).Some? && PickCols(m, Indices(ALL, m.cols).value) == m
  {
    CountAll(0, m.cols);
    SameCells(PickCols(m, Indices(ALL, m.cols).value), m);
  }

  lemma {:induction false} BlockCommutes(l: LoraTensor, rows: Slice, cols: Slice)
    ensures GetBlock(l, rows, cols).Some? <==> DenseBlock(Dense(l), rows, cols).Some?
    ensures GetBlock(l, rows, cols).Some? ==>
              Dense(GetBlock(l, rows, cols).value) == DenseBlock(Dense(l), rows, cols).value
    ensures GetRows(l, rows).Some? ==> GetBlock(l, rows, ALL) == GetRows(l, rows)
    ensures GetRows(l, rows).None? ==> GetBlock(l, rows, ALL).None?
  {
    hide Indices, Product;
    var i, j := Indices(rows, l.b.rows), Indices(cols, l.a.cols);
    if i.Some? && j.Some? { ProductOfPicks(l.b, l.a, i.value, j.value); }
    PickEverything(l.a);
  }

  /** The axis that the factored form takes a first axis for. */
  function MeantAxis(d: int): int { if d == 2 then 0 else d }

  lemma {:induction false} PermuteCommutes(l: LoraTensor, d0: int, d1: int)
    ensures Permute(l, d0, d1).Some? <==> DensePermute(Dense(l), MeantAxis(d0), d1).Some?
    ensures Permute(l, d0, d1).Some? ==> Dense(Permute(l, d0, d1).value) == DensePermute(Dense(l), MeantAxis(d0), d1).value
  {
    ProductTransposed(l.b, l.a);
  }

  /** Swapping an axis with itself keeps the tensor, swapping the two transposes it, and there are no other axes. */
  lemma {:induction false} SwapCommutes(l: LoraTensor, d0: int, d1: int)
    ensures SwapAxes(l, d0, d1).Some? <==> DenseSwap(Dense(l), d0, d1).Some?
    ensures SwapAxes(l, d0, d1).Some? ==> Some(Dense(SwapAxes(l, d0, d1).value)) == DenseSwap(Dense(l), d0, d1)
  {
    ProductTransposed(l.b, l.a);
  }

  lemma {:induction false} PieceCommutes(l: LoraTensor, spec: SplitSpec, dim: int, which: nat)
    ensures SplitPiece(l, spec, dim, which).Some? <==> DensePiece(Dense(l), spec, dim, which).Some?
    ensures SplitPiece(l, spec, dim, which).Some? ==>
              Dense(SplitPiece(l, spec, dim, which).value) == DensePiece(Dense(l), spec, dim, which).value
  {
    hide PieceIndices, Product;
    var d := if dim < 0 then dim + 2 else dim;
    var i, j := PieceIndices(spec, l.b.rows, which), PieceIndices(spec, l.a.cols, which);
    if d == 1 && j.Some? { ProductOfCols(l.b, l.a, j.value); }
    if d == 0 && i.Some? { ProductOfRows(l.b, l.a, i.value); }
  }

  lemma {:induction false} ProductOfCols(b: Mat, a: Mat, cols: seq<nat>)
    requires b.cols == a.rows && InRange(cols, a.cols)
    ensures Product(b, PickCols(a, cols)) == PickCols(Product(b, a), cols)
  {
    var a' := PickCols(a, cols);
    var l, r := Product(b, a'), PickCols(Product(b, a), cols);
    forall i: nat, j: nat | i < l.rows && j < l.cols ensures At(l, i, j) == At(r, i, j) {
      DotSame(b, a', i, j, b, a, i, cols[j], b.cols);
    }
    SameCells(l, r);
  }

  lemma {:induction false} ProductOfRows(b: Mat, a: Mat, rows: seq<nat>)
    requires b.cols == a.rows && InRange(rows, b.rows)
    ensures Product(PickRows(b, rows), a) == PickRows(Product(b, a), rows)
  {
    var b' := PickRows(b, rows);
    var l, r := Product(b', a), PickRows(Product(b, a), rows);
    forall i: nat, j: nat | i < l.rows && j < l.cols ensures At(l, i, j) == At(r, i, j) {
      DotSame(b', a, i, j, b, a, rows[i], j, b.cols);
    }
    SameCells(l, r);
  }

  lemma {:induction false} MultiplyCommutes(l: LoraTensor, s: Scale)
    ensures !s.Wide? ==> (Multiply(l, s).Some? <==> DenseScale(Dense(l), s).Some?)
    ensures Multiply(l, s).Some? ==> DenseScale(Dense(l), s) == Some(Dense(Multiply(l, s).value))
  {
    hide Broadcast, Product;
    if !s.Wide? {
      var f := Broadcast(s, l.b.rows);
      if f.Some? { ProductScaled(l.b, l.a, f.value.0, f.value.1); }
    }
  }

  lemma {:induction false} StackCommutes(ls: seq<LoraTensor>, a: Mat)
    requires ls != [] && forall i :: 0 <= i < |ls| ==> ls[i].a == a
    ensures var b := StackAll(BFactors(ls));
            b.Some? && b.value.cols == a.rows && StackAll(DenseAll(ls)) == Some(Product(b.value, a))
    decreases |ls|
  {
    hide Product, Stack;
    if |ls| == 1 {
      assert DenseAll(ls)[0] == Dense(ls[0]);
    } else {
      assert ls[0].a == a && ls[1].a == a;
      StackCommutes(ls[1..], a);
      var b := StackAll(BFactors(ls[1..])).value;
      assert BFactors(ls)[1..] == BFactors(ls[1..]) && DenseAll(ls)[1..] == DenseAll(ls[1..]);
      ProductStacked(ls[0].b, b, a);
    }
  }

  lemma {:induction false} ConcatenateCommutes(ls: seq<LoraTensor>, dim: int)
    requires Concatenate(ls, dim).Some?
    ensures StackAll(DenseAll(ls)) == Some(Dense(Concatenate(ls, dim).value))
  {
    hide Product, StackAll;
    StackCommutes(ls, ls[0].a);
  }

  // ---------- main results ----------

  /** The program with the first axes of permutations as the factored form takes them. */
  function Meant(p: Program): Program
    decreases p, 1
  {
    match p
    case Input(_) => p
    case Rows(q, rows) => Rows(Meant(q), rows)
    case Block(q, rows, cols) => Block(Meant(q), rows, cols)
    case Permuted(q, d0, d1) => Permuted(Meant(q), MeantAxis(d0), d1)
    case Swapped(q, d0, d1) => Swapped(Meant(q), d0, d1)
    case Piece(q, spec, dim, which) => Piece(Meant(q), spec, dim, which)
    case Scaled(q, s) => Scaled(Meant(q), s)
    case Joined(ps, dim) => Joined(AllMeant(ps), dim)
  }

  function AllMeant(ps: seq<Program>): seq<Program>
    decreases ps, 0
  {
    if ps == [] then [] else [Meant(ps[0])] + AllMeant(ps[1..])
  }

  /** No permutation names a first axis of 2. */
  predicate AxesNamed(p: Program) {
    match p
    case Input(_) => true
    case Rows(q, _) => AxesNamed(q)
    case Block(q, _, _) => AxesNamed(q)
    case Permuted(q, d0, _) => AxesNamed(q) && d0 != 2
    case Swapped(q, _, _) => AxesNamed(q)
    case Piece(q, _, _, _) => AxesNamed(q)
    case Scaled(q, _) => AxesNamed(q)
    case Joined(ps, _) => forall i :: 0 <= i < |ps| ==> AxesNamed(ps[i])
  }

  lemma {:induction false} MeantAsWritten(p: Program)
    requires AxesNamed(p)
    ensures Meant(p) == p
    decreases p, 1
  {
    match p
    case Input(_) =>
    case Joined(ps, _) => AllMeantAsWritten(ps);
    case _ => MeantAsWritten(p.p);
  }

  lemma {:induction false} AllMeantAsWritten(ps: seq<Program>)
    requires forall i :: 0 <= i < |ps| ==> AxesNamed(ps[i])
    ensures AllMeant(ps) == ps
    decreases ps, 0
  {
    if ps != [] {
      MeantAsWritten(ps[0]);
      AllMeantAsWritten(ps[1..]);
    }
  }

  /** An axis that no matrix has, and that the factored form takes for its rows. */
  lemma {:induction false} AxisTwoAccepted(l: LoraTensor)
    ensures Permute(l, 2, 1) == Some(l) && DensePermute(Dense(l), 2, 1).None?
  {
    hide Dense;
  }

  /**
   * Whatever sequence of slices, permutations, splits, multiplications and
   * concatenations succeeds on the factors, the same sequence succeeds on the
   * dense matrices, and its result is the product of the resulting factors.
   */
  lemma {:induction false} FactoredRefinesDense(p: Program, inputs: seq<LoraTensor>)
    requires RunFactored(p, inputs).Some?
    ensures RunDense(Meant(p), DenseAll(inputs)) == Some(Dense(RunFactored(p, inputs).value))
    decreases p, 1
  {
    hide Dense, GetRows, GetBlock, DenseBlock, Permute, DensePermute, SplitPiece, DensePiece, Multiply, DenseScale,
         Concatenate, StackAll, SwapAxes, DenseSwap, MeantAxis;
    match p
    case Input(k) =>
    case Rows(q, rows) =>
      FactoredRefinesDense(q, inputs);
      BlockCommutes(RunFactored(q, inputs).value, rows, ALL);
    case Block(q, rows, cols) =>
      FactoredRefinesDense(q, inputs);
      BlockCommutes(RunFactored(q, inputs).value, rows, cols);
    case Permuted(q, d0, d1) =>
      FactoredRefinesDense(q, inputs);
      PermuteCommutes(RunFactored(q, inputs).value, d0, d1);
    case Swapped(q, d0, d1) =>
      FactoredRefinesDense(q, inputs);
      SwapCommutes(RunFactored(q, inputs).value, d0, d1);
    case Piece(q, spec, dim, which) =>
      FactoredRefinesDense(q, inputs);
      PieceCommutes(RunFactored(q, inputs).value, spec, dim, which);
    case Scaled(q, s) =>
      FactoredRefinesDense(q, inputs);
      MultiplyCommutes(RunFactored(q, inputs).value, s);
    case Joined(qs, dim) =>
      AllFactoredRefineDense(qs, inputs);
      ConcatenateCommutes(RunAllFactored(qs, inputs).value, dim);
      JoinOnRows(RunAllFactored(qs, inputs).value, dim);
  }

  lemma {:induction false} JoinOnRows(ls: seq<LoraTensor>, dim: int)
    requires Concatenate(ls, dim).Some?
    ensures dim == 0
  {
  }

  lemma {:induction false} AllFactoredRefineDense(ps: seq<Program>, inputs: seq<LoraTensor>)
    requires RunAllFactored(ps, inputs).Some?
    ensures RunAllDense(AllMeant(ps), DenseAll(inputs)) == Some(DenseAll(RunAllFactored(ps, inputs).value))
    decreases ps, 0
  {
    hide Dense, RunFactored, RunDense, Meant;
    if ps != [] {
      FactoredRefinesDense(ps[0], inputs);
      AllFactoredRefineDense(ps[1..], inputs);
      assert AllMeant(ps)[1..] == AllMeant(ps[1..]);
      var ls := RunAllFactored(ps, inputs).value;
      assert ls[1..] == RunAllFactored(ps[1..], inputs).value;
    }
  }

  /** The guards of the factored form: multipliers no wider than a column, and one common A where tensors are joined. */
  predicate Admitted(p: Program, inputs: seq<LoraTensor>)
    decreases p, 1
  {
    match p
    case Input(_) => true
    case Rows(q, _) => Admitted(q, inputs)
    case Block(q, _, _) => Admitted(q, inputs)
    case Permuted(q, _, _) => Admitted(q, inputs)
    case Swapped(q, _, _) => Admitted(q, inputs)
    case Piece(q, _, _, _) => Admitted(q, inputs)
    case Scaled(q, s) => Admitted(q, inputs) && !s.Wide?
    case Joined(ps, _) =>
      AllAdmitted(ps, inputs) && (RunAllFactored(ps, inputs).Some? ==> SharesA(RunAllFactored(ps, inputs).value))
  }

  predicate AllAdmitted(ps: seq<Program>, inputs: seq<LoraTensor>)
    decreases ps, 0
  {
    ps == [] || (Admitted(ps[0], inputs) && AllAdmitted(ps[1..], inputs))
  }

  /** The factored form accepts a program exactly when the dense form does and every guard holds. */
  lemma {:induction false} FactoredAcceptsExactly(p: Program, inputs: seq<LoraTensor>)
    ensures RunFactored(p, inputs).Some? <==> RunDense(Meant(p), DenseAll(inputs)).Some? && Admitted(p, inputs)
    decreases p, 1
  {
    hide Dense, GetRows, GetBlock, DenseBlock, Permute, DensePermute, SplitPiece, DensePiece, Multiply, DenseScale, Concatenate, StackAll,
         SharesA, SwapAxes, DenseSwap, MeantAxis;
    match p
    case Input(_) =>
    case Joined(ps, dim) =>
      AllAcceptedExactly(ps, inputs);
      if RunAllFactored(ps, inputs).Some? {
        AllFactoredRefineDense(ps, inputs);
        ConcatenateAccepts(RunAllFactored(ps, inputs).value, dim);
      }
    case _ =>
      FactoredAcceptsExactly(p.p, inputs);
      if RunFactored(p.p, inputs).Some? {
        FactoredRefinesDense(p.p, inputs);
        StepAccepts(p, inputs, RunFactored(p.p, inputs).value);
      }
  }

  /** The last step of a program on one tensor. */
  lemma {:induction false} StepAccepts(p: Program, inputs: seq<LoraTensor>, l: LoraTensor)
    requires !p.Input? && !p.Joined? && RunFactored(p.p, inputs) == Some(l) && RunDense(Meant(p.p), DenseAll(inputs)) == Some(Dense(l))
    ensures RunFactored(p, inputs).Some? <==> RunDense(Meant(p), DenseAll(inputs)).Some? && !(p.Scaled? && p.scale.Wide?)
  {
    hide Dense, GetRows, GetBlock, DenseBlock, Permute, DensePermute, SplitPiece, DensePiece, Multiply, DenseScale, SwapAxes, DenseSwap,
         MeantAxis;
    match p
    case Rows(_, rows) => BlockCommutes(l, rows, ALL);
    case Block(_, rows, cols) => BlockCommutes(l, rows, cols);
    case Permuted(_, d0, d1) => PermuteCommutes(l, d0, d1);
    case Swapped(_, d0, d1) => SwapCommutes(l, d0, d1);
    case Piece(_, spec, dim, which) => PieceCommutes(l, spec, dim, which);
    case Scaled(_, s) =>
      MultiplyCommutes(l, s);
      WideRefused(l, s);
    case _ =>
  }

  lemma {:induction false} WideRefused(l: LoraTensor, s: Scale)
    ensures s.Wide? ==> Multiply(l, s).None?
  {
  }

  lemma {:induction false} AllAcceptedExactly(ps: seq<Program>, inputs: seq<LoraTensor>)
    ensures RunAllFactored(ps, inputs).Some? <==> RunAllDense(AllMeant(ps), DenseAll(inputs)).Some? && AllAdmitted(ps, inputs)
    decreases ps, 0
  {
    hide RunFactored, RunDense, Admitted, Meant;
    if ps != [] {
      FactoredAcceptsExactly(ps[0], inputs);
      AllAcceptedExactly(ps[1..], inputs);
      assert AllMeant(ps)[1..] == AllMeant(ps[1..]);
    }
  }

  /** With one common A the factors can be joined exactly when the dense matrices can. */
  lemma {:induction false} ConcatenateAccepts(ls: seq<LoraTensor>, dim: int)
    ensures Concatenate(ls, dim).Some? <==> dim == 0 && StackAll(DenseAll(ls)).Some? && SharesA(ls)
  {
    if dim == 0 && SharesA(ls) && ls != [] {
      StackCommutes(ls, ls[0].a);
    } else if Concatenate(ls, dim).Some? {
      ConcatenateCommutes(ls, dim);
    }
  }

  // ---------- what the operations do to the entries ----------

  /** Axes that denote the same dimension leave the tensor, others exchange rows and columns. */
  lemma {:induction false} SwapEntries(l: LoraTensor, d0: int, d1: int)
    ensures SwapAxes(l, d0, d1).Some? <==> -2 <= d0 < 2 && -2 <= d1 < 2
    ensures SwapAxes(l, d0, d1).Some? ==>
              var m, r := Dense(l), Dense(SwapAxes(l, d0, d1).value);
              if (d0 - d1) % 2 == 0 then r == m
              else r.rows == m.cols && r.cols == m.rows && forall i: nat, j: nat :: i < r.rows && j < r.cols ==> At(r, i, j) == At(m, j, i)
  {
    hide Dense, SwapAxes;
    SwapCommutes(l, d0, d1);
  }

  /** The same for permute, where a first axis of 2 counts as 0. */
  lemma {:induction false} PermuteEntries(l: LoraTensor, d0: int, d1: int)
    ensures var axis := if d0 == 2 then 0 else d0;
            && (Permute(l, d0, d1).Some? <==> -2 <= axis < 2 && -2 <= d1 < 2 && (axis - d1) % 2 == 1)
            && (Permute(l, d0, d1).Some? ==>
                  var m, r := Dense(l), Dense(Permute(l, d0, d1).value);
                  if axis % 2 == 0 then r == m
                  else r.rows == m.cols && r.cols == m.rows &&
                       forall i: nat, j: nat :: i < r.rows && j < r.cols ==> At(r, i, j) == At(m, j, i))
  {
    hide Dense, Permute;
    PermuteCommutes(l, d0, d1);
  }

  /** Where a bound of a slice lies, counted from the front. */
  function Bound(b: Option<int>, n: nat, omitted: int): int {
    match b
    case None => omitted
    case Some(x) => if x < 0 then x + n else x
  }

  predicate Strictly(r: seq<nat>) { forall i, j :: 0 <= i < j < |r| ==> r[i] < r[j] }

  lemma {:induction false} StepsHold(from: nat, to: nat, step: nat, i: nat)
    requires step > 0
    ensures i in Steps(from, to, step) <==> from <= i < to && (i - from) % step == 0
    decreases if from < to then to - from else 0
  {
    if from < to {
      StepsHold(from + step, to, step, i);
      assert i in Steps(from, to, step) <==> i == from || i in Steps(from + step, to, step);
      hide Steps;
      if from + step <= i {
        Remainder(i - from, step);
      } else if from < i {
        DivUnique(i - from, step, 0, i - from);
      }
    }
  }

  lemma {:induction false} StepsRise(from: nat, to: nat, step: nat)
    requires step > 0
    ensures Strictly(Steps(from, to, step))
    decreases if from < to then to - from else 0
  {
    if from < to {
      var rest := Steps(from + step, to, step);
      StepsRise(from + step, to, step);
      forall k | 0 <= k < |rest| ensures from < rest[k] {
        assert rest[k] in rest;
        StepsHold(from + step, to, step, rest[k]);
      }
      assert Steps(from, to, step) == [from] + rest;
    }
  }

  lemma {:induction false} StepsAre(from: nat, to: nat, step: nat)
    requires step > 0
    ensures Strictly(Steps(from, to, step))
    ensures forall i: nat :: i in Steps(from, to, step) <==> from <= i < to && (i - from) % step == 0
  {
    StepsRise(from, to, step);
    forall i: nat ensures i in Steps(from, to, step) <==> from <= i < to && (i - from) % step == 0 { StepsHold(from, to, step, i); }
  }

  lemma {:induction false} Remainder(x: nat, step: nat)
    requires step > 0 && x >= step
    ensures (x - step) % step == x % step
  {
    DivUnique(x, step, (x - step) / step + 1, (x - step) % step);
  }

  /** A slice selects, in order, every step-th index from its start up to its end, both counted from the back when negative. */
  lemma {:induction false} IndicesAre(s: Slice, n: nat)
    ensures var step := if s.step.None? then 1 else s.step.value;
            && (Indices(s, n).Some? <==> step > 0)
            && (step > 0 ==>
                  var r, from, to := Indices(s, n).value, Bound(s.start, n, 0), Bound(s.stop, n, n);
                  && Strictly(r)
                  && forall i: nat :: i in r <==> i < n && from <= i < to && (i - (if from < 0 then 0 else from)) % step == 0)
  {
    var step := if s.step.None? then 1 else s.step.value;
    if step > 0 {
      var from := if s.start.Some? then Clamp(s.start.value, n) else 0;
      var to := if s.stop.Some? then Clamp(s.stop.value, n) else n;
      StepsAre(from, to, step);
    }
  }

  /** A block has the rows and columns that its slices select. */
  lemma {:induction false} BlockEntries(l: LoraTensor, rows: Slice, cols: Slice)
    requires GetBlock(l, rows, cols).Some?
    ensures Indices(rows, Dense(l).rows).Some? && Indices(cols, Dense(l).cols).Some?
    ensures var m, r := Dense(l), Dense(GetBlock(l, rows, cols).value);
            var i', j' := Indices(rows, m.rows).value, Indices(cols, m.cols).value;
            r.rows == |i'| && r.cols == |j'| && forall i: nat, j: nat :: i < r.rows && j < r.cols ==> At(r, i, j) == At(m, i'[i], j'[j])
  {
    BlockCommutes(l, rows, cols);
    hide Indices, Product;
  }

  /** Chunks have the asked size but for the last, which may be smaller; a list of sizes must fit exactly. */
  lemma {:induction false} PieceSizesAre(spec: SplitSpec, n: nat)
    ensures spec.Sizes? ==>
              PieceSizes(spec, n) == if NonNegative(spec.sizes) && Sum(spec.sizes) == n then Some(spec.sizes) else None
    ensures spec.Chunk? ==> (PieceSizes(spec, n).Some? <==> spec.size > 0 || (spec.size == 0 && n == 0))
    ensures spec.Chunk? && PieceSizes(spec, n).Some? ==>
              var r := PieceSizes(spec, n).value;
              && r != [] && (forall k :: 0 <= k < |r| - 1 ==> r[k] == spec.size)
              && r[|r| - 1] <= spec.size && (n > 0 ==> r[|r| - 1] > 0) && (n == 0 ==> r == [0])
  {
    if spec.Chunk? && spec.size > 0 { ChunksAre(n, spec.size); }
  }

  lemma {:induction false} ChunksAre(n: nat, size: nat)
    requires size > 0
    ensures var r := ChunkSizes(n, size);
            && r != [] && (forall k :: 0 <= k < |r| - 1 ==> r[k] == size)
            && r[|r| - 1] <= size && (n > 0 ==> r[|r| - 1] > 0) && (n == 0 ==> r == [0])
    decreases n
  {
    if n > size { ChunksAre(n - size, size); }
  }

  lemma {:induction false} PieceIndexAt(spec: SplitSpec, n: nat, which: nat, k: nat)
    requires PieceIndices(spec, n, which).Some? && k < |PieceIndices(spec, n, which).value|
    ensures PieceSizes(spec, n).Some? && which < |PieceSizes(spec, n).value|
    ensures PieceIndices(spec, n, which).value[k] == Sum(PieceSizes(spec, n).value[..which]) + k
  {
    var sizes := PieceSizes(spec, n).value;
    PieceSizesSum(spec, n);
    SumUpTo(sizes, which);
    StepsAt(Sum(sizes[..which]), Sum(sizes[..which]) + sizes[which], k);
  }

  lemma {:induction false} StepsAt(from: nat, to: nat, k: nat)
    requires from <= to && k < |Steps(from, to, 1)|
    ensures |Steps(from, to, 1)| == to - from && Steps(from, to, 1)[k] == from + k
  {
    CountAll(from, to);
  }

  lemma {:induction false} PieceLength(spec: SplitSpec, n: nat, which: nat)
    requires PieceIndices(spec, n, which).Some?
    ensures PieceSizes(spec, n).Some? && which < |PieceSizes(spec, n).value|
    ensures |PieceIndices(spec, n, which).value| == PieceSizes(spec, n).value[which]
  {
    var sizes := PieceSizes(spec, n).value;
    PieceSizesSum(spec, n);
    SumUpTo(sizes, which);
    CountAll(Sum(sizes[..which]), Sum(sizes[..which]) + sizes[which]);
  }

  /** The indices of a piece follow those of the pieces before it. */
  lemma {:induction false} PieceFollows(spec: SplitSpec, n: nat, which: nat)
    requires PieceIndices(spec, n, which).Some?
    ensures PieceSizes(spec, n).Some? && which < |PieceSizes(spec, n).value|
    ensures var idx, sizes := PieceIndices(spec, n, which).value, PieceSizes(spec, n).value;
            && |idx| == sizes[which]
            && forall k: nat :: k < |idx| ==> idx[k] == Sum(sizes[..which]) + k && 0 <= Sum(sizes[..which]) + k < n
  {
    PieceLength(spec, n, which);
    var idx := PieceIndices(spec, n, which).value;
    assert InRange(idx, n);
    hide PieceIndices;
    forall k: nat | k < |idx| ensures idx[k] == Sum(PieceSizes(spec, n).value[..which]) + k { PieceIndexAt(spec, n, which, k); }
  }

  /** `part` is the rows of `whole` from row `before` on. */
  predicate RowsFrom(part: Mat, whole: Mat, before: int) {
    && 0 <= before && before + part.rows <= whole.rows && part.cols == whole.cols
    && forall i: nat, j: nat {:trigger At(part, i, j)} ::
         i < part.rows && j < part.cols ==> At(part, i, j) == At(whole, before + i, j)
  }

  /** `part` is the columns of `whole` from column `before` on. */
  predicate ColsFrom(part: Mat, whole: Mat, before: int) {
    && 0 <= before && before + part.cols <= whole.cols && part.rows == whole.rows
    && forall i: nat, j: nat {:trigger At(part, i, j)} ::
         i < part.rows && j < part.cols ==> At(part, i, j) == At(whole, i, before + j)
  }

  /** A piece is the stretch of rows, or of columns, after the pieces before it. */
  lemma {:induction false} PieceEntries(l: LoraTensor, spec: SplitSpec, dim: int, which: nat)
    requires SplitPiece(l, spec, dim, which).Some?
    ensures -2 <= dim < 2
    ensures var m, r := Dense(l), Dense(SplitPiece(l, spec, dim, which).value);
            var sizes := PieceSizes(spec, if dim % 2 == 0 then m.rows else m.cols);
            && sizes.Some? && which < |sizes.value|
            && (dim % 2 == 0 ==> r.rows == sizes.value[which] && RowsFrom(r, m, Sum(sizes.value[..which])))
            && (dim % 2 != 0 ==> r.cols == sizes.value[which] && ColsFrom(r, m, Sum(sizes.value[..which])))
  {
    PieceCommutes(l, spec, dim, which);
    var m := Dense(l);
    hide Product, PieceIndices, PieceSizes, Sum;
    if dim % 2 == 0 { PieceOfRows(m, spec, which); } else { PieceOfCols(m, spec, which); }
  }

  lemma {:induction false} PieceOfRows(m: Mat, spec: SplitSpec, which: nat)
    requires PieceIndices(spec, m.rows, which).Some?
    ensures PieceSizes(spec, m.rows).Some? && which < |PieceSizes(spec, m.rows).value|
    ensures var r := PickRows(m, PieceIndices(spec, m.rows, which).value);
            r.rows == PieceSizes(spec, m.rows).value[which] && RowsFrom(r, m, Sum(PieceSizes(spec, m.rows).value[..which]))
  {
    PieceFollows(spec, m.rows, which);
    PieceBounds(spec, m.rows, which);
    hide PieceIndices, PieceSizes, Sum;
  }

  lemma {:induction false} PieceOfCols(m: Mat, spec: SplitSpec, which: nat)
    requires PieceIndices(spec, m.cols, which).Some?
    ensures PieceSizes(spec, m.cols).Some? && which < |PieceSizes(spec, m.cols).value|
    ensures var r := PickCols(m, PieceIndices(spec, m.cols, which).value);
            r.cols == PieceSizes(spec, m.cols).value[which] && ColsFrom(r, m, Sum(PieceSizes(spec, m.cols).value[..which]))
  {
    PieceFollows(spec, m.cols, which);
    PieceBounds(spec, m.cols, which);
    hide PieceIndices, PieceSizes, Sum;
  }

  lemma {:induction false} PieceBounds(spec: SplitSpec, n: nat, which: nat)
    requires PieceSizes(spec, n).Some? && which < |PieceSizes(spec, n).value|
    ensures var sizes := PieceSizes(spec, n).value; 0 <= Sum(sizes[..which]) <= Sum(sizes[..which]) + sizes[which] <= n
  {
    PieceSizesSum(spec, n);
    SumUpTo(PieceSizes(spec, n).value, which);
  }

  /** A number scales every entry, a column scales row by row, and a single row is repeated for a longer column. */
  lemma {:induction false} ScaleEntries(l: LoraTensor, s: Scale)
    ensures var n := Dense(l).rows;
            Multiply(l, s).Some? <==> s.Scalar? || (s.Column? && (|s.v| == n || |s.v| == 1 || n == 1))
    ensures Multiply(l, s).Some? ==>
              var m, r := Dense(l), Dense(Multiply(l, s).value);
              && r.cols == m.cols && r.rows == (if s.Column? && m.rows == 1 then |s.v| else m.rows)
              && forall i: nat, j: nat :: i < r.rows && j < r.cols ==>
                   At(r, i, j) == At(m, if m.rows == 1 then 0 else i, j) *
                                  (if s.Scalar? then s.c else if |s.v| == 1 then s.v[0] else s.v[i])
  {
    MultiplyCommutes(l, s);
    hide Product;
  }

  function RowsBefore(ls: seq<LoraTensor>, k: nat): nat
    requires k <= |ls|
  {
    if k == 0 then 0 else RowsBefore(ls, k - 1) + Dense(ls[k - 1]).rows
  }

  lemma {:induction false} RowsBeforeTail(ls: seq<LoraTensor>, k: nat)
    requires 0 < k <= |ls|
    ensures RowsBefore(ls, k) == Dense(ls[0]).rows + RowsBefore(ls[1..], k - 1)
  {
    hide Dense;
    if k > 1 {
      RowsBeforeTail(ls, k - 1);
      assert ls[1..][k - 2] == ls[k - 1];
    }
  }

  lemma {:induction false} StackStep(ls: seq<LoraTensor>)
    requires StackAll(DenseAll(ls)).Some? && |ls| > 1
    ensures StackAll(DenseAll(ls[1..])).Some?
    ensures var rest := StackAll(DenseAll(ls[1..])).value;
            rest.cols == Dense(ls[0]).cols && StackAll(DenseAll(ls)).value == Stack(Dense(ls[0]), rest)
  {
    hide Dense, Stack;
    assert DenseAll(ls)[1..] == DenseAll(ls[1..]) && DenseAll(ls)[0] == Dense(ls[0]);
  }

  lemma {:induction false} StackRows(top: Mat, bottom: Mat)
    requires top.cols == bottom.cols
    ensures RowsFrom(top, Stack(top, bottom), 0) && RowsFrom(bottom, Stack(top, bottom), top.rows)
  {
  }

  lemma {:induction false} RowsOfRows(part: Mat, middle: Mat, whole: Mat, a: int, b: int)
    requires RowsFrom(part, middle, a) && RowsFrom(middle, whole, b)
    ensures RowsFrom(part, whole, b + a)
  {
    forall i: nat, j: nat | i < part.rows && j < part.cols ensures At(part, i, j) == At(whole, (b + a) + i, j) {
      assert At(part, i, j) == At(middle, a + i, j);
      assert b + (a + i) == (b + a) + i;
    }
  }

  lemma {:induction false} StackEntries(ls: seq<LoraTensor>, k: nat)
    requires StackAll(DenseAll(ls)).Some? && k < |ls|
    ensures RowsFrom(Dense(ls[k]), StackAll(DenseAll(ls)).value, RowsBefore(ls, k))
    decreases |ls|
  {
    NoRows(ls);
    hide Dense, StackAll, DenseAll, Stack, RowsBefore, RowsFrom;
    if |ls| == 1 {
      StackOne(ls);
    } else {
      StackStep(ls);
      var rest := StackAll(DenseAll(ls[1..])).value;
      StackRows(Dense(ls[0]), rest);
      if k > 0 {
        RowsBeforeTail(ls, k);
        StackEntries(ls[1..], k - 1);
        RowsOfRows(Dense(ls[k]), rest, StackAll(DenseAll(ls)).value, RowsBefore(ls[1..], k - 1), Dense(ls[0]).rows);
      }
    }
  }

  lemma {:induction false} StackOne(ls: seq<LoraTensor>)
    requires |ls| == 1
    ensures StackAll(DenseAll(ls)) == Some(Dense(ls[0])) && RowsFrom(Dense(ls[0]), Dense(ls[0]), 0)
  {
    assert DenseAll(ls)[0] == Dense(ls[0]);
    hide Dense;
  }

  lemma {:induction false} NoRows(ls: seq<LoraTensor>)
    ensures RowsBefore(ls, 0) == 0
  {
  }

  lemma {:induction false} StackShape(ls: seq<LoraTensor>)
    requires StackAll(DenseAll(ls)).Some?
    ensures StackAll(DenseAll(ls)).value.rows == RowsBefore(ls, |ls|)
    decreases |ls|
  {
    hide Dense;
    RowsBeforeTail(ls, |ls|);
    if |ls| > 1 {
      assert DenseAll(ls)[1..] == DenseAll(ls[1..]);
      StackShape(ls[1..]);
    }
  }

  /** Joined tensors stand below each other in the order they are given. */
  lemma {:induction false} JoinEntries(ls: seq<LoraTensor>, dim: int, k: nat)
    requires Concatenate(ls, dim).Some? && k < |ls|
    ensures var r := Dense(Concatenate(ls, dim).value);
            r.rows == RowsBefore(ls, |ls|) && RowsFrom(Dense(ls[k]), r, RowsBefore(ls, k))
  {
    hide Dense, StackAll, Concatenate, RowsBefore, RowsFrom;
    ConcatenateCommutes(ls, dim);
    StackShape(ls);
    StackEntries(ls, k);
  }
}
