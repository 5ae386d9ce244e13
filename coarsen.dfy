/**
 * `coarsen_grid`: block-wise downsampling of a grid of any rank. Each axis of length `n` is
 * cut into blocks of `b` cells; a last partial block is completed by constant padding (NaN
 * for the NaN-ignoring reductions, 0.0 for the sum) and every block is reduced to one cell.
 */
module Coarsening {
  import opened Wrappers
  import opened Numeric
  import opened NdArrays

  /** The five reductions `coarsen_grid` accepts. */
  datatype Method = Mean | Total | Maximum | Minimum | Harmonic

  /** The name a caller passes for each method. */
  function MethodName(m: Method): string {
    match m
    case Mean => "mean"
    case Total => "sum"
    case Maximum => "max"
    case Minimum => "min"
    case Harmonic => "harmonic"
  }

  /** Reads a method name; `None` for any name outside the five. */
  function ParseMethod(name: string): (m: Option<Method>)
    ensures m.Some? ==> MethodName(m.value) == name
  {
    if name == "mean" then Some(Mean)
    else if name == "sum" then Some(Total)
    else if name == "max" then Some(Maximum)
    else if name == "min" then Some(Minimum)
    else if name == "harmonic" then Some(Harmonic)
    else None
  }

  /** Every method is accepted under its own name, and only there. */
  lemma ParseMethodName(m: Method, name: string)
    ensures ParseMethod(MethodName(m)) == Some(m)
    ensures ParseMethod(name) == Some(m) <==> name == MethodName(m)
  {
  }

  /** The constant a partial block is completed with. */
  function PadValue(m: Method): Num {
    if m == Total then Fin(0.0) else NaN
  }

  /** One block reduced to one cell. */
  function Reduce(m: Method, cells: seq<Num>, eps: real): Num {
    match m
    case Mean => NanMean(cells)
    case Total => PlainSum(cells)
    case Maximum => NanMax(cells)
    case Minimum => NanMin(cells)
    case Harmonic => BlockHarmonic(cells, eps)
  }

  // ---- padding cells never change a block's reduction ----

  lemma {:induction false} FiniteStripNaN(s: seq<Num>)
    ensures Finite(Strip(s, NaN)) == Finite(s)
  {
    if s != [] {
      FiniteStripNaN(s[1..]);
      var h := if s[0] == NaN then [] else [s[0]];
      FiniteConcat(h, Strip(s[1..], NaN));
      assert s == [s[0]] + s[1..];
      FiniteConcat([s[0]], s[1..]);
    }
  }

  lemma {:induction false} StripZeroKeepsSum(s: seq<Num>)
    ensures AllFinite(Strip(s, Fin(0.0))) == AllFinite(s)
    ensures Sum(Finite(Strip(s, Fin(0.0)))) == Sum(Finite(s))
  {
    if s != [] {
      StripZeroKeepsSum(s[1..]);
      var h := if s[0] == Fin(0.0) then [] else [s[0]];
      var t := Strip(s[1..], Fin(0.0));
      AllFiniteConcat(h, t);
      FiniteConcat(h, t);
      SumConcat(Finite(h), Finite(t));
      assert s == [s[0]] + s[1..];
      AllFiniteConcat([s[0]], s[1..]);
      FiniteConcat([s[0]], s[1..]);
      SumConcat(Finite([s[0]]), Finite(s[1..]));
    }
  }

  /** Two blocks that differ only in padding cells reduce to the same value. */
  lemma ReduceIgnoresPadding(m: Method, s1: seq<Num>, s2: seq<Num>, eps: real)
    requires Strip(s1, PadValue(m)) == Strip(s2, PadValue(m))
    ensures Reduce(m, s1, eps) == Reduce(m, s2, eps)
  {
    if m == Total {
      StripZeroKeepsSum(s1);
      StripZeroKeepsSum(s2);
    } else {
      FiniteStripNaN(s1);
      FiniteStripNaN(s2);
    }
  }

  // ---- block arithmetic ----

  /** `ceil(n / b)`: the number of blocks along an axis. */
  function CeilDiv(n: nat, b: nat): (q: nat)
    requires b >= 1
    ensures q * b >= n && (q == 0 || (q - 1) * b < n)
  {
    var k := n / b;
    assert n == k * b + n % b;
    if n % b == 0 then k else k + 1
  }

  /** The padding `coarsen_grid` appends after an axis: `b - n % b`, or 0 when `b` divides `n`. */
  function PadFor(n: nat, b: nat): (p: nat)
    requires b >= 1
    ensures n + p == CeilDiv(n, b) * b
  {
    var k := n / b;
    assert n == k * b + n % b;
    if n % b == 0 then 0 else b - n % b
  }

  lemma MulMono(x: nat, y: nat, b: nat)
    requires x <= y
    ensures x * b <= y * b
  {
  }

  lemma MulStrict(x: nat, y: nat, b: nat)
    requires x < y && b >= 1
    ensures x * b < y * b
  {
  }

  /** Coarse extents: `ceil(n / b)` per axis. */
  function CoarseShape(shape: seq<nat>, b: seq<nat>): (r: seq<nat>)
    requires |b| == |shape| && forall d :: 0 <= d < |b| ==> b[d] >= 1
    ensures |r| == |shape| && forall d :: 0 <= d < |shape| ==> r[d] == CeilDiv(shape[d], b[d])
  {
    seq(|shape|, d requires 0 <= d < |shape| => CeilDiv(shape[d], b[d]))
  }

  function PadAmounts(shape: seq<nat>, b: seq<nat>): (r: seq<nat>)
    requires |b| == |shape| && forall d :: 0 <= d < |b| ==> b[d] >= 1
    ensures |r| == |shape| && forall d :: 0 <= d < |shape| ==> r[d] == PadFor(shape[d], b[d])
  {
    seq(|shape|, d requires 0 <= d < |shape| => PadFor(shape[d], b[d]))
  }

  /** The corner `(J + k) * b` of coarse index `J` (`k = 0`: first cell, `k = 1`: one past the last). */
  function Corner(J: seq<nat>, b: seq<nat>, k: nat): (r: seq<nat>)
    requires |J| == |b|
    ensures |r| == |J| && forall d :: 0 <= d < |J| ==> r[d] == BlockEdge(J[d], b[d], k)
  {
    seq(|J|, d requires 0 <= d < |J| => BlockEdge(J[d], b[d], k))
  }

  /** `(x + k) * b`: where block `x` starts (`k = 0`) or ends (`k = 1`) along one axis. */
  function BlockEdge(x: nat, b: nat, k: nat): nat {
    (x + k) * b
  }

  /** The block of coarse cell `J` lies inside the padded grid and starts inside the original one. */
  lemma BlockOfCoarseCell(shape: seq<nat>, b: seq<nat>, J: seq<nat>)
    requires |b| == |shape| && forall d :: 0 <= d < |b| ==> b[d] >= 1
    requires InBounds(J, CoarseShape(shape, b))
    ensures BlockIn(Corner(J, b, 0), Corner(J, b, 1), Grow(shape, PadAmounts(shape, b)))
    ensures forall d :: 0 <= d < |shape| ==> Corner(J, b, 0)[d] < shape[d]
  {
    var g := Grow(shape, PadAmounts(shape, b));
    var lo, hi := Corner(J, b, 0), Corner(J, b, 1);
    forall d | 0 <= d < |shape|
      ensures lo[d] <= hi[d] <= g[d] && lo[d] < shape[d]
    {
      var n, bd, x := shape[d], b[d], J[d];
      assert x < CeilDiv(n, bd);
      AxisBlock(n, bd, x);
    }
    assert BlockIn(lo, hi, g);
  }

  lemma AxisBlock(n: nat, b: nat, x: nat)
    requires b >= 1 && x < CeilDiv(n, b)
    ensures BlockEdge(x, b, 0) <= BlockEdge(x, b, 1) <= n + PadFor(n, b) && BlockEdge(x, b, 0) < n
  {
    var q := CeilDiv(n, b);
    MulMono(x, x + 1, b);
    MulMono(x + 1, q, b);
    MulMono(x, q - 1, b);
  }

  /** The cells of coarse cell `J`'s block in the padded grid, reduced. */
  function CoarseCell(padded: Nd<Num>, shape: seq<nat>, b: seq<nat>, m: Method, eps: real, J: seq<nat>): Num
    requires |b| == |shape| && forall d :: 0 <= d < |b| ==> b[d] >= 1
    requires HasShape(padded, Grow(shape, PadAmounts(shape, b)))
    requires InBounds(J, CoarseShape(shape, b))
  {
    BlockOfCoarseCell(shape, b, J);
    Reduce(m, Box(padded, Grow(shape, PadAmounts(shape, b)), Corner(J, b, 0), Corner(J, b, 1)), eps)
  }

  /** Pad, cut into blocks, reduce each block: the computation behind a valid call. */
  function CoarsenBlocks(a: Nd<Num>, shape: seq<nat>, b: seq<nat>, m: Method, eps: real): (r: Nd<Num>)
    requires HasShape(a, shape)
    requires |b| == |shape| && forall d :: 0 <= d < |b| ==> b[d] >= 1
    ensures HasShape(r, CoarseShape(shape, b))
  {
    var padded := PadAfter(a, shape, PadAmounts(shape, b), PadValue(m));
    Tabulate(CoarseShape(shape, b), J requires InBounds(J, CoarseShape(shape, b)) =>
      CoarseCell(padded, shape, b, m, eps, J))
  }

  /**
   * The main property: each coarse cell is the reduction of exactly the original cells of its
   * block, the last partial block included (padding changes nothing, so a partial sum is the
   * sum of its real cells and a partial mean the mean of its real cells).
   */
  lemma CoarsenBlocksCell(a: Nd<Num>, shape: seq<nat>, b: seq<nat>, m: Method, eps: real, J: seq<nat>)
    requires HasShape(a, shape)
    requires |b| == |shape| && forall d :: 0 <= d < |b| ==> b[d] >= 1
    requires InBounds(J, CoarseShape(shape, b))
    ensures BlockIn(Corner(J, b, 0), MinShape(Corner(J, b, 1), shape), shape)
    ensures At(CoarsenBlocks(a, shape, b, m, eps), CoarseShape(shape, b), J) ==
      Reduce(m, Box(a, shape, Corner(J, b, 0), MinShape(Corner(J, b, 1), shape)), eps)
  {
    BlockOfCoarseCell(shape, b, J);
    var after := PadAmounts(shape, b);
    var padded := PadAfter(a, shape, after, PadValue(m));
    StripBoxPadAfter(a, shape, after, PadValue(m), Corner(J, b, 0), Corner(J, b, 1));
    ReduceIgnoresPadding(m,
      Box(padded, Grow(shape, after), Corner(J, b, 0), Corner(J, b, 1)),
      Box(a, shape, Corner(J, b, 0), MinShape(Corner(J, b, 1), shape)), eps);
  }

  /** What `coarsen_grid` raises. */
  datatype CoarsenError =
    | BatchRankMismatch(batchLength: nat, ndim: nat)
    | UnsupportedMethod(name: string)
      /** A block size of 0 divides by zero and a negative one makes an invalid reshape. */
    | NonPositiveBatch

  predicate AllPositive(batch: seq<int>) {
    forall d :: 0 <= d < |batch| ==> batch[d] >= 1
  }

  function AsNats(batch: seq<int>): (b: seq<nat>)
    requires AllPositive(batch)
    ensures |b| == |batch| && forall d :: 0 <= d < |b| ==> b[d] == batch[d] && b[d] >= 1
  {
    seq(|batch|, d requires 0 <= d < |batch| => batch[d] as nat)
  }

  /** `coarsen_grid(data, batch_size, method, epsilon)`. */
  function CoarsenGrid(a: Nd<Num>, shape: seq<nat>, batch: seq<int>, name: string, eps: real)
    : (r: Result<Nd<Num>, CoarsenError>)
    requires HasShape(a, shape)
    ensures |batch| != |shape| ==> r == Err(BatchRankMismatch(|batch|, |shape|))
    ensures |batch| == |shape| && ParseMethod(name).None? ==> r == Err(UnsupportedMethod(name))
    ensures r.Ok? <==> |batch| == |shape| && ParseMethod(name).Some? && AllPositive(batch)
    ensures r.Ok? ==> HasShape(r.value, CoarseShape(shape, AsNats(batch)))
    ensures r.Ok? ==> forall J {:trigger At(r.value, CoarseShape(shape, AsNats(batch)), J)} ::
      InBounds(J, CoarseShape(shape, AsNats(batch))) ==>
      BlockIn(Corner(J, AsNats(batch), 0), MinShape(Corner(J, AsNats(batch), 1), shape), shape) &&
      At(r.value, CoarseShape(shape, AsNats(batch)), J) ==
        Reduce(ParseMethod(name).value,
               Box(a, shape, Corner(J, AsNats(batch), 0), MinShape(Corner(J, AsNats(batch), 1), shape)), eps)
  {
    if |batch| != |shape| then Err(BatchRankMismatch(|batch|, |shape|))
    else if ParseMethod(name).None? then Err(UnsupportedMethod(name))
    else if !AllPositive(batch) then Err(NonPositiveBatch)
    else
      var b := AsNats(batch);
      var m := ParseMethod(name).value;
      var out := CoarsenBlocks(a, shape, b, m, eps);
      assert forall J :: InBounds(J, CoarseShape(shape, b)) ==>
        BlockIn(Corner(J, b, 0), MinShape(Corner(J, b, 1), shape), shape) &&
        At(out, CoarseShape(shape, b), J) ==
          Reduce(m, Box(a, shape, Corner(J, b, 0), MinShape(Corner(J, b, 1), shape)), eps) by {
        forall J | InBounds(J, CoarseShape(shape, b)) { CoarsenBlocksCell(a, shape, b, m, eps, J); }
      }
      Ok(out)
  }
  /** A successful call reduces every block with the named method. */
  lemma CoarsenByName(a: Nd<Num>, shape: seq<nat>, batch: seq<int>, name: string, m: Method, eps: real, J: seq<nat>)
    requires HasShape(a, shape)
    requires ParseMethod(name) == Some(m)
    requires CoarsenGrid(a, shape, batch, name, eps).Ok?
    requires InBounds(J, CoarseShape(shape, AsNats(batch)))
    ensures BlockIn(Corner(J, AsNats(batch), 0), MinShape(Corner(J, AsNats(batch), 1), shape), shape)
    ensures At(CoarsenGrid(a, shape, batch, name, eps).value, CoarseShape(shape, AsNats(batch)), J) ==
      Reduce(m, Box(a, shape, Corner(J, AsNats(batch), 0), MinShape(Corner(J, AsNats(batch), 1), shape)), eps)
  {
  }
}

/** The two worked examples of `coarsen_grid`'s documentation, on `np.arange` grids. */
module CoarseningExamples {
  import opened Wrappers
  import opened Numeric
  import opened NdArrays
  import opened Coarsening

  /** The C-order position of `[i, j]` in an `(_, n1)` array. */
  function Offset2(n1: nat, i: nat, j: nat): nat {
    n1 * i + j
  }

  /** The C-order position of `[i, j, k]` in an `(_, n1, n2)` array. */
  function Offset3(n1: nat, n2: nat, i: nat, j: nat, k: nat): nat {
    n1 * n2 * i + n2 * j + k
  }

  /** Cell `idx` of a 2-D `arange` grid with `n1` columns. */
  function ArangeCell2(n1: nat): seq<nat> --> Num {
    (idx: seq<nat>) requires |idx| == 2 => Fin(Offset2(n1, idx[0], idx[1]) as real)
  }

  /** Cell `idx` of a 3-D `arange` grid of `n1 x n2` layers. */
  function ArangeCell3(n1: nat, n2: nat): seq<nat> --> Num {
    (idx: seq<nat>) requires |idx| == 3 => Fin(Offset3(n1, n2, idx[0], idx[1], idx[2]) as real)
  }

  /** `np.arange(n0 * n1 * 1.0).reshape(n0, n1)`. */
  function Arange2(n0: nat, n1: nat): Nd<Num> {
    Tabulate([n0, n1], ArangeCell2(n1))
  }

  /** `np.arange(n0 * n1 * n2 * 1.0).reshape(n0, n1, n2)`. */
  function Arange3(n0: nat, n1: nat, n2: nat): Nd<Num> {
    Tabulate([n0, n1, n2], ArangeCell3(n1, n2))
  }

  lemma AtArange2(n0: nat, n1: nat, idx: seq<nat>)
    requires InBounds(idx, [n0, n1])
    ensures HasShape(Arange2(n0, n1), [n0, n1])
    ensures At(Arange2(n0, n1), [n0, n1], idx) == Fin(Offset2(n1, idx[0], idx[1]) as real)
  {
    assert At(Arange2(n0, n1), [n0, n1], idx) == ArangeCell2(n1)(idx);
  }

  lemma AtArange3(n0: nat, n1: nat, n2: nat, idx: seq<nat>)
    requires InBounds(idx, [n0, n1, n2])
    ensures HasShape(Arange3(n0, n1, n2), [n0, n1, n2])
    ensures At(Arange3(n0, n1, n2), [n0, n1, n2], idx) == Fin(Offset3(n1, n2, idx[0], idx[1], idx[2]) as real)
  {
    assert At(Arange3(n0, n1, n2), [n0, n1, n2], idx) == ArangeCell3(n1, n2)(idx);
  }

  /** The part of a one-axis block from `r` on is the row's cells from `r` on. */
  lemma {:induction false} RowsOfLine<T>(row: Nd<T>, n: nat, lo: nat, hi: nat, r: nat)
    requires HasShape(row, [n]) && lo <= r <= hi <= n
    ensures BlockIn([lo], [hi], [n])
    ensures BoxRows(row, [n], [lo], [hi], r) ==
      seq(hi - r, k requires 0 <= k < hi - r => At(row, [n], [r + k]))
    decreases hi - r
  {
    assert BlockIn([lo], [hi], [n]);
    if r < hi {
      RowsOfLine(row, n, lo, hi, r + 1);
      assert [n][1..] == [] && [lo][1..] == [] && [hi][1..] == [] && [r][1..] == [];
      assert Box(row.items[r], [], [], []) == [At(row, [n], [r])];
    }
  }

  /** A one-axis block lists its cells from `lo` up. */
  lemma BoxOfLine<T>(row: Nd<T>, n: nat, lo: nat, len: nat)
    requires HasShape(row, [n]) && lo + len <= n && len <= 2
    ensures Box(row, [n], [lo], [lo + len]) ==
      if len == 0 then [] else if len == 1 then [At(row, [n], [lo])]
      else [At(row, [n], [lo]), At(row, [n], [lo + 1])]
  {
    RowsOfLine(row, n, lo, lo + len, lo);
    var s := seq(len, k requires 0 <= k < len => At(row, [n], [lo + k]));
    assert Box(row, [n], [lo], [lo + len]) == s;
    if len == 0 {
      assert s == [];
    } else if len == 1 {
      assert s == [At(row, [n], [lo])];
    } else if len == 2 {
      assert s == [At(row, [n], [lo]), At(row, [n], [lo + 1])];
    }
  }

  /** A 2 x 2 block lists its four cells in C order. */
  lemma BoxOf2x2<T>(a: Nd<T>, shape: seq<nat>, i: nat, j: nat)
    requires |shape| == 2 && HasShape(a, shape) && i + 2 <= shape[0] && j + 2 <= shape[1]
    ensures BlockIn([i, j], [i + 2, j + 2], shape)
    ensures Box(a, shape, [i, j], [i + 2, j + 2]) ==
      [At(a, shape, [i, j]), At(a, shape, [i, j + 1]), At(a, shape, [i + 1, j]), At(a, shape, [i + 1, j + 1])]
  {
    var lo, hi := [i, j], [i + 2, j + 2];
    var n := shape[1];
    assert lo[1..] == [j] && hi[1..] == [j + 2] && shape[1..] == [n];
    assert BlockIn(lo, hi, shape);
    BoxOfLine(a.items[i], n, j, 2);
    BoxOfLine(a.items[i + 1], n, j, 2);
    var r0, r1 := Box(a.items[i], [n], [j], [j + 2]), Box(a.items[i + 1], [n], [j], [j + 2]);
    assert BoxRows(a, shape, lo, hi, i + 2) == [];
    assert BoxRows(a, shape, lo, hi, i + 1) == r1;
    assert BoxRows(a, shape, lo, hi, i) == r0 + r1;
    assert [i, j][1..] == [j] && [i, j + 1][1..] == [j + 1];
    assert [i + 1, j][1..] == [j] && [i + 1, j + 1][1..] == [j + 1];
    assert r0 == [At(a, shape, [i, j]), At(a, shape, [i, j + 1])];
    assert r1 == [At(a, shape, [i + 1, j]), At(a, shape, [i + 1, j + 1])];
  }

  /** A 2 x 2 x 2 block lists its eight cells in C order. */
  lemma BoxOf2x2x2<T>(a: Nd<T>, shape: seq<nat>, i: nat, j: nat, k: nat)
    requires |shape| == 3 && HasShape(a, shape)
    requires i + 2 <= shape[0] && j + 2 <= shape[1] && k + 2 <= shape[2]
    ensures BlockIn([i, j, k], [i + 2, j + 2, k + 2], shape)
    ensures Box(a, shape, [i, j, k], [i + 2, j + 2, k + 2]) ==
      [At(a, shape, [i, j, k]), At(a, shape, [i, j, k + 1]),
       At(a, shape, [i, j + 1, k]), At(a, shape, [i, j + 1, k + 1]),
       At(a, shape, [i + 1, j, k]), At(a, shape, [i + 1, j, k + 1]),
       At(a, shape, [i + 1, j + 1, k]), At(a, shape, [i + 1, j + 1, k + 1])]
  {
    var lo, hi := [i, j, k], [i + 2, j + 2, k + 2];
    var sub := shape[1..];
    assert lo[1..] == [j, k] && hi[1..] == [j + 2, k + 2];
    assert BlockIn(lo, hi, shape);
    BoxOf2x2(a.items[i], sub, j, k);
    BoxOf2x2(a.items[i + 1], sub, j, k);
    var r0, r1 := Box(a.items[i], sub, [j, k], [j + 2, k + 2]), Box(a.items[i + 1], sub, [j, k], [j + 2, k + 2]);
    assert BoxRows(a, shape, lo, hi, i + 2) == [];
    assert BoxRows(a, shape, lo, hi, i + 1) == r1;
    assert BoxRows(a, shape, lo, hi, i) == r0 + r1;
    forall x: nat, y: nat, z: nat | x < shape[0] && y < shape[1] && z < shape[2]
      ensures At(a, shape, [x, y, z]) == At(a.items[x], sub, [y, z])
    {
      assert [x, y, z][1..] == [y, z];
    }
  }

  /** `a` holds `np.arange(n0 * n1 * 1.0).reshape(n0, n1)`. */
  ghost predicate IsArange2(a: Nd<Num>, n0: nat, n1: nat) {
    HasShape(a, [n0, n1]) &&
    forall idx {:trigger At(a, [n0, n1], idx)} :: InBounds(idx, [n0, n1]) ==>
      At(a, [n0, n1], idx) == Fin(Offset2(n1, idx[0], idx[1]) as real)
  }

  lemma Arange2IsArange(n0: nat, n1: nat)
    ensures IsArange2(Arange2(n0, n1), n0, n1)
  {
    forall idx | InBounds(idx, [n0, n1])
      ensures At(Arange2(n0, n1), [n0, n1], idx) == Fin(Offset2(n1, idx[0], idx[1]) as real)
    {
      AtArange2(n0, n1, idx);
    }
  }

  /** The 2 x 2 block at `(2I, 2J)` of an `arange` grid with `n1` columns. */
  lemma ArangeBlock(a: Nd<Num>, n0: nat, n1: nat, I: nat, J: nat)
    requires IsArange2(a, n0, n1)
    requires 2 * I + 2 <= n0 && 2 * J + 2 <= n1
    ensures BlockIn([2 * I, 2 * J], [2 * I + 2, 2 * J + 2], [n0, n1])
    ensures var x := (2 * n1 * I + 2 * J) as real; var c := n1 as real;
      Box(a, [n0, n1], [2 * I, 2 * J], [2 * I + 2, 2 * J + 2]) ==
        [Fin(x), Fin(x + 1.0), Fin(x + c), Fin(x + c + 1.0)]
  {
    var i, j := 2 * I, 2 * J;
    assert InBounds([i, j], [n0, n1]) && InBounds([i, j + 1], [n0, n1]);
    assert InBounds([i + 1, j], [n0, n1]) && InBounds([i + 1, j + 1], [n0, n1]);
    assert n1 * i == 2 * n1 * I;
    assert n1 * (i + 1) == 2 * n1 * I + n1;
    BoxOf2x2(a, [n0, n1], i, j);
  }

  /** The mean of such a block: its first cell plus `(c + 1) / 2`. */
  lemma MeanOfBlock(x: real, c: real)
    ensures NanMean([Fin(x), Fin(x + 1.0), Fin(x + c), Fin(x + c + 1.0)]) == Fin(x + (c + 1.0) / 2.0)
  {
    var s := [Fin(x), Fin(x + 1.0), Fin(x + c), Fin(x + c + 1.0)];
    var f := [x, x + 1.0, x + c, x + c + 1.0];
    assert AllFinite(s);
    FiniteOfAllFinite(s);
    assert Finite(s) == f;
    assert f[1..][1..][1..][1..] == [];
    assert Sum(f[1..][1..][1..]) == x + c + 1.0;
    assert Sum(f[1..][1..]) == 2.0 * x + 2.0 * c + 1.0;
    assert Sum(f[1..]) == 3.0 * x + 2.0 * c + 2.0;
    assert Sum(f) == 4.0 * x + 2.0 * c + 2.0;
  }

  /** A coarse index whose full block of 2 fits is inside the coarse extent. */
  lemma HalfInside(n: nat, I: nat)
    requires 2 * I + 2 <= n
    ensures I < CeilDiv(n, 2)
  {
  }

  lemma Twos2()
    ensures AsNats([2, 2]) == [2, 2]
  {
  }

  lemma Twos3()
    ensures AsNats([2, 2, 2]) == [2, 2, 2]
  {
  }

  /** Where the 2 x 2 block of a coarse cell lies when the blocks fit. */
  lemma Corners2(shape: seq<nat>, I: nat, J: nat)
    requires |shape| == 2 && 2 * I + 2 <= shape[0] && 2 * J + 2 <= shape[1]
    ensures InBounds([I, J], CoarseShape(shape, AsNats([2, 2])))
    ensures Corner([I, J], AsNats([2, 2]), 0) == [2 * I, 2 * J]
    ensures MinShape(Corner([I, J], AsNats([2, 2]), 1), shape) == [2 * I + 2, 2 * J + 2]
  {
    Twos2();
    var b: seq<nat> := [2, 2];
    HalfInside(shape[0], I);
    HalfInside(shape[1], J);
    var cs := CoarseShape(shape, b);
    assert cs[0] == CeilDiv(shape[0], 2) && cs[1] == CeilDiv(shape[1], 2);
    var hi := Corner([I, J], b, 1);
    assert hi[0] == BlockEdge(I, 2, 1) && hi[1] == BlockEdge(J, 2, 1);
    assert hi == [2 * I + 2, 2 * J + 2];
    var lo := Corner([I, J], b, 0);
    assert lo[0] == BlockEdge(I, 2, 0) && lo[1] == BlockEdge(J, 2, 0);
    assert lo == [2 * I, 2 * J];
    MinShapeInside(hi, shape);
  }

  /**
   * Coarsening `arange(n0 * n1).reshape(n0, n1)` by 2 x 2 means: the cell `(I, J)` is
   * `2 n1 I + 2 J + (n1 + 1) / 2` (with `n1 = 4`: `[[2.5, 4.5], [10.5, 12.5]]`).
   */
  lemma MeanOfArange(a: Nd<Num>, n0: nat, n1: nat, eps: real, I: nat, J: nat)
    requires IsArange2(a, n0, n1)
    requires 2 * I + 2 <= n0 && 2 * J + 2 <= n1
    ensures CoarsenGrid(a, [n0, n1], [2, 2], "mean", eps).Ok?
    ensures InBounds([I, J], CoarseShape([n0, n1], AsNats([2, 2])))
    ensures At(CoarsenGrid(a, [n0, n1], [2, 2], "mean", eps).value, CoarseShape([n0, n1], AsNats([2, 2])), [I, J]) ==
      Fin((2 * n1 * I + 2 * J) as real + (n1 as real + 1.0) / 2.0)
  {
    var shape := [n0, n1];
    assert HasShape(a, shape);
    ArangeBlockMean(a, n0, n1, I, J);
    Twos2();
    Corners2(shape, I, J);
    assert ParseMethod("mean") == Some(Mean);
    CoarsenByName(a, shape, [2, 2], "mean", Mean, eps, [I, J]);
  }

  lemma ArangeBlockMean(a: Nd<Num>, n0: nat, n1: nat, I: nat, J: nat)
    requires IsArange2(a, n0, n1)
    requires 2 * I + 2 <= n0 && 2 * J + 2 <= n1
    ensures BlockIn([2 * I, 2 * J], [2 * I + 2, 2 * J + 2], [n0, n1])
    ensures NanMean(Box(a, [n0, n1], [2 * I, 2 * J], [2 * I + 2, 2 * J + 2])) ==
      Fin((2 * n1 * I + 2 * J) as real + (n1 as real + 1.0) / 2.0)
  {
    ArangeBlock(a, n0, n1, I, J);
    MeanOfBlock((2 * n1 * I + 2 * J) as real, n1 as real);
  }

  /** `a` holds `np.arange(n0 * n1 * n2 * 1.0).reshape(n0, n1, n2)`. */
  ghost predicate IsArange3(a: Nd<Num>, n0: nat, n1: nat, n2: nat) {
    HasShape(a, [n0, n1, n2]) &&
    forall idx {:trigger At(a, [n0, n1, n2], idx)} :: InBounds(idx, [n0, n1, n2]) ==>
      At(a, [n0, n1, n2], idx) == Fin(Offset3(n1, n2, idx[0], idx[1], idx[2]) as real)
  }

  lemma Arange3IsArange(n0: nat, n1: nat, n2: nat)
    ensures IsArange3(Arange3(n0, n1, n2), n0, n1, n2)
  {
    forall idx | InBounds(idx, [n0, n1, n2])
      ensures At(Arange3(n0, n1, n2), [n0, n1, n2], idx) == Fin(Offset3(n1, n2, idx[0], idx[1], idx[2]) as real)
    {
      AtArange3(n0, n1, n2, idx);
    }
  }

  /** C-order positions grow with every index. */
  lemma Offset3Mono(n1: nat, n2: nat, i: nat, j: nat, k: nat, i': nat, j': nat, k': nat)
    requires i <= i' && j <= j' && k <= k'
    ensures Offset3(n1, n2, i, j, k) <= Offset3(n1, n2, i', j', k')
  {
    MulMono(i, i', n1 * n2);
    MulMono(j, j', n2);
  }

  /** Every cell of the 2 x 2 x 2 block at `(i, j, k)` is finite and at most the block's last cell. */
  ghost predicate LastLargest(a: Nd<Num>, shape: seq<nat>, i: nat, j: nat, k: nat)
    requires HasShape(a, shape) && |shape| == 3
    requires i + 2 <= shape[0] && j + 2 <= shape[1] && k + 2 <= shape[2]
  {
    var last := [i + 1, j + 1, k + 1];
    assert InBounds(last, shape);
    At(a, shape, last).Fin? &&
    forall x: nat, y: nat, z: nat {:trigger At(a, shape, [x, y, z])}
      | i <= x <= i + 1 && j <= y <= j + 1 && k <= z <= k + 1 ::
      InBounds([x, y, z], shape) && At(a, shape, [x, y, z]).Fin? && At(a, shape, [x, y, z]).v <= At(a, shape, last).v
  }

  /** Then the block's `np.nanmax` is that last cell. */
  lemma CubeMax(a: Nd<Num>, shape: seq<nat>, i: nat, j: nat, k: nat)
    requires HasShape(a, shape) && |shape| == 3
    requires i + 2 <= shape[0] && j + 2 <= shape[1] && k + 2 <= shape[2]
    requires LastLargest(a, shape, i, j, k)
    ensures BlockIn([i, j, k], [i + 2, j + 2, k + 2], shape)
    ensures InBounds([i + 1, j + 1, k + 1], shape)
    ensures NanMax(Box(a, shape, [i, j, k], [i + 2, j + 2, k + 2])) == At(a, shape, [i + 1, j + 1, k + 1])
  {
    BoxOf2x2x2(a, shape, i, j, k);
    var s := Box(a, shape, [i, j, k], [i + 2, j + 2, k + 2]);
    forall t | 0 <= t < |s| ensures s[t].Fin? && s[t].v <= s[|s| - 1].v {
      if t < 4 {
        if t < 2 { assert s[t] == At(a, shape, [i, j, k + t]); }
        else { assert s[t] == At(a, shape, [i, j + 1, k + t - 2]); }
      } else {
        if t < 6 { assert s[t] == At(a, shape, [i + 1, j, k + t - 4]); }
        else { assert s[t] == At(a, shape, [i + 1, j + 1, k + t - 6]); }
      }
    }
    NanMaxOfLastLargest(s);
  }

  /** C-order positions make the last cell of every 2 x 2 x 2 block of an `arange` grid its largest. */
  lemma ArangeLastLargest(a: Nd<Num>, n0: nat, n1: nat, n2: nat, i: nat, j: nat, k: nat)
    requires IsArange3(a, n0, n1, n2)
    requires i + 2 <= n0 && j + 2 <= n1 && k + 2 <= n2
    ensures LastLargest(a, [n0, n1, n2], i, j, k)
    ensures InBounds([i + 1, j + 1, k + 1], [n0, n1, n2])
    ensures At(a, [n0, n1, n2], [i + 1, j + 1, k + 1]) == Fin(Offset3(n1, n2, i + 1, j + 1, k + 1) as real)
  {
    var shape := [n0, n1, n2];
    var last := [i + 1, j + 1, k + 1];
    assert InBounds(last, shape);
    forall x: nat, y: nat, z: nat | i <= x <= i + 1 && j <= y <= j + 1 && k <= z <= k + 1
      ensures InBounds([x, y, z], shape) && At(a, shape, [x, y, z]).Fin? &&
        At(a, shape, [x, y, z]).v <= At(a, shape, last).v
    {
      assert InBounds([x, y, z], shape);
      Offset3Mono(n1, n2, x, y, z, i + 1, j + 1, k + 1);
    }
  }

  /** The maximum of the 2 x 2 x 2 block at `(i, j, k)` of an `arange` grid is its last cell. */
  lemma ArangeCubeMax(a: Nd<Num>, n0: nat, n1: nat, n2: nat, i: nat, j: nat, k: nat)
    requires IsArange3(a, n0, n1, n2)
    requires i + 2 <= n0 && j + 2 <= n1 && k + 2 <= n2
    ensures BlockIn([i, j, k], [i + 2, j + 2, k + 2], [n0, n1, n2])
    ensures NanMax(Box(a, [n0, n1, n2], [i, j, k], [i + 2, j + 2, k + 2])) ==
      Fin(Offset3(n1, n2, i + 1, j + 1, k + 1) as real)
  {
    ArangeLastLargest(a, n0, n1, n2, i, j, k);
    CubeMax(a, [n0, n1, n2], i, j, k);
  }

  /**
   * Coarsening `arange(n0 * n1 * n2).reshape(n0, n1, n2)` by 2 x 2 x 2 maxima: each coarse cell
   * is the block's last (largest) cell. With `n1 = n2 = 4` that is `32 I + 8 J + 2 K + 21`, so the
   * documented `arange(64).reshape(4, 4, 4)` example starts at 21 rather than the 5 it shows.
   */
  lemma MaxOfArange(a: Nd<Num>, n0: nat, n1: nat, n2: nat, eps: real, I: nat, J: nat, K: nat)
    requires IsArange3(a, n0, n1, n2)
    requires 2 * I + 2 <= n0 && 2 * J + 2 <= n1 && 2 * K + 2 <= n2
    ensures CoarsenGrid(a, [n0, n1, n2], [2, 2, 2], "max", eps).Ok?
    ensures InBounds([I, J, K], CoarseShape([n0, n1, n2], AsNats([2, 2, 2])))
    ensures At(CoarsenGrid(a, [n0, n1, n2], [2, 2, 2], "max", eps).value,
               CoarseShape([n0, n1, n2], AsNats([2, 2, 2])), [I, J, K]) ==
      Fin(Offset3(n1, n2, 2 * I + 1, 2 * J + 1, 2 * K + 1) as real)
  {
    var shape := [n0, n1, n2];
    assert HasShape(a, shape);
    var v := Fin(Offset3(n1, n2, 2 * I + 1, 2 * J + 1, 2 * K + 1) as real);
    ArangeCubeMax(a, n0, n1, n2, 2 * I, 2 * J, 2 * K);
    assert NanMax(Box(a, shape, [2 * I, 2 * J, 2 * K], [2 * I + 2, 2 * J + 2, 2 * K + 2])) == v;
    Twos3();
    Corners3(shape, I, J, K);
    assert ParseMethod("max") == Some(Maximum);
    CoarsenByName(a, shape, [2, 2, 2], "max", Maximum, eps, [I, J, K]);
  }

  /** Where the 2 x 2 x 2 block of a coarse cell lies when the blocks fit. */
  lemma Corners3(shape: seq<nat>, I: nat, J: nat, K: nat)
    requires |shape| == 3 && 2 * I + 2 <= shape[0] && 2 * J + 2 <= shape[1] && 2 * K + 2 <= shape[2]
    ensures InBounds([I, J, K], CoarseShape(shape, AsNats([2, 2, 2])))
    ensures Corner([I, J, K], AsNats([2, 2, 2]), 0) == [2 * I, 2 * J, 2 * K]
    ensures MinShape(Corner([I, J, K], AsNats([2, 2, 2]), 1), shape) == [2 * I + 2, 2 * J + 2, 2 * K + 2]
  {
    Twos3();
    InCoarse3(shape, I, J, K);
    CornerEdges3(I, J, K);
    MinShapeInside([2 * I + 2, 2 * J + 2, 2 * K + 2], shape);
  }

  lemma InCoarse3(shape: seq<nat>, I: nat, J: nat, K: nat)
    requires |shape| == 3 && 2 * I + 2 <= shape[0] && 2 * J + 2 <= shape[1] && 2 * K + 2 <= shape[2]
    ensures InBounds([I, J, K], CoarseShape(shape, [2, 2, 2]))
  {
    HalfInside(shape[0], I);
    HalfInside(shape[1], J);
    HalfInside(shape[2], K);
    var cs := CoarseShape(shape, [2, 2, 2]);
    assert cs[0] == CeilDiv(shape[0], 2) && cs[1] == CeilDiv(shape[1], 2) && cs[2] == CeilDiv(shape[2], 2);
  }

  lemma CornerEdges3(I: nat, J: nat, K: nat)
    ensures Corner([I, J, K], [2, 2, 2], 0) == [2 * I, 2 * J, 2 * K]
    ensures Corner([I, J, K], [2, 2, 2], 1) == [2 * I + 2, 2 * J + 2, 2 * K + 2]
  {
    var hi := Corner([I, J, K], [2, 2, 2], 1);
    assert hi[0] == BlockEdge(I, 2, 1) && hi[1] == BlockEdge(J, 2, 1) && hi[2] == BlockEdge(K, 2, 1);
    var lo := Corner([I, J, K], [2, 2, 2], 0);
    assert lo[0] == BlockEdge(I, 2, 0) && lo[1] == BlockEdge(J, 2, 0) && lo[2] == BlockEdge(K, 2, 0);
  }
}
