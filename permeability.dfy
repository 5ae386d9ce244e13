/**
 * Cardwell–Parsons coarsening of directional permeability grids (`coarsen_permeability_grids`
 * and its 2-D and 3-D workers in `bores.grids.base`).
 *
 * Each grid is padded with NaN up to a multiple of the block size and cut into blocks. For the
 * permeability along an axis, every line of a block along that axis is reduced by the harmonic
 * mean `_axis_harmonic_mean` (`Numeric.AxisHarmonic`), and the lines' results are averaged with
 * `np.nanmean`. The workers allocate zero-filled outputs and write them cell by cell in nested
 * loops; these are methods proved against the per-cell functions below.
 */
module Permeability {
  import opened Wrappers
  import opened Numeric
  import Coarsening

  /** A rectangular `(nx, ny)` grid, row `x` holding the cells `[x, 0 .. ny)`. */
  datatype Grid2 = Grid2(nx: nat, ny: nat, cells: seq<seq<Num>>)

  /** A rectangular `(nx, ny, nz)` grid. */
  datatype Grid3 = Grid3(nx: nat, ny: nat, nz: nat, cells: seq<seq<seq<Num>>>)

  /** A permeability array as the dispatcher receives it: of rank 2, of rank 3, or of another rank. */
  datatype KGrid = K2(g2: Grid2) | K3(g3: Grid3) | KOther(shape: seq<nat>)

  ghost predicate Valid2(g: Grid2) {
    |g.cells| == g.nx && forall x :: 0 <= x < g.nx ==> |g.cells[x]| == g.ny
  }

  ghost predicate Valid3(g: Grid3) {
    |g.cells| == g.nx &&
    forall x :: 0 <= x < g.nx ==>
      |g.cells[x]| == g.ny && forall y :: 0 <= y < g.ny ==> |g.cells[x][y]| == g.nz
  }

  ghost predicate ValidK(k: KGrid) {
    match k
    case K2(g) => Valid2(g)
    case K3(g) => Valid3(g)
    case KOther(s) => |s| != 2 && |s| != 3
  }

  function Shape(k: KGrid): (s: seq<nat>)
    ensures k.K2? ==> |s| == 2
    ensures k.K3? ==> |s| == 3
  {
    match k
    case K2(g) => [g.nx, g.ny]
    case K3(g) => [g.nx, g.ny, g.nz]
    case KOther(s) => s
  }

  function Ndim(k: KGrid): nat {
    |Shape(k)|
  }

  /** The flow direction a coarse value is for. */
  datatype Direction = X | Y | Z

  // ---- the padded grid and its lines ----

  /** The cell `[x, y]` of the NaN-padded grid: the original cell inside the grid, NaN outside. */
  function Cell2(g: Grid2, x: nat, y: nat): Num
    requires Valid2(g)
  {
    if x < g.nx && y < g.ny then g.cells[x][y] else NaN
  }

  function Cell3(g: Grid3, x: nat, y: nat, z: nat): Num
    requires Valid3(g)
  {
    if x < g.nx && y < g.ny && z < g.nz then g.cells[x][y][z] else NaN
  }

  /** The rows of a nested listing one after another (numpy's C-order flattening of a block result). */
  function Flatten<T>(rows: seq<seq<T>>): (r: seq<T>)
  {
    if rows == [] then [] else rows[0] + Flatten(rows[1..])
  }

  /** The `len` padded cells `[x0 .. x0 + len, y]`: a line of a block along x. */
  function LineX(g: Grid2, x0: nat, len: nat, y: nat): (r: seq<Num>)
    requires Valid2(g)
    ensures |r| == len && forall t :: 0 <= t < len ==> r[t] == Cell2(g, x0 + t, y)
  {
    seq(len, t requires 0 <= t < len => Cell2(g, x0 + t, y))
  }

  /** The `len` padded cells `[x, y0 .. y0 + len]`: a line of a block along y. */
  function LineY(g: Grid2, x: nat, y0: nat, len: nat): (r: seq<Num>)
    requires Valid2(g)
    ensures |r| == len && forall u :: 0 <= u < len ==> r[u] == Cell2(g, x, y0 + u)
  {
    seq(len, u requires 0 <= u < len => Cell2(g, x, y0 + u))
  }

  /**
   * The coarse value of block `(i, j)` of a 2-D grid for flow along `dir`: the harmonic mean of
   * every line of the block along `dir`, then the NaN-ignoring mean of those harmonic means.
   * (`dir == Z` does not occur in 2-D and reads as `Y`.)
   */
  function PermCell2(g: Grid2, dir: Direction, blockX: nat, blockY: nat, eps: real, i: nat, j: nat): Num
    requires Valid2(g)
  {
    var x0, y0 := i * blockX, j * blockY;
    if dir.X? then
      NanMean(seq(blockY, u requires 0 <= u < blockY => AxisHarmonic(LineX(g, x0, blockX, y0 + u), eps)))
    else
      NanMean(seq(blockX, t requires 0 <= t < blockX => AxisHarmonic(LineY(g, x0 + t, y0, blockY), eps)))
  }

  /** The same for block `(i, j, k)` of a 3-D grid: lines along `dir`, the other two axes averaged. */
  function PermCell3(g: Grid3, dir: Direction, blockX: nat, blockY: nat, blockZ: nat, eps: real, i: nat, j: nat, k: nat): Num
    requires Valid3(g)
  {
    var x0, y0, z0 := i * blockX, j * blockY, k * blockZ;
    match dir
    case X =>
      NanMean(Flatten(seq(blockY, u requires 0 <= u < blockY => seq(blockZ, v requires 0 <= v < blockZ =>
        AxisHarmonic(seq(blockX, t requires 0 <= t < blockX => Cell3(g, x0 + t, y0 + u, z0 + v)), eps)))))
    case Y =>
      NanMean(Flatten(seq(blockX, t requires 0 <= t < blockX => seq(blockZ, v requires 0 <= v < blockZ =>
        AxisHarmonic(seq(blockY, u requires 0 <= u < blockY => Cell3(g, x0 + t, y0 + u, z0 + v)), eps)))))
    case Z =>
      NanMean(Flatten(seq(blockX, t requires 0 <= t < blockX => seq(blockY, u requires 0 <= u < blockY =>
        AxisHarmonic(seq(blockZ, v requires 0 <= v < blockZ => Cell3(g, x0 + t, y0 + u, z0 + v)), eps)))))
  }

  // ---- validation ----

  /** What `coarsen_permeability_grids` and its workers raise. */
  datatype PermError =
    | MissingBatchSize
    | KzNotAllowed
    | KzRequired
    | BatchLength(expected: nat, got: nat)
    | ShapeMismatch
    | WrongRank(expected: nat, got: nat)
    | NonPositiveBatch
    | UnsupportedRank(ndim: nat)

  predicate AllPositive(batch: seq<int>) {
    forall d :: 0 <= d < |batch| ==> batch[d] >= 1
  }

  /** The checks of `_coarsen_2d_permeability_grids`, in its order. */
  function Check2D(kx: KGrid, ky: KGrid, batch: seq<int>): Option<PermError> {
    if Shape(kx) != Shape(ky) then Some(ShapeMismatch)
    else if Ndim(kx) != 2 then Some(WrongRank(2, Ndim(kx)))
    else if |batch| != 2 then Some(BatchLength(2, |batch|))
    else if !AllPositive(batch) then Some(NonPositiveBatch)
    else None
  }

  /** The checks of `_coarsen_3d_permeability_grids`, in its order. */
  function Check3D(kx: KGrid, ky: KGrid, kz: KGrid, batch: seq<int>): Option<PermError> {
    if !(Shape(kx) == Shape(ky) && Shape(ky) == Shape(kz)) then Some(ShapeMismatch)
    else if Ndim(kx) != 3 then Some(WrongRank(3, Ndim(kx)))
    else if |batch| != 3 then Some(BatchLength(3, |batch|))
    else if !AllPositive(batch) then Some(NonPositiveBatch)
    else None
  }

  /** The checks of `coarsen_permeability_grids` followed by those of the worker it calls. */
  function CheckDispatch(kx: KGrid, ky: KGrid, kz: Option<KGrid>, batch: Option<seq<int>>): Option<PermError> {
    if batch.None? then Some(MissingBatchSize)
    else if Ndim(kx) == 2 then
      if kz.Some? then Some(KzNotAllowed)
      else if |batch.value| != 2 then Some(BatchLength(2, |batch.value|))
      else Check2D(kx, ky, batch.value)
    else if Ndim(kx) == 3 then
      if kz.None? then Some(KzRequired)
      else if |batch.value| != 3 then Some(BatchLength(3, |batch.value|))
      else Check3D(kx, ky, kz.value, batch.value)
    else Some(UnsupportedRank(Ndim(kx)))
  }

  /**
   * The call succeeds exactly when a block size is given, the grids are 2-D without `kz` or 3-D
   * with it, all grids share one shape, and the block sizes match the rank and are positive.
   */
  lemma DispatchAccepts(kx: KGrid, ky: KGrid, kz: Option<KGrid>, batch: Option<seq<int>>)
    ensures CheckDispatch(kx, ky, kz, batch).None? <==>
      batch.Some? && AllPositive(batch.value) &&
      ((Ndim(kx) == 2 && kz.None? && |batch.value| == 2 && Shape(ky) == Shape(kx)) ||
       (Ndim(kx) == 3 && kz.Some? && |batch.value| == 3 && Shape(ky) == Shape(kx) && Shape(kz.value) == Shape(kx)))
  {
  }

  /** A well-formed grid of the checked shape has the rank its shape says. */
  lemma RankOfShape(k: KGrid, n: nat)
    requires ValidK(k) && Ndim(k) == n
    ensures n == 2 ==> k.K2?
    ensures n == 3 ==> k.K3?
  {
  }

  // ---- the workers ----

  /** `a` holds the coarse values of `g` for flow along `dir`, one per block. */
  ghost predicate Coarse2(a: array2<Num>, g: Grid2, dir: Direction, blockX: nat, blockY: nat, eps: real)
    reads a
    requires Valid2(g) && blockX >= 1 && blockY >= 1
  {
    a.Length0 == Coarsening.CeilDiv(g.nx, blockX) && a.Length1 == Coarsening.CeilDiv(g.ny, blockY) &&
    forall i, j :: 0 <= i < a.Length0 && 0 <= j < a.Length1 ==> a[i, j] == PermCell2(g, dir, blockX, blockY, eps, i, j)
  }

  ghost predicate Coarse3(a: array3<Num>, g: Grid3, dir: Direction, blockX: nat, blockY: nat, blockZ: nat, eps: real)
    reads a
    requires Valid3(g) && blockX >= 1 && blockY >= 1 && blockZ >= 1
  {
    a.Length0 == Coarsening.CeilDiv(g.nx, blockX) && a.Length1 == Coarsening.CeilDiv(g.ny, blockY) &&
    a.Length2 == Coarsening.CeilDiv(g.nz, blockZ) &&
    forall i, j, k :: 0 <= i < a.Length0 && 0 <= j < a.Length1 && 0 <= k < a.Length2 ==>
      a[i, j, k] == PermCell3(g, dir, blockX, blockY, blockZ, eps, i, j, k)
  }

  /** The `for i … for j …` loop that writes every coarse cell of one direction. */
  method Fill2(a: array2<Num>, g: Grid2, dir: Direction, blockX: nat, blockY: nat, eps: real)
    requires Valid2(g) && blockX >= 1 && blockY >= 1
    requires a.Length0 == Coarsening.CeilDiv(g.nx, blockX) && a.Length1 == Coarsening.CeilDiv(g.ny, blockY)
    modifies a
    ensures Coarse2(a, g, dir, blockX, blockY, eps)
  {
    for i := 0 to a.Length0
      invariant forall i', j' :: 0 <= i' < i && 0 <= j' < a.Length1 ==> a[i', j'] == PermCell2(g, dir, blockX, blockY, eps, i', j')
    {
      for j := 0 to a.Length1
        invariant forall i', j' :: 0 <= i' < i && 0 <= j' < a.Length1 ==> a[i', j'] == PermCell2(g, dir, blockX, blockY, eps, i', j')
        invariant forall j' :: 0 <= j' < j ==> a[i, j'] == PermCell2(g, dir, blockX, blockY, eps, i, j')
      {
        a[i, j] := PermCell2(g, dir, blockX, blockY, eps, i, j);
      }
    }
  }

  /** The `for i … for j … for k …` loop that writes every coarse cell of one direction. */
  method Fill3(a: array3<Num>, g: Grid3, dir: Direction, blockX: nat, blockY: nat, blockZ: nat, eps: real)
    requires Valid3(g) && blockX >= 1 && blockY >= 1 && blockZ >= 1
    requires a.Length0 == Coarsening.CeilDiv(g.nx, blockX) && a.Length1 == Coarsening.CeilDiv(g.ny, blockY)
    requires a.Length2 == Coarsening.CeilDiv(g.nz, blockZ)
    modifies a
    ensures Coarse3(a, g, dir, blockX, blockY, blockZ, eps)
  {
    for i := 0 to a.Length0
      invariant forall i', j', k' :: 0 <= i' < i && 0 <= j' < a.Length1 && 0 <= k' < a.Length2 ==>
        a[i', j', k'] == PermCell3(g, dir, blockX, blockY, blockZ, eps, i', j', k')
    {
      for j := 0 to a.Length1
        invariant forall i', j', k' :: 0 <= i' < i && 0 <= j' < a.Length1 && 0 <= k' < a.Length2 ==>
          a[i', j', k'] == PermCell3(g, dir, blockX, blockY, blockZ, eps, i', j', k')
        invariant forall j', k' :: 0 <= j' < j && 0 <= k' < a.Length2 ==>
          a[i, j', k'] == PermCell3(g, dir, blockX, blockY, blockZ, eps, i, j', k')
      {
        for k := 0 to a.Length2
          invariant forall i', j', k' :: 0 <= i' < i && 0 <= j' < a.Length1 && 0 <= k' < a.Length2 ==>
            a[i', j', k'] == PermCell3(g, dir, blockX, blockY, blockZ, eps, i', j', k')
          invariant forall j', k' :: 0 <= j' < j && 0 <= k' < a.Length2 ==>
            a[i, j', k'] == PermCell3(g, dir, blockX, blockY, blockZ, eps, i, j', k')
          invariant forall k' :: 0 <= k' < k ==> a[i, j, k'] == PermCell3(g, dir, blockX, blockY, blockZ, eps, i, j, k')
        {
          a[i, j, k] := PermCell3(g, dir, blockX, blockY, blockZ, eps, i, j, k);
        }
      }
    }
  }

  /** What a successful call returns: `(kx, ky)` for 2-D grids, `(kx, ky, kz)` for 3-D grids. */
  datatype Coarsened =
    | Pair(kx2: array2<Num>, ky2: array2<Num>)
    | Triple(kx3: array3<Num>, ky3: array3<Num>, kz3: array3<Num>)

  /** `_coarsen_2d_permeability_grids(kx, ky, batch_size, epsilon)`. */
  method Coarsen2D(kx: KGrid, ky: KGrid, batch: seq<int>, eps: real) returns (r: Result<Coarsened, PermError>)
    requires ValidK(kx) && ValidK(ky)
    ensures r.Err? <==> Check2D(kx, ky, batch).Some?
    ensures r.Err? ==> r.error == Check2D(kx, ky, batch).value
    ensures r.Ok? ==> (kx.K2? && ky.K2? && r.value.Pair? && r.value.kx2 != r.value.ky2 &&
      fresh(r.value.kx2) && fresh(r.value.ky2) &&
      Coarse2(r.value.kx2, kx.g2, X, batch[0], batch[1], eps) &&
      Coarse2(r.value.ky2, ky.g2, Y, batch[0], batch[1], eps))
  {
    var err := Check2D(kx, ky, batch);
    if err.Some? {
      return Err(err.value);
    }
    RankOfShape(kx, 2);
    RankOfShape(ky, 2);
    var blockX, blockY := batch[0] as nat, batch[1] as nat;
    var gx, gy := kx.g2, ky.g2;
    var outX := new Num[Coarsening.CeilDiv(gx.nx, blockX), Coarsening.CeilDiv(gx.ny, blockY)]((_, _) => Fin(0.0));
    var outY := new Num[Coarsening.CeilDiv(gy.nx, blockX), Coarsening.CeilDiv(gy.ny, blockY)]((_, _) => Fin(0.0));
    Fill2(outX, gx, X, blockX, blockY, eps);
    Fill2(outY, gy, Y, blockX, blockY, eps);
    return Ok(Pair(outX, outY));
  }

  /** `_coarsen_3d_permeability_grids(kx, ky, kz, batch_size, epsilon)`. */
  method Coarsen3D(kx: KGrid, ky: KGrid, kz: KGrid, batch: seq<int>, eps: real) returns (r: Result<Coarsened, PermError>)
    requires ValidK(kx) && ValidK(ky) && ValidK(kz)
    ensures r.Err? <==> Check3D(kx, ky, kz, batch).Some?
    ensures r.Err? ==> r.error == Check3D(kx, ky, kz, batch).value
    ensures r.Ok? ==> (kx.K3? && ky.K3? && kz.K3? && r.value.Triple? &&
      fresh(r.value.kx3) && fresh(r.value.ky3) && fresh(r.value.kz3) &&
      r.value.kx3 != r.value.ky3 && r.value.ky3 != r.value.kz3 && r.value.kx3 != r.value.kz3 &&
      Coarse3(r.value.kx3, kx.g3, X, batch[0], batch[1], batch[2], eps) &&
      Coarse3(r.value.ky3, ky.g3, Y, batch[0], batch[1], batch[2], eps) &&
      Coarse3(r.value.kz3, kz.g3, Z, batch[0], batch[1], batch[2], eps))
  {
    var err := Check3D(kx, ky, kz, batch);
    if err.Some? {
      return Err(err.value);
    }
    RankOfShape(kx, 3);
    RankOfShape(ky, 3);
    RankOfShape(kz, 3);
    var blockX, blockY, blockZ := batch[0] as nat, batch[1] as nat, batch[2] as nat;
    var gx, gy, gz := kx.g3, ky.g3, kz.g3;
    var outX := new Num[Coarsening.CeilDiv(gx.nx, blockX), Coarsening.CeilDiv(gx.ny, blockY), Coarsening.CeilDiv(gx.nz, blockZ)]
      ((_, _, _) => Fin(0.0));
    var outY := new Num[Coarsening.CeilDiv(gy.nx, blockX), Coarsening.CeilDiv(gy.ny, blockY), Coarsening.CeilDiv(gy.nz, blockZ)]
      ((_, _, _) => Fin(0.0));
    var outZ := new Num[Coarsening.CeilDiv(gz.nx, blockX), Coarsening.CeilDiv(gz.ny, blockY), Coarsening.CeilDiv(gz.nz, blockZ)]
      ((_, _, _) => Fin(0.0));
    Fill3(outX, gx, X, blockX, blockY, blockZ, eps);
    Fill3(outY, gy, Y, blockX, blockY, blockZ, eps);
    Fill3(outZ, gz, Z, blockX, blockY, blockZ, eps);
    return Ok(Triple(outX, outY, outZ));
  }

  /** `coarsen_permeability_grids(kx, ky, kz, batch_size, epsilon)`. */
  method CoarsenPermeabilityGrids(kx: KGrid, ky: KGrid, kz: Option<KGrid>, batch: Option<seq<int>>, eps: real)
    returns (r: Result<Coarsened, PermError>)
    requires ValidK(kx) && ValidK(ky) && (kz.Some? ==> ValidK(kz.value))
    ensures r.Err? <==> CheckDispatch(kx, ky, kz, batch).Some?
    ensures r.Err? ==> r.error == CheckDispatch(kx, ky, kz, batch).value
    ensures r.Ok? && Ndim(kx) == 2 ==> (kx.K2? && ky.K2? && r.value.Pair? &&
      fresh(r.value.kx2) && fresh(r.value.ky2) && r.value.kx2 != r.value.ky2 &&
      Coarse2(r.value.kx2, kx.g2, X, batch.value[0], batch.value[1], eps) &&
      Coarse2(r.value.ky2, ky.g2, Y, batch.value[0], batch.value[1], eps))
    ensures r.Ok? && Ndim(kx) == 3 ==> (kx.K3? && ky.K3? && kz.Some? && kz.value.K3? && r.value.Triple? &&
      fresh(r.value.kx3) && fresh(r.value.ky3) && fresh(r.value.kz3) &&
      r.value.kx3 != r.value.ky3 && r.value.ky3 != r.value.kz3 && r.value.kx3 != r.value.kz3 &&
      Coarse3(r.value.kx3, kx.g3, X, batch.value[0], batch.value[1], batch.value[2], eps) &&
      Coarse3(r.value.ky3, ky.g3, Y, batch.value[0], batch.value[1], batch.value[2], eps) &&
      Coarse3(r.value.kz3, kz.value.g3, Z, batch.value[0], batch.value[1], batch.value[2], eps))
    ensures r.Ok? ==> Ndim(kx) == 2 || Ndim(kx) == 3
  {
    if batch.None? {
      return Err(MissingBatchSize);
    }
    if Ndim(kx) == 2 {
      if kz.Some? {
        return Err(KzNotAllowed);
      }
      if |batch.value| != 2 {
        return Err(BatchLength(2, |batch.value|));
      }
      r := Coarsen2D(kx, ky, batch.value, eps);
    } else if Ndim(kx) == 3 {
      if kz.None? {
        return Err(KzRequired);
      }
      if |batch.value| != 3 {
        return Err(BatchLength(3, |batch.value|));
      }
      r := Coarsen3D(kx, ky, kz.value, batch.value, eps);
    } else {
      return Err(UnsupportedRank(Ndim(kx)));
    }
  }

  // ---- properties ----

  /** The grid with rows and columns exchanged. */
  function Transpose(g: Grid2): (t: Grid2)
    requires Valid2(g)
    ensures Valid2(t) && t.nx == g.ny && t.ny == g.nx
  {
    Grid2(g.ny, g.nx, seq(g.ny, y requires 0 <= y < g.ny => seq(g.nx, x requires 0 <= x < g.nx => g.cells[x][y])))
  }

  /** A line along x of the transpose is the matching line along y of the grid, and back. */
  lemma LinesOfTranspose(g: Grid2, x: nat, y: nat, len: nat)
    requires Valid2(g)
    ensures LineX(Transpose(g), y, len, x) == LineY(g, x, y, len)
    ensures LineY(Transpose(g), y, x, len) == LineX(g, x, len, y)
  {
  }

  /**
   * The two directions are mirror images: `ky` of a grid is `kx` of its transpose with the block
   * sizes exchanged, and the other way round.
   */
  lemma TransposeSwapsDirections(g: Grid2, blockX: nat, blockY: nat, eps: real, i: nat, j: nat)
    requires Valid2(g)
    ensures PermCell2(Transpose(g), X, blockY, blockX, eps, j, i) == PermCell2(g, Y, blockX, blockY, eps, i, j)
    ensures PermCell2(Transpose(g), Y, blockY, blockX, eps, j, i) == PermCell2(g, X, blockX, blockY, eps, i, j)
  {
    var t := Transpose(g);
    var x0, y0 := i * blockX, j * blockY;
    var linesY := seq(blockX, a requires 0 <= a < blockX => AxisHarmonic(LineY(g, x0 + a, y0, blockY), eps));
    var linesTX := seq(blockX, a requires 0 <= a < blockX => AxisHarmonic(LineX(t, y0, blockY, x0 + a), eps));
    forall a | 0 <= a < blockX ensures linesTX[a] == linesY[a] {
      LinesOfTranspose(g, x0 + a, y0, blockY);
    }
    assert linesTX == linesY;
    var linesX := seq(blockY, b requires 0 <= b < blockY => AxisHarmonic(LineX(g, x0, blockX, y0 + b), eps));
    var linesTY := seq(blockY, b requires 0 <= b < blockY => AxisHarmonic(LineY(t, y0 + b, x0, blockX), eps));
    forall b | 0 <= b < blockY ensures linesTY[b] == linesX[b] {
      LinesOfTranspose(g, x0, y0 + b, blockX);
    }
    assert linesTY == linesX;
  }

  /** Layers of 100 mD and 1 mD alternating along x (even rows 100, odd rows 1). */
  function Layered(nx: nat, ny: nat): (g: Grid2)
    ensures Valid2(g)
  {
    Grid2(nx, ny, seq(nx, x => seq(ny, y => if x % 2 == 0 then Fin(100.0) else Fin(1.0))))
  }

  lemma FiniteOfTwo(a: real, b: real)
    ensures Finite([Fin(a), Fin(b)]) == [a, b]
  {
    assert [Fin(a), Fin(b)][1..] == [Fin(b)];
    assert [Fin(b)][1..] == [];
  }

  lemma RecipSumOfTwo(a: real, b: real)
    requires a != 0.0 && b != 0.0
    ensures RecipSum([a, b], 0.0) == 1.0 / a + 1.0 / b
  {
    assert [a, b][1..] == [b];
    assert [b][1..] == [];
    assert RecipSum([b], 0.0) == 1.0 / b + RecipSum([], 0.0);
  }

  lemma HarmonicAcrossLayers()
    ensures AxisHarmonic([Fin(100.0), Fin(1.0)], 0.0) == Fin(200.0 / 101.0)
  {
    FiniteOfTwo(100.0, 1.0);
    RecipSumOfTwo(100.0, 1.0);
    assert !HasPole([100.0, 1.0], 0.0);
  }

  lemma HarmonicAlongLayers(x: real)
    requires x > 0.0
    ensures AxisHarmonic([Fin(x), Fin(x)], 0.0) == Fin(x)
  {
    FiniteOfTwo(x, x);
    RecipSumOfTwo(x, x);
    assert !HasPole([x, x], 0.0);
  }

  lemma MeanOfTwo(a: real, b: real)
    ensures NanMean([Fin(a), Fin(b)]) == Fin((a + b) / 2.0)
  {
    FiniteOfTwo(a, b);
    assert [a, b][1..] == [b];
    assert [b][1..] == [];
    assert Sum([b]) == b + Sum([]);
  }

  /**
   * The layered example of `_coarsen_2d_permeability_grids` (with `epsilon = 0`): every 2 x 2
   * block holds one 100 mD row above one 1 mD row, so `kx` (across the layers) is the harmonic
   * `200/101`, about 1.98, and `ky` (along the layers) the arithmetic `50.5`.
   */
  lemma LayeredExample(nx: nat, ny: nat, i: nat, j: nat)
    requires 2 * i + 2 <= nx && 2 * j + 2 <= ny
    ensures PermCell2(Layered(nx, ny), X, 2, 2, 0.0, i, j) == Fin(200.0 / 101.0)
    ensures PermCell2(Layered(nx, ny), Y, 2, 2, 0.0, i, j) == Fin(50.5)
  {
    var x0 := i * 2;
    assert x0 % 2 == 0 && (x0 + 1) % 2 == 1;
    LayeredAcross(nx, ny, x0, j * 2);
    LayeredAlong(nx, ny, x0, j * 2);
  }

  /** Across the layers each column of a block reads 100 then 1. */
  lemma LayeredAcross(nx: nat, ny: nat, x0: nat, y0: nat)
    requires x0 + 2 <= nx && y0 + 2 <= ny && x0 % 2 == 0 && (x0 + 1) % 2 == 1
    ensures NanMean(seq(2, u requires 0 <= u < 2 => AxisHarmonic(LineX(Layered(nx, ny), x0, 2, y0 + u), 0.0))) ==
      Fin(200.0 / 101.0)
  {
    var g := Layered(nx, ny);
    var h := Fin(200.0 / 101.0);
    var across := seq(2, u requires 0 <= u < 2 => AxisHarmonic(LineX(g, x0, 2, y0 + u), 0.0));
    forall u | 0 <= u < 2 ensures across[u] == h {
      var line := LineX(g, x0, 2, y0 + u);
      assert line[0] == Fin(100.0) && line[1] == Fin(1.0);
      assert line == [Fin(100.0), Fin(1.0)];
      HarmonicAcrossLayers();
    }
    assert across == [h, h];
    MeanOfTwo(200.0 / 101.0, 200.0 / 101.0);
  }

  /** Along the layers the block's rows read 100, 100 and 1, 1. */
  lemma LayeredAlong(nx: nat, ny: nat, x0: nat, y0: nat)
    requires x0 + 2 <= nx && y0 + 2 <= ny && x0 % 2 == 0 && (x0 + 1) % 2 == 1
    ensures NanMean(seq(2, t requires 0 <= t < 2 => AxisHarmonic(LineY(Layered(nx, ny), x0 + t, y0, 2), 0.0))) ==
      Fin(50.5)
  {
    var g := Layered(nx, ny);
    var top, bottom := LineY(g, x0, y0, 2), LineY(g, x0 + 1, y0, 2);
    assert top[0] == Fin(100.0) && top[1] == Fin(100.0);
    assert top == [Fin(100.0), Fin(100.0)];
    assert bottom[0] == Fin(1.0) && bottom[1] == Fin(1.0);
    assert bottom == [Fin(1.0), Fin(1.0)];
    HarmonicAlongLayers(100.0);
    HarmonicAlongLayers(1.0);
    var along := seq(2, t requires 0 <= t < 2 => AxisHarmonic(LineY(g, x0 + t, y0, 2), 0.0));
    assert along == [Fin(100.0), Fin(1.0)];
    MeanOfTwo(100.0, 1.0);
  }
}
