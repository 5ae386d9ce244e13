/**
 * `apply_structural_dip` of `bores.grids.base`: a planar dip added to a copy of an elevation
 * or depth grid, one `(i, j)` column at a time.
 *
 * The trigonometric factors the source computes from the angles (`sin` and `cos` of the
 * azimuth, `tan` of the dip angle) are inputs here; see `DipComponents`.
 */
module StructuralDip {
  import opened Wrappers

  /** `(sin(azimuth), cos(azimuth), tan(dip angle))`, as the source derives them from degrees. */
  datatype DipComponents = DipComponents(dx: real, dy: real, tanDip: real)

  /** The offset of column `(i, j)`: its distance along the dip direction times `tan(dip)`. */
  function DipOffset(i: nat, j: nat, cellX: real, cellY: real, c: DipComponents): real {
    ((i as real * cellX) * c.dx + (j as real * cellY) * c.dy) * c.tanDip
  }

  /** Column `(0, 0)` is never shifted. */
  lemma OriginUnshifted(cellX: real, cellY: real, c: DipComponents)
    ensures DipOffset(0, 0, cellX, cellY, c) == 0.0
  {
  }

  /** A horizontal surface (`tan(dip) == 0`) shifts nothing. */
  lemma FlatUnshifted(i: nat, j: nat, cellX: real, cellY: real, c: DipComponents)
    requires c.tanDip == 0.0
    ensures DipOffset(i, j, cellX, cellY, c) == 0.0
  {
  }

  /**
   * The offsets form a plane: the offset of `(i, j)` is `i` steps of the offset of `(1, 0)`
   * plus `j` steps of the offset of `(0, 1)`.
   */
  lemma OffsetIsPlanar(i: nat, j: nat, cellX: real, cellY: real, c: DipComponents)
    ensures DipOffset(i, j, cellX, cellY, c) ==
      i as real * DipOffset(1, 0, cellX, cellY, c) + j as real * DipOffset(0, 1, cellX, cellY, c)
  {
    var a, b := i as real * cellX * c.dx, j as real * cellY * c.dy;
    assert (a + b) * c.tanDip == a * c.tanDip + b * c.tanDip;
    assert a * c.tanDip == i as real * (cellX * c.dx * c.tanDip);
    assert b * c.tanDip == j as real * (cellY * c.dy * c.tanDip);
  }

  /** Every cell of column `(i, j)` moves by `sign * DipOffset(i, j)`, the cells' `k` apart. */
  method ShiftColumns(g: array3<real>, cellX: real, cellY: real, c: DipComponents, sign: real)
    modifies g
    ensures forall i, j, k :: 0 <= i < g.Length0 && 0 <= j < g.Length1 && 0 <= k < g.Length2 ==>
      g[i, j, k] == old(g[i, j, k]) + sign * DipOffset(i, j, cellX, cellY, c)
  {
    for i := 0 to g.Length0
      invariant forall i', j, k :: 0 <= i' < g.Length0 && 0 <= j < g.Length1 && 0 <= k < g.Length2 ==>
        g[i', j, k] == if i' < i then old(g[i', j, k]) + sign * DipOffset(i', j, cellX, cellY, c) else old(g[i', j, k])
    {
      for j := 0 to g.Length1
        invariant forall i', j', k :: 0 <= i' < g.Length0 && 0 <= j' < g.Length1 && 0 <= k < g.Length2 ==>
          g[i', j', k] ==
            if i' < i || (i' == i && j' < j) then old(g[i', j', k]) + sign * DipOffset(i', j', cellX, cellY, c)
            else old(g[i', j', k])
      {
        var offset := DipOffset(i, j, cellX, cellY, c);
        for k := 0 to g.Length2
          invariant forall i', j', k' :: 0 <= i' < g.Length0 && 0 <= j' < g.Length1 && 0 <= k' < g.Length2 ==>
            g[i', j', k'] ==
              if i' < i || (i' == i && j' < j) || (i' == i && j' == j && k' < k)
              then old(g[i', j', k']) + sign * DipOffset(i', j', cellX, cellY, c)
              else old(g[i', j', k'])
        {
          g[i, j, k] := g[i, j, k] + sign * offset;
        }
      }
    }
  }

  /** `_apply_dip_upward`: elevations drop by the offset (`grid[i, j, :] -= offset`). */
  method ApplyDipUpward(g: array3<real>, cellX: real, cellY: real, c: DipComponents)
    modifies g
    ensures forall i, j, k :: 0 <= i < g.Length0 && 0 <= j < g.Length1 && 0 <= k < g.Length2 ==>
      g[i, j, k] == old(g[i, j, k]) - DipOffset(i, j, cellX, cellY, c)
  {
    ShiftColumns(g, cellX, cellY, c, -1.0);
  }

  /** `_apply_dip_downward`: depths grow by the offset (`grid[i, j, :] += offset`). */
  method ApplyDipDownward(g: array3<real>, cellX: real, cellY: real, c: DipComponents)
    modifies g
    ensures forall i, j, k :: 0 <= i < g.Length0 && 0 <= j < g.Length1 && 0 <= k < g.Length2 ==>
      g[i, j, k] == old(g[i, j, k]) + DipOffset(i, j, cellX, cellY, c)
  {
    ShiftColumns(g, cellX, cellY, c, 1.0);
  }

  datatype DipError = InvalidDirection | DipAngleOutOfRange | AzimuthOutOfRange

  /** The checks of `apply_structural_dip`, in its order. */
  function CheckDip(direction: string, dipAngle: real, dipAzimuth: real): Option<DipError> {
    if direction != "downward" && direction != "upward" then Some(InvalidDirection)
    else if !(0.0 <= dipAngle <= 90.0) then Some(DipAngleOutOfRange)
    else if !(0.0 <= dipAzimuth < 360.0) then Some(AzimuthOutOfRange)
    else None
  }

  /** What a dipped cell holds: the offset subtracted from an elevation, added to a depth. */
  function Dipped(v: real, offset: real, direction: string): real {
    if direction == "upward" then v - offset else v + offset
  }

  /** Dipping an elevation and dipping a depth by the same offset undo each other. */
  lemma DirectionsAreInverse(v: real, offset: real)
    ensures Dipped(Dipped(v, offset, "upward"), offset, "downward") == v
    ensures Dipped(Dipped(v, offset, "downward"), offset, "upward") == v
  {
    assert "downward" != "upward";
  }

  /**
   * `apply_structural_dip(elevation_grid, cell_dimension, elevation_direction, dip_angle,
   * dip_azimuth)`: validates, copies the grid and shifts the copy's columns; the input grid is
   * not touched.
   */
  method ApplyStructuralDip(grid: array3<real>, cellX: real, cellY: real, direction: string,
                            dipAngle: real, dipAzimuth: real, c: DipComponents)
    returns (r: Result<array3<real>, DipError>)
    ensures r.Err? <==> CheckDip(direction, dipAngle, dipAzimuth).Some?
    ensures r.Err? ==> r.error == CheckDip(direction, dipAngle, dipAzimuth).value
    ensures r.Ok? ==> (fresh(r.value) &&
      r.value.Length0 == grid.Length0 && r.value.Length1 == grid.Length1 && r.value.Length2 == grid.Length2 &&
      forall i, j, k :: 0 <= i < grid.Length0 && 0 <= j < grid.Length1 && 0 <= k < grid.Length2 ==>
        r.value[i, j, k] == Dipped(grid[i, j, k], DipOffset(i, j, cellX, cellY, c), direction))
  {
    var err := CheckDip(direction, dipAngle, dipAzimuth);
    if err.Some? {
      return Err(err.value);
    }
    var copy := new real[grid.Length0, grid.Length1, grid.Length2]((i, j, k) reads grid =>
      if 0 <= i < grid.Length0 && 0 <= j < grid.Length1 && 0 <= k < grid.Length2 then grid[i, j, k] else 0.0);
    if direction == "upward" {
      ApplyDipUpward(copy, cellX, cellY, c);
    } else {
      ApplyDipDownward(copy, cellX, cellY, c);
    }
    return Ok(copy);
  }
}
