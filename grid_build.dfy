/**
 * The grid builders of `bores.grids.base`: a uniform grid, a grid layered along one axis, and
 * the depth and elevation grids that stack half-thicknesses down or up each `(i, j)` column.
 *
 * The layered builder and the two elevation recurrences fill a fresh zero grid slice by slice;
 * they are methods over `array3`, proved against the per-cell functions here. A slice
 * assignment such as `grid[:, :, k] = …` is a loop over the other two axes.
 */
module GridBuild {
  import opened Wrappers
  import opened Numeric
  import NdArrays

  // ---- build_uniform_grid ----

  /** `build_uniform_grid(shape, value)`: every cell of the grid holds `value`. */
  function BuildUniformGrid(shape: seq<nat>, value: real): (r: NdArrays.Nd<real>)
    ensures NdArrays.HasShape(r, shape)
    ensures forall idx :: NdArrays.InBounds(idx, shape) ==> NdArrays.At(r, shape, idx) == value
  {
    var g := NdArrays.Full(shape, value);
    assert forall idx :: NdArrays.InBounds(idx, shape) ==> NdArrays.At(g, shape, idx) == value by {
      forall idx | NdArrays.InBounds(idx, shape) { NdArrays.AtFull(shape, value, idx); }
    }
    g
  }

  // ---- build_layered_grid ----

  /** The axis the layers are stacked along; `Unrecognised` stands for any other orientation value. */
  datatype Orientation = OrientX | OrientY | OrientZ | Unrecognised

  datatype LayerError =
    | NoLayerValues
    | LayerCountMismatch(axis: nat, expected: nat, got: nat)
    | ZLayeringNeedsThreeAxes
    | InvalidOrientation

  function AxisOf(o: Orientation): nat
    requires !o.Unrecognised?
  {
    match o
    case OrientX => 0
    case OrientY => 1
    case OrientZ => 2
  }

  /** The index of cell `(i, j, k)` along axis `axis`. */
  function Coord(axis: nat, i: nat, j: nat, k: nat): nat {
    if axis == 0 then i else if axis == 1 then j else k
  }

  /** The checks of `build_layered_grid`, in its order. */
  function CheckLayered(shape: seq<nat>, values: seq<real>, o: Orientation): Option<LayerError>
    requires (o.OrientX? || o.OrientY?) ==> |shape| == 3
  {
    if |values| < 1 then Some(NoLayerValues)
    else match o
      case OrientX => if |values| != shape[0] then Some(LayerCountMismatch(0, shape[0], |values|)) else None
      case OrientY => if |values| != shape[1] then Some(LayerCountMismatch(1, shape[1], |values|)) else None
      case OrientZ =>
        if |shape| != 3 then Some(ZLayeringNeedsThreeAxes)
        else if |values| != shape[2] then Some(LayerCountMismatch(2, shape[2], |values|))
        else None
      case Unrecognised => Some(InvalidOrientation)
  }

  /** Layering succeeds exactly when the values are as many as the cells along the (known) axis. */
  lemma LayeredAccepts(shape: seq<nat>, values: seq<real>, o: Orientation)
    requires (o.OrientX? || o.OrientY?) ==> |shape| == 3
    ensures CheckLayered(shape, values, o).None? <==>
      !o.Unrecognised? && |shape| == 3 && |values| >= 1 && |values| == shape[AxisOf(o)]
  {
  }

  /** `grid[axis = p] = v`: the slice at position `p` along `axis` takes `v`, nothing else moves. */
  method SetSlice(a: array3<real>, axis: nat, p: nat, v: real)
    modifies a
    ensures forall i, j, k :: 0 <= i < a.Length0 && 0 <= j < a.Length1 && 0 <= k < a.Length2 ==>
      a[i, j, k] == if Coord(axis, i, j, k) == p then v else old(a[i, j, k])
  {
    for i := 0 to a.Length0
      invariant forall i', j, k :: 0 <= i' < a.Length0 && 0 <= j < a.Length1 && 0 <= k < a.Length2 ==>
        a[i', j, k] == if i' < i && Coord(axis, i', j, k) == p then v else old(a[i', j, k])
    {
      for j := 0 to a.Length1
        invariant forall i', j', k :: 0 <= i' < a.Length0 && 0 <= j' < a.Length1 && 0 <= k < a.Length2 ==>
          a[i', j', k] == if (i' < i || (i' == i && j' < j)) && Coord(axis, i', j', k) == p then v else old(a[i', j', k])
      {
        for k := 0 to a.Length2
          invariant forall i', j', k' :: 0 <= i' < a.Length0 && 0 <= j' < a.Length1 && 0 <= k' < a.Length2 ==>
            a[i', j', k'] ==
              if (i' < i || (i' == i && j' < j) || (i' == i && j' == j && k' < k)) && Coord(axis, i', j', k') == p
              then v else old(a[i', j', k'])
        {
          if Coord(axis, i, j, k) == p {
            a[i, j, k] := v;
          }
        }
      }
    }
  }

  /**
   * `build_layered_grid(shape, layer_values, orientation)`: a zero grid whose slice `p` along the
   * chosen axis takes `layer_values[p]`, one slice assignment per layer.
   */
  method BuildLayeredGrid(shape: seq<nat>, values: seq<real>, o: Orientation) returns (r: Result<array3<real>, LayerError>)
    requires (o.OrientX? || o.OrientY?) ==> |shape| == 3
    ensures r.Err? <==> CheckLayered(shape, values, o).Some?
    ensures r.Err? ==> r.error == CheckLayered(shape, values, o).value
    ensures r.Ok? ==> (fresh(r.value) && |shape| == 3 && !o.Unrecognised? &&
      r.value.Length0 == shape[0] && r.value.Length1 == shape[1] && r.value.Length2 == shape[2] &&
      forall i, j, k :: 0 <= i < shape[0] && 0 <= j < shape[1] && 0 <= k < shape[2] ==>
        r.value[i, j, k] == values[Coord(AxisOf(o), i, j, k)])
  {
    var err := CheckLayered(shape, values, o);
    if err.Some? {
      return Err(err.value);
    }
    var axis := AxisOf(o);
    var a := new real[shape[0], shape[1], shape[2]]((_, _, _) => 0.0);
    for p := 0 to |values|
      invariant forall i, j, k :: 0 <= i < shape[0] && 0 <= j < shape[1] && 0 <= k < shape[2] ==>
        a[i, j, k] == if Coord(axis, i, j, k) < p then values[Coord(axis, i, j, k)] else 0.0
    {
      SetSlice(a, axis, p, values[p]);
    }
    return Ok(a);
  }

  // ---- depth and elevation ----

  /** Column `(i, j)` of a 3-D grid, top (`k = 0`) to bottom. */
  ghost function Column(t: array3<real>, i: nat, j: nat): (c: seq<real>)
    reads t
    requires i < t.Length0 && j < t.Length1
    ensures |c| == t.Length2 && forall k :: 0 <= k < t.Length2 ==> c[k] == t[i, j, k]
  {
    seq(t.Length2, k requires 0 <= k < t.Length2 reads t => t[i, j, k])
  }

  /** The depth of cell `k`'s centre below the top: the thicknesses above it plus half its own. */
  function DepthBelowTop(c: seq<real>, k: nat): real
    requires k < |c|
  {
    Sum(c[..k]) + c[k] / 2.0
  }

  /** The height of cell `k`'s centre above the base: the thicknesses below it plus half its own. */
  function HeightAboveBase(c: seq<real>, k: nat): real
    requires k < |c|
  {
    Sum(c[k + 1..]) + c[k] / 2.0
  }

  lemma SumSnoc(s: seq<real>, x: real)
    ensures Sum(s + [x]) == Sum(s) + x
  {
    SumConcat(s, [x]);
    assert [x][1..] == [];
  }

  /** The downward recurrence: the top cell is at half its thickness, each next one half a cell on from the last. */
  lemma DepthRecurrence(c: seq<real>, k: nat)
    requires k < |c|
    ensures k == 0 ==> DepthBelowTop(c, k) == c[0] / 2.0
    ensures k > 0 ==> DepthBelowTop(c, k) == DepthBelowTop(c, k - 1) + c[k - 1] / 2.0 + c[k] / 2.0
  {
    if k > 0 {
      assert c[..k] == c[..k - 1] + [c[k - 1]];
      SumSnoc(c[..k - 1], c[k - 1]);
    }
  }

  /** The upward recurrence mirrors it from the bottom cell. */
  lemma HeightRecurrence(c: seq<real>, k: nat)
    requires k < |c|
    ensures k == |c| - 1 ==> HeightAboveBase(c, k) == c[k] / 2.0
    ensures k < |c| - 1 ==> HeightAboveBase(c, k) == HeightAboveBase(c, k + 1) + c[k + 1] / 2.0 + c[k] / 2.0
  {
    if k < |c| - 1 {
      assert c[k + 1..][1..] == c[k + 2..];
    } else {
      assert c[k + 1..] == [];
    }
  }

  /** Depth below the top plus height above the base is the column's total thickness. */
  lemma DepthPlusHeight(c: seq<real>, k: nat)
    requires k < |c|
    ensures DepthBelowTop(c, k) + HeightAboveBase(c, k) == Sum(c)
  {
    assert c == c[..k] + c[k..];
    SumConcat(c[..k], c[k..]);
    assert c[k..][1..] == c[k + 1..];
  }

  /** With non-negative thicknesses, depth never decreases down a column and height never increases. */
  lemma DepthMonotone(c: seq<real>, k: nat)
    requires k + 1 < |c| && forall t :: 0 <= t < |c| ==> c[t] >= 0.0
    ensures DepthBelowTop(c, k) <= DepthBelowTop(c, k + 1)
    ensures HeightAboveBase(c, k + 1) <= HeightAboveBase(c, k)
  {
    DepthRecurrence(c, k + 1);
    HeightRecurrence(c, k);
  }

  /** `e[:, :, k] = t[:, :, k] / 2`. */
  method HalfLayer(e: array3<real>, t: array3<real>, k: nat)
    requires e != t && k < e.Length2
    requires t.Length0 == e.Length0 && t.Length1 == e.Length1 && t.Length2 == e.Length2
    modifies e
    ensures forall i, j, k' :: 0 <= i < e.Length0 && 0 <= j < e.Length1 && 0 <= k' < e.Length2 ==>
      e[i, j, k'] == if k' == k then t[i, j, k] / 2.0 else old(e[i, j, k'])
  {
    for i := 0 to e.Length0
      invariant forall i', j, k' :: 0 <= i' < e.Length0 && 0 <= j < e.Length1 && 0 <= k' < e.Length2 ==>
        e[i', j, k'] == if i' < i && k' == k then t[i', j, k] / 2.0 else old(e[i', j, k'])
    {
      for j := 0 to e.Length1
        invariant forall i', j', k' :: 0 <= i' < e.Length0 && 0 <= j' < e.Length1 && 0 <= k' < e.Length2 ==>
          e[i', j', k'] == if (i' < i || (i' == i && j' < j)) && k' == k then t[i', j', k] / 2.0 else old(e[i', j', k'])
      {
        e[i, j, k] := t[i, j, k] / 2.0;
      }
    }
  }

  /** `e[:, :, k] = e[:, :, p] + t[:, :, p] / 2 + t[:, :, k] / 2`, stacking layer `k` on layer `p`. */
  method StackLayer(e: array3<real>, t: array3<real>, k: nat, p: nat)
    requires e != t && k < e.Length2 && p < e.Length2 && k != p
    requires t.Length0 == e.Length0 && t.Length1 == e.Length1 && t.Length2 == e.Length2
    modifies e
    ensures forall i, j, k' :: 0 <= i < e.Length0 && 0 <= j < e.Length1 && 0 <= k' < e.Length2 ==>
      e[i, j, k'] == if k' == k then old(e[i, j, p]) + t[i, j, p] / 2.0 + t[i, j, k] / 2.0 else old(e[i, j, k'])
  {
    for i := 0 to e.Length0
      invariant forall i', j, k' :: 0 <= i' < e.Length0 && 0 <= j < e.Length1 && 0 <= k' < e.Length2 ==>
        e[i', j, k'] == if i' < i && k' == k then old(e[i', j, p]) + t[i', j, p] / 2.0 + t[i', j, k] / 2.0 else old(e[i', j, k'])
    {
      for j := 0 to e.Length1
        invariant forall i', j', k' :: 0 <= i' < e.Length0 && 0 <= j' < e.Length1 && 0 <= k' < e.Length2 ==>
          e[i', j', k'] ==
            if (i' < i || (i' == i && j' < j)) && k' == k then old(e[i', j', p]) + t[i', j', p] / 2.0 + t[i', j', k] / 2.0
            else old(e[i', j', k'])
      {
        e[i, j, k] := e[i, j, p] + t[i, j, p] / 2.0 + t[i, j, k] / 2.0;
      }
    }
  }

  /** `_compute_elevation_downward`: each cell's depth below the top of its column. */
  method ComputeElevationDownward(t: array3<real>) returns (e: array3<real>)
    requires t.Length2 >= 1
    ensures fresh(e) && e.Length0 == t.Length0 && e.Length1 == t.Length1 && e.Length2 == t.Length2
    ensures forall i, j, k :: 0 <= i < e.Length0 && 0 <= j < e.Length1 && 0 <= k < e.Length2 ==>
      e[i, j, k] == DepthBelowTop(Column(t, i, j), k)
  {
    e := new real[t.Length0, t.Length1, t.Length2]((_, _, _) => 0.0);
    HalfLayer(e, t, 0);
    forall i, j | 0 <= i < e.Length0 && 0 <= j < e.Length1 ensures e[i, j, 0] == DepthBelowTop(Column(t, i, j), 0) {
      DepthRecurrence(Column(t, i, j), 0);
    }
    for k := 1 to t.Length2
      invariant forall i, j, k' :: 0 <= i < e.Length0 && 0 <= j < e.Length1 && 0 <= k' < k ==>
        e[i, j, k'] == DepthBelowTop(Column(t, i, j), k')
    {
      StackLayer(e, t, k, k - 1);
      forall i, j | 0 <= i < e.Length0 && 0 <= j < e.Length1 ensures e[i, j, k] == DepthBelowTop(Column(t, i, j), k) {
        DepthRecurrence(Column(t, i, j), k);
      }
    }
  }

  /** `_compute_elevation_upward`: each cell's height above the base of its column. */
  method ComputeElevationUpward(t: array3<real>) returns (e: array3<real>)
    requires t.Length2 >= 1
    ensures fresh(e) && e.Length0 == t.Length0 && e.Length1 == t.Length1 && e.Length2 == t.Length2
    ensures forall i, j, k :: 0 <= i < e.Length0 && 0 <= j < e.Length1 && 0 <= k < e.Length2 ==>
      e[i, j, k] == HeightAboveBase(Column(t, i, j), k)
  {
    var nz := t.Length2;
    e := new real[t.Length0, t.Length1, nz]((_, _, _) => 0.0);
    HalfLayer(e, t, nz - 1);
    forall i, j | 0 <= i < e.Length0 && 0 <= j < e.Length1
      ensures e[i, j, nz - 1] == HeightAboveBase(Column(t, i, j), nz - 1)
    {
      HeightRecurrence(Column(t, i, j), nz - 1);
    }
    var k := nz - 1;
    while k > 0
      invariant 0 <= k < nz
      invariant forall i, j, k' :: 0 <= i < e.Length0 && 0 <= j < e.Length1 && k <= k' < nz ==>
        e[i, j, k'] == HeightAboveBase(Column(t, i, j), k')
    {
      k := k - 1;
      StackLayer(e, t, k, k + 1);
      forall i, j | 0 <= i < e.Length0 && 0 <= j < e.Length1 ensures e[i, j, k] == HeightAboveBase(Column(t, i, j), k) {
        HeightRecurrence(Column(t, i, j), k);
      }
    }
  }

  datatype ElevationError = InvalidDirection(direction: string)

  /**
   * `_build_elevation_grid(thickness_grid, direction)`: depths for `"downward"`, heights for
   * `"upward"`, an error for any other direction.
   */
  method BuildElevationGrid(t: array3<real>, direction: string) returns (r: Result<array3<real>, ElevationError>)
    requires t.Length2 >= 1
    ensures r.Err? <==> direction != "downward" && direction != "upward"
    ensures r.Err? ==> r.error == InvalidDirection(direction)
    ensures r.Ok? ==> (fresh(r.value) &&
      r.value.Length0 == t.Length0 && r.value.Length1 == t.Length1 && r.value.Length2 == t.Length2 &&
      forall i, j, k :: 0 <= i < t.Length0 && 0 <= j < t.Length1 && 0 <= k < t.Length2 ==>
        r.value[i, j, k] ==
          if direction == "downward" then DepthBelowTop(Column(t, i, j), k) else HeightAboveBase(Column(t, i, j), k))
  {
    if direction != "downward" && direction != "upward" {
      return Err(InvalidDirection(direction));
    }
    var e;
    if direction == "downward" {
      e := ComputeElevationDownward(t);
    } else {
      e := ComputeElevationUpward(t);
    }
    return Ok(e);
  }

  /** `build_depth_grid`: the downward direction. */
  method BuildDepthGrid(t: array3<real>) returns (e: array3<real>)
    requires t.Length2 >= 1
    ensures fresh(e) && e.Length0 == t.Length0 && e.Length1 == t.Length1 && e.Length2 == t.Length2
    ensures forall i, j, k :: 0 <= i < t.Length0 && 0 <= j < t.Length1 && 0 <= k < t.Length2 ==>
      e[i, j, k] == DepthBelowTop(Column(t, i, j), k)
  {
    var r := BuildElevationGrid(t, "downward");
    e := r.value;
  }

  /** `build_elevation_grid`: the upward direction. */
  method BuildHeightGrid(t: array3<real>) returns (e: array3<real>)
    requires t.Length2 >= 1
    ensures fresh(e) && e.Length0 == t.Length0 && e.Length1 == t.Length1 && e.Length2 == t.Length2
    ensures forall i, j, k :: 0 <= i < t.Length0 && 0 <= j < t.Length1 && 0 <= k < t.Length2 ==>
      e[i, j, k] == HeightAboveBase(Column(t, i, j), k)
  {
    var r := BuildElevationGrid(t, "upward");
    assert "upward" != "downward";
    e := r.value;
  }
}
