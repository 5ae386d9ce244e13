/**
 * The clipping, masking and extremum helpers of `bores.utils`.
 *
 * Arrays are stored flat in C order (the last axis varies fastest) next to their shape, so that
 * one model serves the rank-2, rank-3 and rank-n variants: the cell `[i, j]` of an `(nx, ny)`
 * array is `a[i * ny + j]`, the cell `[i, j, k]` of an `(nx, ny, nz)` array is
 * `a[(i * ny + j) * nz + k]`. Masks and value arrays are read as snapshots (`seq`), which is what
 * the source's loops see: each cell is read exactly at the step that writes it.
 */
module Utils {
  import opened Numeric
  import opened Wrappers

  // ---- clipping ----

  /** `clip_scalar`: the lower bound below it, the upper bound above it, the value otherwise. */
  function ClipScalar(value: real, lo: real, hi: real): (r: real)
    ensures value < lo ==> r == lo
    ensures lo <= value <= hi ==> r == value
    ensures lo <= value && hi < value ==> r == hi
  {
    if value < lo then lo else if value > hi then hi else value
  }

  /** `clip` on one element: `max(min(value, hi), lo)`. It never returns less than `lo`. */
  function Clip(value: real, lo: real, hi: real): (r: real)
    ensures r >= lo
    ensures lo <= hi ==> r <= hi
    ensures r == lo || r == hi || r == value
  {
    var m := if value <= hi then value else hi;
    if m >= lo then m else lo
  }

  /** `clip` over an array with scalar bounds (the numba ufunc broadcasts them). */
  function ClipAll(values: seq<real>, lo: real, hi: real): (r: seq<real>)
    ensures |r| == |values|
    ensures forall t :: 0 <= t < |values| ==> r[t] == Clip(values[t], lo, hi)
  {
    seq(|values|, t requires 0 <= t < |values| => Clip(values[t], lo, hi))
  }

  /** With ordered bounds the result lies in them, and clipping twice is clipping once. */
  lemma ClipScalarInRange(value: real, lo: real, hi: real)
    requires lo <= hi
    ensures lo <= ClipScalar(value, lo, hi) <= hi
    ensures ClipScalar(ClipScalar(value, lo, hi), lo, hi) == ClipScalar(value, lo, hi)
  {
  }

  /**
   * The two clips agree exactly when the bounds are ordered or the value is below the lower
   * bound; with `lo > hi` and `value >= lo`, `clip` gives `lo` and `clip_scalar` gives `hi`.
   */
  lemma ClipAgreesWithClipScalar(value: real, lo: real, hi: real)
    ensures Clip(value, lo, hi) == ClipScalar(value, lo, hi) <==> lo <= hi || value < lo
  {
  }

  lemma ClipAllIdempotent(values: seq<real>, lo: real, hi: real)
    requires lo <= hi
    ensures ClipAll(ClipAll(values, lo, hi), lo, hi) == ClipAll(values, lo, hi)
  {
    forall t | 0 <= t < |values| ensures ClipAll(ClipAll(values, lo, hi), lo, hi)[t] == ClipAll(values, lo, hi)[t] {
      ClipAgreesWithClipScalar(values[t], lo, hi);
      ClipAgreesWithClipScalar(Clip(values[t], lo, hi), lo, hi);
      ClipScalarInRange(values[t], lo, hi);
    }
  }

  // ---- flat C-order indexing ----

  lemma MulLe(a: nat, b: nat, c: nat)
    requires a <= b
    ensures a * c <= b * c
  {
  }

  lemma Index2(i: nat, j: nat, nx: nat, ny: nat)
    requires i < nx && j < ny
    ensures i * ny + j < nx * ny
  {
    assert (i + 1) * ny == i * ny + ny;
    MulLe(i + 1, nx, ny);
  }

  lemma Index3(i: nat, j: nat, k: nat, nx: nat, ny: nat, nz: nat)
    requires i < nx && j < ny && k < nz
    ensures (i * ny + j) * nz + k < nx * ny * nz
  {
    Index2(i, j, nx, ny);
    var a := i * ny + j;
    var b := nx * ny;
    assert (a + 1) * nz == a * nz + nz;
    MulLe(a + 1, b, nz);
    assert nx * ny * nz == b * nz;
  }

  // ---- apply_mask ----

  /** `_apply_mask_2d`: where the mask holds, the cell takes the value; every other cell is kept. */
  method ApplyMask2D<T>(arr: array<T>, nx: nat, ny: nat, mask: seq<bool>, values: seq<T>)
    requires arr.Length == nx * ny && |mask| == arr.Length && |values| == arr.Length
    modifies arr
    ensures forall t :: 0 <= t < arr.Length ==> arr[t] == if mask[t] then values[t] else old(arr[t])
  {
    var t := 0;  // the flat position of [i, j]
    for i := 0 to nx
      invariant t == i * ny
      invariant t <= arr.Length
      invariant forall u :: 0 <= u < t ==> arr[u] == if mask[u] then values[u] else old(arr[u])
      invariant forall u :: t <= u < arr.Length ==> arr[u] == old(arr[u])
    {
      for j := 0 to ny
        invariant t == i * ny + j
        invariant t <= arr.Length
        invariant forall u :: 0 <= u < t ==> arr[u] == if mask[u] then values[u] else old(arr[u])
        invariant forall u :: t <= u < arr.Length ==> arr[u] == old(arr[u])
      {
        Index2(i, j, nx, ny);
        if mask[t] {
          arr[t] := values[t];
        }
        t := t + 1;
      }
      assert i * ny + ny == (i + 1) * ny;
    }
  }

  /** `_apply_mask_3d`: the same per-cell effect, over three nested loops. */
  method ApplyMask3D<T>(arr: array<T>, nx: nat, ny: nat, nz: nat, mask: seq<bool>, values: seq<T>)
    requires arr.Length == nx * ny * nz && |mask| == arr.Length && |values| == arr.Length
    modifies arr
    ensures forall t :: 0 <= t < arr.Length ==> arr[t] == if mask[t] then values[t] else old(arr[t])
  {
    var t := 0;  // the flat position of [i, j, k]
    for i := 0 to nx
      invariant t == i * ny * nz
      invariant t <= arr.Length
      invariant forall u :: 0 <= u < t ==> arr[u] == if mask[u] then values[u] else old(arr[u])
      invariant forall u :: t <= u < arr.Length ==> arr[u] == old(arr[u])
    {
      for j := 0 to ny
        invariant t == (i * ny + j) * nz
        invariant t <= arr.Length
        invariant forall u :: 0 <= u < t ==> arr[u] == if mask[u] then values[u] else old(arr[u])
        invariant forall u :: t <= u < arr.Length ==> arr[u] == old(arr[u])
      {
        for k := 0 to nz
          invariant t == (i * ny + j) * nz + k
          invariant t <= arr.Length
          invariant forall u :: 0 <= u < t ==> arr[u] == if mask[u] then values[u] else old(arr[u])
          invariant forall u :: t <= u < arr.Length ==> arr[u] == old(arr[u])
        {
          Index3(i, j, k, nx, ny, nz);
          if mask[t] {
            arr[t] := values[t];
          }
          t := t + 1;
        }
        assert (i * ny + j) * nz + nz == (i * ny + j + 1) * nz;
      }
      assert (i * ny + ny) * nz == (i + 1) * ny * nz;
    }
  }

  /** `_apply_mask_nd`: `np.ndindex` visits every index in C order, i.e. every flat position. */
  method ApplyMaskND<T>(arr: array<T>, mask: seq<bool>, values: seq<T>)
    requires |mask| == arr.Length && |values| == arr.Length
    modifies arr
    ensures forall t :: 0 <= t < arr.Length ==> arr[t] == if mask[t] then values[t] else old(arr[t])
  {
    for t := 0 to arr.Length
      invariant forall u :: 0 <= u < t ==> arr[u] == if mask[u] then values[u] else old(arr[u])
      invariant forall u :: t <= u < arr.Length ==> arr[u] == old(arr[u])
    {
      if mask[t] {
        arr[t] := values[t];
      }
    }
  }

  /** `apply_mask`: dispatches on the rank; every branch has the same per-cell effect. */
  method ApplyMask<T>(arr: array<T>, shape: seq<nat>, mask: seq<bool>, values: seq<T>)
    requires arr.Length == Prod(shape) && |mask| == arr.Length && |values| == arr.Length
    modifies arr
    ensures forall t :: 0 <= t < arr.Length ==> arr[t] == if mask[t] then values[t] else old(arr[t])
  {
    if |shape| == 2 {
      Prod2(shape);
      ApplyMask2D(arr, shape[0], shape[1], mask, values);
    } else if |shape| == 3 {
      Prod3(shape);
      ApplyMask3D(arr, shape[0], shape[1], shape[2], mask, values);
    } else {
      ApplyMaskND(arr, mask, values);
    }
  }

  // ---- get_mask ----

  /** `_get_mask_2d`: a new array holding the cell where the mask holds and `fill` elsewhere. */
  method GetMask2D<T>(arr: array<T>, nx: nat, ny: nat, mask: seq<bool>, fill: T) returns (out: array<T>)
    requires arr.Length == nx * ny && |mask| == arr.Length
    ensures fresh(out) && out.Length == arr.Length
    ensures forall t :: 0 <= t < out.Length ==> out[t] == if mask[t] then arr[t] else fill
  {
    out := new T[arr.Length](_ => fill);
    var t := 0;  // the flat position of [i, j]
    for i := 0 to nx
      invariant t == i * ny
      invariant t <= arr.Length
      invariant forall u :: 0 <= u < t ==> out[u] == if mask[u] then arr[u] else fill
    {
      for j := 0 to ny
        invariant t == i * ny + j
        invariant t <= arr.Length
        invariant forall u :: 0 <= u < t ==> out[u] == if mask[u] then arr[u] else fill
      {
        Index2(i, j, nx, ny);
        if mask[t] {
          out[t] := arr[t];
        } else {
          out[t] := fill;
        }
        t := t + 1;
      }
      assert i * ny + ny == (i + 1) * ny;
    }
  }

  /** `_get_mask_3d`: the same per-cell result, over three nested loops. */
  method GetMask3D<T>(arr: array<T>, nx: nat, ny: nat, nz: nat, mask: seq<bool>, fill: T) returns (out: array<T>)
    requires arr.Length == nx * ny * nz && |mask| == arr.Length
    ensures fresh(out) && out.Length == arr.Length
    ensures forall t :: 0 <= t < out.Length ==> out[t] == if mask[t] then arr[t] else fill
  {
    out := new T[arr.Length](_ => fill);
    var t := 0;  // the flat position of [i, j, k]
    for i := 0 to nx
      invariant t == i * ny * nz
      invariant t <= arr.Length
      invariant forall u :: 0 <= u < t ==> out[u] == if mask[u] then arr[u] else fill
    {
      for j := 0 to ny
        invariant t == (i * ny + j) * nz
        invariant t <= arr.Length
        invariant forall u :: 0 <= u < t ==> out[u] == if mask[u] then arr[u] else fill
      {
        for k := 0 to nz
          invariant t == (i * ny + j) * nz + k
          invariant t <= arr.Length
          invariant forall u :: 0 <= u < t ==> out[u] == if mask[u] then arr[u] else fill
        {
          Index3(i, j, k, nx, ny, nz);
          if mask[t] {
            out[t] := arr[t];
          } else {
            out[t] := fill;
          }
          t := t + 1;
        }
        assert (i * ny + j) * nz + nz == (i * ny + j + 1) * nz;
      }
      assert (i * ny + ny) * nz == (i + 1) * ny * nz;
    }
  }

  /** `_get_mask_nd`: one pass over every flat position. */
  method GetMaskND<T>(arr: array<T>, mask: seq<bool>, fill: T) returns (out: array<T>)
    requires |mask| == arr.Length
    ensures fresh(out) && out.Length == arr.Length
    ensures forall t :: 0 <= t < out.Length ==> out[t] == if mask[t] then arr[t] else fill
  {
    out := new T[arr.Length](_ => fill);
    for t := 0 to arr.Length
      invariant forall u :: 0 <= u < t ==> out[u] == if mask[u] then arr[u] else fill
    {
      if mask[t] {
        out[t] := arr[t];
      } else {
        out[t] := fill;
      }
    }
  }

  /** `get_mask`: dispatches on the rank; `arr` itself is not modified. */
  method GetMask<T>(arr: array<T>, shape: seq<nat>, mask: seq<bool>, fill: T) returns (out: array<T>)
    requires arr.Length == Prod(shape) && |mask| == arr.Length
    ensures fresh(out) && out.Length == arr.Length
    ensures forall t :: 0 <= t < out.Length ==> out[t] == if mask[t] then arr[t] else fill
  {
    if |shape| == 2 {
      Prod2(shape);
      out := GetMask2D(arr, shape[0], shape[1], mask, fill);
    } else if |shape| == 3 {
      Prod3(shape);
      out := GetMask3D(arr, shape[0], shape[1], shape[2], mask, fill);
    } else {
      out := GetMaskND(arr, mask, fill);
    }
  }

  /** `get_mask` called without `fill_value`: the masked-out cells become NaN. */
  method GetMaskDefault(arr: array<Num>, shape: seq<nat>, mask: seq<bool>) returns (out: array<Num>)
    requires arr.Length == Prod(shape) && |mask| == arr.Length
    ensures fresh(out) && out.Length == arr.Length
    ensures forall t :: 0 <= t < out.Length ==> out[t] == if mask[t] then arr[t] else NaN
  {
    out := GetMask(arr, shape, mask, NaN);
  }

  // ---- min_ / max_ ----

  /** The argument of `min_`/`max_`: a Python float, or an array of cells. */
  datatype Operand = Scalar(x: real) | Array(cells: seq<Num>)

  /** `np.min`/`np.max` on an empty array raise ValueError. */
  datatype ReductionError = ZeroSizeArray

  /** `min_`: a float comes back unchanged; an array gives its minimum, NaN if any cell is NaN. */
  function Min(x: Operand): (r: Result<Num, ReductionError>)
    ensures x.Scalar? ==> r == Ok(Fin(x.x))
    ensures x.Array? && |x.cells| == 0 ==> r == Err(ZeroSizeArray)
    ensures x.Array? && |x.cells| > 0 && !AllFinite(x.cells) ==> r == Ok(NaN)
    ensures x.Array? && |x.cells| > 0 && AllFinite(x.cells) ==>
      r.Ok? && r.value.Fin? && Fin(r.value.v) in x.cells &&
      forall t :: 0 <= t < |x.cells| ==> r.value.v <= x.cells[t].v
  {
    match x
    case Scalar(v) => Ok(Fin(v))
    case Array(cells) =>
      if |cells| == 0 then Err(ZeroSizeArray)
      else if !AllFinite(cells) then Ok(NaN)
      else
        FiniteOfAllFinite(cells);
        var m := MinOf(Finite(cells));
        assert exists t :: 0 <= t < |cells| && cells[t] == Fin(m);
        Ok(Fin(m))
  }

  /** `max_`: a float comes back unchanged; an array gives its maximum, NaN if any cell is NaN. */
  function Max(x: Operand): (r: Result<Num, ReductionError>)
    ensures x.Scalar? ==> r == Ok(Fin(x.x))
    ensures x.Array? && |x.cells| == 0 ==> r == Err(ZeroSizeArray)
    ensures x.Array? && |x.cells| > 0 && !AllFinite(x.cells) ==> r == Ok(NaN)
    ensures x.Array? && |x.cells| > 0 && AllFinite(x.cells) ==>
      r.Ok? && r.value.Fin? && Fin(r.value.v) in x.cells &&
      forall t :: 0 <= t < |x.cells| ==> x.cells[t].v <= r.value.v
  {
    match x
    case Scalar(v) => Ok(Fin(v))
    case Array(cells) =>
      if |cells| == 0 then Err(ZeroSizeArray)
      else if !AllFinite(cells) then Ok(NaN)
      else
        FiniteOfAllFinite(cells);
        var m := MaxOf(Finite(cells));
        assert exists t :: 0 <= t < |cells| && cells[t] == Fin(m);
        Ok(Fin(m))
  }
}
