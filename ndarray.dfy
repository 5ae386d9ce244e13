/**
 * Rectangular n-dimensional arrays as nested values, and the numpy slicing and padding the
 * grid code relies on: constant padding after each axis, edge-replicating padding on both
 * sides, Python's `[w:-w]` cropping and the C-order listing of a rectangular block.
 */
module NdArrays {
  import opened Wrappers
  import opened Numeric

  /** A 0-d cell, or one axis whose items are the sub-arrays along it. */
  datatype Nd<T> = Leaf(v: T) | Axis(items: seq<Nd<T>>)

  /** `a` is rectangular with this shape (what every numpy array is). */
  predicate HasShape<T>(a: Nd<T>, shape: seq<nat>)
    decreases |shape|
  {
    if shape == [] then a.Leaf?
    else
      a.Axis? && |a.items| == shape[0] &&
      forall i :: 0 <= i < shape[0] ==> HasShape(a.items[i], shape[1..])
  }

  predicate InBounds(idx: seq<nat>, shape: seq<nat>) {
    |idx| == |shape| && forall d :: 0 <= d < |idx| ==> idx[d] < shape[d]
  }

  lemma InBoundsTail(idx: seq<nat>, shape: seq<nat>)
    requires InBounds(idx, shape) && shape != []
    ensures idx[0] < shape[0] && InBounds(idx[1..], shape[1..])
  {
    assert forall d :: 0 <= d < |idx| - 1 ==> idx[1..][d] == idx[d + 1];
  }

  lemma InBoundsCons(i: nat, idx: seq<nat>, shape: seq<nat>)
    requires shape != [] && i < shape[0] && InBounds(idx, shape[1..])
    ensures InBounds([i] + idx, shape)
  {
    forall d | 0 <= d < |shape| ensures ([i] + idx)[d] < shape[d] {
      if d > 0 { assert ([i] + idx)[d] == idx[d - 1]; }
    }
  }

  /** The cell at `idx`, numpy's `a[idx]`. */
  function At<T>(a: Nd<T>, shape: seq<nat>, idx: seq<nat>): T
    requires HasShape(a, shape) && InBounds(idx, shape)
    decreases |shape|
  {
    if shape == [] then a.v
    else
      InBoundsTail(idx, shape);
      At(a.items[idx[0]], shape[1..], idx[1..])
  }

  /** Two arrays of one shape that agree at every index are the same array. */
  lemma {:induction false} Extensionality<T>(a: Nd<T>, b: Nd<T>, shape: seq<nat>)
    requires HasShape(a, shape) && HasShape(b, shape)
    requires forall idx :: InBounds(idx, shape) ==> At(a, shape, idx) == At(b, shape, idx)
    ensures a == b
    decreases |shape|
  {
    if shape != [] {
      forall i | 0 <= i < shape[0] ensures a.items[i] == b.items[i] {
        forall idx | InBounds(idx, shape[1..])
          ensures At(a.items[i], shape[1..], idx) == At(b.items[i], shape[1..], idx)
        {
          InBoundsCons(i, idx, shape);
          var full := [i] + idx;
          assert full[0] == i && full[1..] == idx;
          assert At(a, shape, full) == At(b, shape, full);
        }
        Extensionality(a.items[i], b.items[i], shape[1..]);
      }
      assert a.items == b.items;
    } else {
      assert InBounds([], shape);
      assert At(a, shape, []) == At(b, shape, []);
    }
  }

  // ---- building arrays ----

  /** `prefix` is a valid index into the leading axes of `full`. */
  predicate PrefixInBounds(prefix: seq<nat>, full: seq<nat>) {
    |prefix| <= |full| && forall d :: 0 <= d < |prefix| ==> prefix[d] < full[d]
  }

  /**
   * The array of shape `full[|prefix|..]` whose cell at `idx` is `f(prefix + idx)`;
   * `Tabulate(shape, f)` below is `TabulateFrom(shape, [], f)`.
   */
  function TabulateFrom<T>(full: seq<nat>, prefix: seq<nat>, f: seq<nat> --> T): (r: Nd<T>)
    requires PrefixInBounds(prefix, full)
    requires forall idx :: InBounds(idx, full) ==> f.requires(idx)
    ensures HasShape(r, full[|prefix|..])
    ensures forall idx :: InBounds(idx, full[|prefix|..]) ==>
      InBounds(prefix + idx, full) && At(r, full[|prefix|..], idx) == f(prefix + idx)
    decreases |full| - |prefix|
  {
    if |prefix| == |full| then
      assert prefix + [] == prefix;
      assert InBounds(prefix, full);
      Leaf(f(prefix))
    else
      var n := full[|prefix|];
      var items := seq(n, i requires 0 <= i < n => TabulateFrom(full, prefix + [i as nat], f));
      var r := Axis(items);
      TabulateFromAt(full, prefix, f, r);
      r
  }

  /** The inductive step behind `TabulateFrom`'s second postcondition. */
  lemma TabulateFromAt<T>(full: seq<nat>, prefix: seq<nat>, f: seq<nat> --> T, r: Nd<T>)
    requires PrefixInBounds(prefix, full) && |prefix| < |full|
    requires forall idx :: InBounds(idx, full) ==> f.requires(idx)
    requires r.Axis? && |r.items| == full[|prefix|]
    requires forall i :: 0 <= i < |r.items| ==> HasShape(r.items[i], full[|prefix| + 1..])
    requires forall i, idx ::
      (0 <= i < |r.items| && InBounds(idx, full[|prefix| + 1..])) ==>
        (InBounds((prefix + [i]) + idx, full) &&
         At(r.items[i], full[|prefix| + 1..], idx) == f((prefix + [i]) + idx))
    ensures HasShape(r, full[|prefix|..])
    ensures forall idx :: InBounds(idx, full[|prefix|..]) ==>
      InBounds(prefix + idx, full) && At(r, full[|prefix|..], idx) == f(prefix + idx)
  {
    var sub := full[|prefix|..];
    assert sub[1..] == full[|prefix| + 1..];
    forall idx | InBounds(idx, sub)
      ensures InBounds(prefix + idx, full) && At(r, sub, idx) == f(prefix + idx)
    {
      InBoundsTail(idx, sub);
      var i := idx[0];
      assert (prefix + [i]) + idx[1..] == prefix + idx;
    }
  }

  /** The array of this shape whose cell at `idx` is `f(idx)`. */
  function Tabulate<T>(shape: seq<nat>, f: seq<nat> --> T): (r: Nd<T>)
    requires forall idx :: InBounds(idx, shape) ==> f.requires(idx)
    ensures HasShape(r, shape)
    ensures forall idx {:trigger At(r, shape, idx)} :: InBounds(idx, shape) ==> At(r, shape, idx) == f(idx)
  {
    assert forall idx: seq<nat> :: [] + idx == idx;
    assert shape[0..] == shape;
    TabulateFrom(shape, [], f)
  }

  /** `np.full(shape, v)`. */
  function Full<T>(shape: seq<nat>, v: T): (r: Nd<T>)
    ensures HasShape(r, shape)
    decreases |shape|
  {
    if shape == [] then Leaf(v) else Axis(seq(shape[0], _ => Full(shape[1..], v)))
  }

  lemma {:induction false} AtFull<T>(shape: seq<nat>, v: T, idx: seq<nat>)
    requires InBounds(idx, shape)
    ensures At(Full(shape, v), shape, idx) == v
    decreases |shape|
  {
    if shape != [] {
      InBoundsTail(idx, shape);
      AtFull(shape[1..], v, idx[1..]);
    }
  }

  // ---- constant padding after each axis (np.pad mode="constant" with pad (0, p)) ----

  /** The shape grown by `after[d]` along each axis `d`. */
  function Grow(shape: seq<nat>, after: seq<nat>): (r: seq<nat>)
    requires |after| == |shape|
    ensures |r| == |shape| && forall d :: 0 <= d < |shape| ==> r[d] == shape[d] + after[d]
  {
    if shape == [] then [] else [shape[0] + after[0]] + Grow(shape[1..], after[1..])
  }

  function PadAfter<T>(a: Nd<T>, shape: seq<nat>, after: seq<nat>, v: T): (r: Nd<T>)
    requires HasShape(a, shape) && |after| == |shape|
    ensures HasShape(r, Grow(shape, after))
    decreases |shape|
  {
    if shape == [] then a
    else
      var sub := Grow(shape[1..], after[1..]);
      assert Grow(shape, after)[1..] == sub;
      var items := seq(shape[0] + after[0], i requires 0 <= i < shape[0] + after[0] =>
        if i < shape[0] then PadAfter(a.items[i], shape[1..], after[1..], v) else Full(sub, v));
      assert forall i :: 0 <= i < |items| ==> HasShape(items[i], sub) by {
        forall i | 0 <= i < |items| ensures HasShape(items[i], sub) {
          if i < shape[0] {
            assert items[i] == PadAfter(a.items[i], shape[1..], after[1..], v);
          } else {
            assert items[i] == Full(sub, v);
          }
        }
      }
      Axis(items)
  }

  /** Constant padding keeps every original cell and puts `v` everywhere else. */
  lemma {:induction false} AtPadAfter<T>(a: Nd<T>, shape: seq<nat>, after: seq<nat>, v: T, idx: seq<nat>)
    requires HasShape(a, shape) && |after| == |shape|
    requires InBounds(idx, Grow(shape, after))
    ensures At(PadAfter(a, shape, after, v), Grow(shape, after), idx) ==
      if InBounds(idx, shape) then At(a, shape, idx) else v
    decreases |shape|
  {
    if shape != [] {
      var g := Grow(shape, after);
      InBoundsTail(idx, g);
      var i := idx[0];
      if i < shape[0] {
        AtPadAfter(a.items[i], shape[1..], after[1..], v, idx[1..]);
        if InBounds(idx[1..], shape[1..]) {
          InBoundsCons(i, idx[1..], shape);
          assert [i] + idx[1..] == idx;
        } else {
          assert !InBounds(idx, shape) by {
            if InBounds(idx, shape) { InBoundsTail(idx, shape); }
          }
        }
      } else {
        AtFull(Grow(shape[1..], after[1..]), v, idx[1..]);
      }
    }
  }

  // ---- edge padding on both sides (np.pad mode="edge") ----

  /** The shape grown by `w` on both sides of every axis. */
  function Widen(shape: seq<nat>, w: nat): (r: seq<nat>)
    ensures |r| == |shape| && forall d :: 0 <= d < |shape| ==> r[d] == shape[d] + 2 * w
  {
    if shape == [] then [] else [shape[0] + 2 * w] + Widen(shape[1..], w)
  }

  /** numpy refuses to edge-pad an empty axis by a positive width. */
  predicate EdgePaddable(shape: seq<nat>, w: nat) {
    w == 0 || forall d :: 0 <= d < |shape| ==> shape[d] > 0
  }

  function PadEdge<T>(a: Nd<T>, shape: seq<nat>, w: nat): (r: Nd<T>)
    requires HasShape(a, shape) && EdgePaddable(shape, w)
    ensures HasShape(r, Widen(shape, w))
    decreases |shape|
  {
    if shape == [] then a
    else
      assert EdgePaddable(shape[1..], w);
      var n := shape[0];
      Axis(seq(n + 2 * w, i requires 0 <= i < n + 2 * w =>
        PadEdge(a.items[ClampOne(i, n, w)], shape[1..], w)))
  }

  /** The original position a padded position `i` reads from: `i - w`, held inside `[0, n)`. */
  function ClampOne(i: nat, n: nat, w: nat): (r: nat)
    requires i < n + 2 * w && (w == 0 || n > 0)
    ensures r < n
  {
    if i < w then 0 else if i - w < n then i - w else n - 1
  }

  /** `ClampOne` on every axis. */
  function Clamp(idx: seq<nat>, shape: seq<nat>, w: nat): (r: seq<nat>)
    requires InBounds(idx, Widen(shape, w)) && EdgePaddable(shape, w)
    ensures InBounds(r, shape)
    decreases |shape|
  {
    if shape == [] then []
    else
      InBoundsTail(idx, Widen(shape, w));
      assert EdgePaddable(shape[1..], w);
      var rest := Clamp(idx[1..], shape[1..], w);
      InBoundsCons(ClampOne(idx[0], shape[0], w), rest, shape);
      [ClampOne(idx[0], shape[0], w)] + rest
  }

  /** Edge padding: every padded cell repeats the nearest original cell. */
  lemma {:induction false} AtPadEdge<T>(a: Nd<T>, shape: seq<nat>, w: nat, idx: seq<nat>)
    requires HasShape(a, shape) && EdgePaddable(shape, w)
    requires InBounds(idx, Widen(shape, w))
    ensures At(PadEdge(a, shape, w), Widen(shape, w), idx) == At(a, shape, Clamp(idx, shape, w))
    decreases |shape|
  {
    if shape != [] {
      var g := Widen(shape, w);
      InBoundsTail(idx, g);
      assert g[1..] == Widen(shape[1..], w);
      assert EdgePaddable(shape[1..], w);
      var c := Clamp(idx, shape, w);
      assert c[1..] == Clamp(idx[1..], shape[1..], w);
      AtPadEdge(a.items[c[0]], shape[1..], w, idx[1..]);
    }
  }

  // ---- blocks ----

  /** `lo <= hi <= shape` on every axis: the block of indices with `lo[d] <= idx[d] < hi[d]`. */
  predicate BlockIn(lo: seq<nat>, hi: seq<nat>, shape: seq<nat>) {
    |lo| == |shape| && |hi| == |shape| && forall d :: 0 <= d < |shape| ==> lo[d] <= hi[d] <= shape[d]
  }

  lemma BlockInTail(lo: seq<nat>, hi: seq<nat>, shape: seq<nat>)
    requires BlockIn(lo, hi, shape) && shape != []
    ensures BlockIn(lo[1..], hi[1..], shape[1..])
  {
    assert forall d :: 0 <= d < |shape| - 1 ==> lo[1..][d] == lo[d + 1] && hi[1..][d] == hi[d + 1];
  }

  /** The cells of the block from `lo` (included) to `hi` (excluded), in C order. */
  function Box<T>(a: Nd<T>, shape: seq<nat>, lo: seq<nat>, hi: seq<nat>): seq<T>
    requires HasShape(a, shape) && BlockIn(lo, hi, shape)
    decreases |shape|, 1, 0
  {
    if shape == [] then [a.v] else BoxRows(a, shape, lo, hi, lo[0])
  }

  /** The part of the block whose first index is at least `r`. */
  function BoxRows<T>(a: Nd<T>, shape: seq<nat>, lo: seq<nat>, hi: seq<nat>, r: nat): seq<T>
    requires HasShape(a, shape) && BlockIn(lo, hi, shape) && shape != []
    decreases |shape|, 0, hi[0] - r
  {
    if r >= hi[0] then []
    else
      BlockInTail(lo, hi, shape);
      Box(a.items[r], shape[1..], lo[1..], hi[1..]) + BoxRows(a, shape, lo, hi, r + 1)
  }

  /** `s` without the cells equal to `v`. */
  function Strip<T(==)>(s: seq<T>, v: T): (r: seq<T>)
    ensures v !in r
  {
    if s == [] then [] else (if s[0] == v then [] else [s[0]]) + Strip(s[1..], v)
  }

  lemma {:induction false} StripConcat<T>(a: seq<T>, b: seq<T>, v: T)
    ensures Strip(a + b, v) == Strip(a, v) + Strip(b, v)
  {
    if a == [] {
      assert a + b == b;
    } else {
      assert (a + b)[0] == a[0];
      assert (a + b)[1..] == a[1..] + b;
      StripConcat(a[1..], b, v);
    }
  }

  /** Every cell of a block of `np.full(shape, v)` is `v`. */
  lemma {:induction false} StripBoxFull<T>(shape: seq<nat>, v: T, lo: seq<nat>, hi: seq<nat>)
    requires BlockIn(lo, hi, shape)
    ensures Strip(Box(Full(shape, v), shape, lo, hi), v) == []
    decreases |shape|, 1, 0
  {
    if shape != [] { StripRowsFull(shape, v, lo, hi, lo[0]); }
  }

  lemma {:induction false} StripRowsFull<T>(shape: seq<nat>, v: T, lo: seq<nat>, hi: seq<nat>, r: nat)
    requires BlockIn(lo, hi, shape) && shape != []
    ensures Strip(BoxRows(Full(shape, v), shape, lo, hi, r), v) == []
    decreases |shape|, 0, hi[0] - r
  {
    if r < hi[0] {
      BlockInTail(lo, hi, shape);
      var f := Full(shape, v);
      StripBoxFull(shape[1..], v, lo[1..], hi[1..]);
      StripRowsFull(shape, v, lo, hi, r + 1);
      StripConcat(Box(f.items[r], shape[1..], lo[1..], hi[1..]), BoxRows(f, shape, lo, hi, r + 1), v);
    }
  }

  /** `hi` held inside `shape`, axis by axis. */
  function MinShape(hi: seq<nat>, shape: seq<nat>): (r: seq<nat>)
    requires |hi| == |shape|
    ensures |r| == |shape| && forall d :: 0 <= d < |shape| ==> r[d] == if hi[d] < shape[d] then hi[d] else shape[d]
  {
    if shape == [] then [] else [if hi[0] < shape[0] then hi[0] else shape[0]] + MinShape(hi[1..], shape[1..])
  }

  /** Clipping an end corner that is already inside the shape changes nothing. */
  lemma MinShapeInside(hi: seq<nat>, shape: seq<nat>)
    requires |hi| == |shape| && forall d :: 0 <= d < |shape| ==> hi[d] <= shape[d]
    ensures MinShape(hi, shape) == hi
  {
  }

  /**
   * A block of a constant-padded array lists the block's cells inside the original extent,
   * in order, with padding cells `v` in between: dropping the `v`s leaves the same cells.
   */
  lemma {:induction false} StripBoxPadAfter<T>(a: Nd<T>, shape: seq<nat>, after: seq<nat>, v: T,
                                                   lo: seq<nat>, hi: seq<nat>)
    requires HasShape(a, shape) && |after| == |shape|
    requires BlockIn(lo, hi, Grow(shape, after))
    requires forall d :: 0 <= d < |shape| ==> lo[d] <= shape[d]
    ensures BlockIn(lo, MinShape(hi, shape), shape)
    ensures Strip(Box(PadAfter(a, shape, after, v), Grow(shape, after), lo, hi), v) ==
            Strip(Box(a, shape, lo, MinShape(hi, shape)), v)
    decreases |shape|, 1, 0, 0
  {
    if shape != [] {
      StripRowsPadAfter(a, shape, after, v, lo, hi, lo[0]);
    }
  }

  lemma {:induction false} StripRowsPadAfter<T>(a: Nd<T>, shape: seq<nat>, after: seq<nat>, v: T,
                                                    lo: seq<nat>, hi: seq<nat>, r: nat)
    requires HasShape(a, shape) && |after| == |shape| && shape != []
    requires BlockIn(lo, hi, Grow(shape, after))
    requires forall d :: 0 <= d < |shape| ==> lo[d] <= shape[d]
    ensures BlockIn(lo, MinShape(hi, shape), shape)
    ensures Strip(BoxRows(PadAfter(a, shape, after, v), Grow(shape, after), lo, hi, r), v) ==
            Strip(BoxRows(a, shape, lo, MinShape(hi, shape), r), v)
    decreases |shape|, 0, hi[0] - r, 1
  {
    BlockInMin(lo, hi, shape, after);
    if r < hi[0] {
      StripRowsPadAfter(a, shape, after, v, lo, hi, r + 1);
      StripRowPadAfter(a, shape, after, v, lo, hi, r);
    }
  }

  lemma BlockInMin(lo: seq<nat>, hi: seq<nat>, shape: seq<nat>, after: seq<nat>)
    requires |after| == |shape| && BlockIn(lo, hi, Grow(shape, after))
    requires forall d :: 0 <= d < |shape| ==> lo[d] <= shape[d]
    ensures BlockIn(lo, MinShape(hi, shape), shape)
  {
  }

  /** One row of the padded block: the step of `StripRowsPadAfter`. */
  lemma StripRowPadAfter<T>(a: Nd<T>, shape: seq<nat>, after: seq<nat>, v: T,
                            lo: seq<nat>, hi: seq<nat>, r: nat)
    requires HasShape(a, shape) && |after| == |shape| && shape != []
    requires BlockIn(lo, hi, Grow(shape, after))
    requires forall d :: 0 <= d < |shape| ==> lo[d] <= shape[d]
    requires BlockIn(lo, MinShape(hi, shape), shape)
    requires r < hi[0]
    requires Strip(BoxRows(PadAfter(a, shape, after, v), Grow(shape, after), lo, hi, r + 1), v) ==
             Strip(BoxRows(a, shape, lo, MinShape(hi, shape), r + 1), v)
    ensures Strip(BoxRows(PadAfter(a, shape, after, v), Grow(shape, after), lo, hi, r), v) ==
            Strip(BoxRows(a, shape, lo, MinShape(hi, shape), r), v)
    decreases |shape|, 0, hi[0] - r, 0
  {
    var g := Grow(shape, after);
    var m := MinShape(hi, shape);
    var p := PadAfter(a, shape, after, v);
    var sub := Grow(shape[1..], after[1..]);
    assert g[1..] == sub;
    BlockInTail(lo, hi, g);
    var head := Box(p.items[r], sub, lo[1..], hi[1..]);
    var rest := BoxRows(p, g, lo, hi, r + 1);
    assert BoxRows(p, g, lo, hi, r) == head + rest;
    StripConcat(head, rest, v);
    if r < shape[0] {
      assert p.items[r] == PadAfter(a.items[r], shape[1..], after[1..], v);
      assert m[1..] == MinShape(hi[1..], shape[1..]);
      BlockInTail(lo, m, shape);
      StripBoxPadAfter(a.items[r], shape[1..], after[1..], v, lo[1..], hi[1..]);
      var head' := Box(a.items[r], shape[1..], lo[1..], m[1..]);
      var rest' := BoxRows(a, shape, lo, m, r + 1);
      assert BoxRows(a, shape, lo, m, r) == head' + rest';
      StripConcat(head', rest', v);
    } else {
      assert p.items[r] == Full(sub, v);
      StripBoxFull(sub, v, lo[1..], hi[1..]);
    }
  }

  // ---- cropping (Python's `grid[w:-w]` on every axis) ----

  /**
   * How `[w:-w]` reads: the stop Python computes from `-w`, which is `0` rather than the
   * axis length when `w == 0` (`AsWritten`), or the stop `n - w` the crop means (`Intended`).
   */
  datatype StopRule = AsWritten | Intended

  function CropStart(n: nat, w: nat): nat {
    if w < n then w else n
  }

  function CropLength(n: nat, w: nat, rule: StopRule): (len: nat)
    ensures CropStart(n, w) + len <= n
  {
    var stop := if rule.AsWritten? && w == 0 then 0 else if w < n then n - w else 0;
    if stop > CropStart(n, w) then stop - CropStart(n, w) else 0
  }

  function CropShape(shape: seq<nat>, w: nat, rule: StopRule): (r: seq<nat>)
    ensures |r| == |shape| && forall d :: 0 <= d < |shape| ==> r[d] == CropLength(shape[d], w, rule)
  {
    if shape == [] then [] else [CropLength(shape[0], w, rule)] + CropShape(shape[1..], w, rule)
  }

  function Crop<T>(a: Nd<T>, shape: seq<nat>, w: nat, rule: StopRule): (r: Nd<T>)
    requires HasShape(a, shape)
    ensures HasShape(r, CropShape(shape, w, rule))
    decreases |shape|
  {
    if shape == [] then a
    else
      var start := CropStart(shape[0], w);
      var len := CropLength(shape[0], w, rule);
      var sub := CropShape(shape[1..], w, rule);
      assert CropShape(shape, w, rule)[1..] == sub;
      var items := seq(len, i requires 0 <= i < len => Crop(a.items[start + i], shape[1..], w, rule));
      assert forall i :: 0 <= i < len ==> HasShape(items[i], sub) by {
        forall i | 0 <= i < len ensures HasShape(items[i], sub) {
          assert items[i] == Crop(a.items[start + i], shape[1..], w, rule);
        }
      }
      Axis(items)
  }

  /** The crop of `w` cells off both ends of an axis widened by `w` keeps exactly the original cells. */
  lemma CropOfWidened(n: nat, w: nat, rule: StopRule)
    requires n > 0 || w == 0
    requires w >= 1 || rule.Intended?
    ensures CropStart(n + 2 * w, w) == w && CropLength(n + 2 * w, w, rule) == n
  {
  }

  /** The number of rows a crop keeps along its first axis. */
  lemma CropRow0<T>(p: Nd<T>, g: seq<nat>, w: nat, rule: StopRule)
    requires HasShape(p, g) && g != []
    ensures |Crop(p, g, w, rule).items| == CropLength(g[0], w, rule)
  {
  }

  /** The rows a crop keeps along its first axis. */
  lemma CropRow<T>(p: Nd<T>, g: seq<nat>, w: nat, rule: StopRule, i: nat)
    requires HasShape(p, g) && g != [] && i < CropLength(g[0], w, rule)
    ensures |Crop(p, g, w, rule).items| == CropLength(g[0], w, rule)
    ensures Crop(p, g, w, rule).items[i] == Crop(p.items[CropStart(g[0], w) + i], g[1..], w, rule)
  {
  }

  /** The padded rows that hold the original ones along the first axis. */
  lemma PadEdgeRow<T>(a: Nd<T>, shape: seq<nat>, w: nat, i: nat)
    requires HasShape(a, shape) && EdgePaddable(shape, w) && shape != [] && i < shape[0]
    ensures EdgePaddable(shape[1..], w)
    ensures Widen(shape, w)[1..] == Widen(shape[1..], w)
    ensures PadEdge(a, shape, w).items[w + i] == PadEdge(a.items[i], shape[1..], w)
  {
    assert Widen(shape, w)[1..] == Widen(shape[1..], w);
  }

  /** Cropping the edge padding of the same width gives back the original array. */
  lemma {:induction false} CropPadEdge<T>(a: Nd<T>, shape: seq<nat>, w: nat, rule: StopRule)
    requires HasShape(a, shape) && EdgePaddable(shape, w)
    requires w >= 1 || rule.Intended?
    ensures Crop(PadEdge(a, shape, w), Widen(shape, w), w, rule) == a
    decreases |shape|
  {
    if shape != [] {
      var n := shape[0];
      var p := PadEdge(a, shape, w);
      var g := Widen(shape, w);
      CropOfWidened(n, w, rule);
      var c := Crop(p, g, w, rule);
      forall i | 0 <= i < n ensures c.items[i] == a.items[i] {
        CropRow(p, g, w, rule, i);
        PadEdgeRow(a, shape, w, i);
        CropPadEdge(a.items[i], shape[1..], w, rule);
      }
      if n == 0 { CropRow0(p, g, w, rule); }
      else { CropRow(p, g, w, rule, 0); }
      assert c.items == a.items;
    }
  }

  /** Everything `pad_grid` and `unpad_grid` can raise. */
  datatype PadError = EmptyAxis | UnsupportedRank(ndim: nat)

  /** `pad_grid(grid, pad_width)`: numpy's edge padding, which refuses an empty axis. */
  function PadGrid<T>(a: Nd<T>, shape: seq<nat>, w: nat): (r: Result<Nd<T>, PadError>)
    requires HasShape(a, shape)
    ensures r.Err? <==> !EdgePaddable(shape, w)
    ensures r.Ok? ==> HasShape(r.value, Widen(shape, w))
    ensures r.Ok? ==> forall idx {:trigger At(r.value, Widen(shape, w), idx)} :: InBounds(idx, Widen(shape, w)) ==>
        At(r.value, Widen(shape, w), idx) == At(a, shape, Clamp(idx, shape, w))
  {
    if !EdgePaddable(shape, w) then Err(EmptyAxis)
    else
      var p := PadEdge(a, shape, w);
      assert forall idx :: InBounds(idx, Widen(shape, w)) ==>
        At(p, Widen(shape, w), idx) == At(a, shape, Clamp(idx, shape, w)) by {
        forall idx | InBounds(idx, Widen(shape, w)) { AtPadEdge(a, shape, w, idx); }
      }
      Ok(p)
  }

  /** `unpad_grid(grid, pad_width)` as written: 2-D and 3-D only, `[w:-w]` on every axis. */
  function UnpadGrid<T>(a: Nd<T>, shape: seq<nat>, w: nat): (r: Result<Nd<T>, PadError>)
    requires HasShape(a, shape)
    ensures r.Err? <==> |shape| != 2 && |shape| != 3
    ensures r.Ok? ==> HasShape(r.value, CropShape(shape, w, AsWritten))
  {
    if |shape| == 2 || |shape| == 3 then Ok(Crop(a, shape, w, AsWritten))
    else Err(UnsupportedRank(|shape|))
  }

  /** The crop `unpad_grid` means, `[w:n-w]`, which keeps the whole grid when `w == 0`. */
  function UnpadGridIntended<T>(a: Nd<T>, shape: seq<nat>, w: nat): (r: Result<Nd<T>, PadError>)
    requires HasShape(a, shape)
    ensures r.Err? <==> |shape| != 2 && |shape| != 3
    ensures r.Ok? ==> HasShape(r.value, CropShape(shape, w, Intended))
  {
    if |shape| == 2 || |shape| == 3 then Ok(Crop(a, shape, w, Intended))
    else Err(UnsupportedRank(|shape|))
  }

  /** For a 2-D or 3-D grid and `w >= 1`, unpadding undoes padding. */
  lemma UnpadPadRoundTrip<T>(a: Nd<T>, shape: seq<nat>, w: nat)
    requires HasShape(a, shape) && (|shape| == 2 || |shape| == 3) && w >= 1
    ensures PadGrid(a, shape, w).Ok? <==> forall d :: 0 <= d < |shape| ==> shape[d] > 0
    ensures PadGrid(a, shape, w).Ok? ==> UnpadGrid(PadGrid(a, shape, w).value, Widen(shape, w), w) == Ok(a)
  {
    if EdgePaddable(shape, w) { CropPadEdge(a, shape, w, AsWritten); }
  }

  /** As written, `unpad_grid(g, 0)` of a grid with cells returns a grid with none. */
  lemma UnpadZeroWidthEmpties<T>(a: Nd<T>, shape: seq<nat>)
    requires HasShape(a, shape) && (|shape| == 2 || |shape| == 3) && shape[0] > 0
    ensures PadGrid(a, shape, 0).Ok?
    ensures UnpadGrid(PadGrid(a, shape, 0).value, Widen(shape, 0), 0).Ok?
    ensures UnpadGrid(PadGrid(a, shape, 0).value, Widen(shape, 0), 0).value != a
  {
    CropPadEdge(a, shape, 0, Intended);
    assert Widen(shape, 0) == shape;
    var u := UnpadGrid(PadGrid(a, shape, 0).value, Widen(shape, 0), 0).value;
    assert |u.items| == 0;
  }

  /** The intended crop undoes padding for every width, 0 included. */
  lemma UnpadIntendedRoundTrip<T>(a: Nd<T>, shape: seq<nat>, w: nat)
    requires HasShape(a, shape) && (|shape| == 2 || |shape| == 3) && EdgePaddable(shape, w)
    ensures PadGrid(a, shape, w).Ok?
    ensures UnpadGridIntended(PadGrid(a, shape, w).value, Widen(shape, w), w) == Ok(a)
  {
    CropPadEdge(a, shape, w, Intended);
  }
}
