/**
 * Floating-point cells as the model sees them, and the numpy reductions the grid code uses.
 *
 * A cell is a finite real or NaN. numpy's `nan*` reductions look only at the finite cells,
 * the plain reductions turn NaN into NaN. Infinities never reach a stored cell in this core
 * (the one place the source produces them, a harmonic mean over a zero denominator, folds
 * them back into 0.0 itself), so they are not a separate case.
 */
module Numeric {

  datatype Num = Fin(v: real) | NaN

  function Repeat<T>(x: T, n: nat): (r: seq<T>)
    ensures |r| == n && forall i :: 0 <= i < n ==> r[i] == x
  {
    seq(n, _ => x)
  }

  /** The number of cells of an array of this shape, numpy's `prod(shape)` (1 for a 0-d array). */
  function Prod(shape: seq<nat>): nat {
    if shape == [] then 1 else shape[0] * Prod(shape[1..])
  }

  lemma Prod2(shape: seq<nat>)
    requires |shape| == 2
    ensures Prod(shape) == shape[0] * shape[1]
  {
    assert Prod(shape[1..][1..]) == 1;
  }

  lemma Prod3(shape: seq<nat>)
    requires |shape| == 3
    ensures Prod(shape) == shape[0] * shape[1] * shape[2]
  {
    var a, b, c := shape[0], shape[1], shape[2];
    assert Prod(shape[1..][1..][1..]) == 1;
    assert Prod(shape[1..]) == b * c;
    assert a * (b * c) == (a * b) * c;
  }

  predicate AllFinite(s: seq<Num>) {
    forall i :: 0 <= i < |s| ==> s[i].Fin?
  }

  /** The finite values of `s`, in order: what numpy's `nan*` reductions operate on. */
  function Finite(s: seq<Num>): (r: seq<real>)
    ensures |r| <= |s|
  {
    if s == [] then [] else (if s[0].Fin? then [s[0].v] else []) + Finite(s[1..])
  }

  lemma {:induction false} FiniteConcat(a: seq<Num>, b: seq<Num>)
    ensures Finite(a + b) == Finite(a) + Finite(b)
  {
    if a == [] {
      assert a + b == b;
    } else {
      assert (a + b)[0] == a[0];
      assert (a + b)[1..] == a[1..] + b;
      FiniteConcat(a[1..], b);
    }
  }

  lemma {:induction false} FiniteOfNaNs(n: nat)
    ensures Finite(Repeat(NaN, n)) == []
  {
    if n > 0 {
      assert Repeat(NaN, n)[1..] == Repeat(NaN, n - 1);
      FiniteOfNaNs(n - 1);
    }
  }

  /** Appending NaN cells never changes what a `nan*` reduction sees. */
  lemma FiniteIgnoresNaNPadding(s: seq<Num>, n: nat)
    ensures Finite(s + Repeat(NaN, n)) == Finite(s)
  {
    FiniteConcat(s, Repeat(NaN, n));
    FiniteOfNaNs(n);
  }

  /** On an all-finite sequence, `Finite` is the sequence of values itself. */
  lemma {:induction false} FiniteOfAllFinite(s: seq<Num>)
    requires AllFinite(s)
    ensures |Finite(s)| == |s|
    ensures forall i :: 0 <= i < |s| ==> Finite(s)[i] == s[i].v
  {
    if s != [] {
      FiniteOfAllFinite(s[1..]);
    }
  }

  lemma AllFiniteConcat(a: seq<Num>, b: seq<Num>)
    ensures AllFinite(a + b) <==> AllFinite(a) && AllFinite(b)
  {
    if AllFinite(a) && AllFinite(b) {
      forall i | 0 <= i < |a + b| ensures (a + b)[i].Fin? {
        if i >= |a| { assert (a + b)[i] == b[i - |a|]; }
      }
    }
    if AllFinite(a + b) {
      forall i | 0 <= i < |a| ensures a[i].Fin? { assert (a + b)[i] == a[i]; }
      forall i | 0 <= i < |b| ensures b[i].Fin? { assert (a + b)[|a| + i] == b[i]; }
    }
  }

  function Sum(xs: seq<real>): real {
    if xs == [] then 0.0 else xs[0] + Sum(xs[1..])
  }

  lemma {:induction false} SumConcat(a: seq<real>, b: seq<real>)
    ensures Sum(a + b) == Sum(a) + Sum(b)
  {
    if a == [] {
      assert a + b == b;
    } else {
      assert (a + b)[0] == a[0];
      assert (a + b)[1..] == a[1..] + b;
      SumConcat(a[1..], b);
    }
  }

  lemma {:induction false} SumOfRepeat(x: real, n: nat)
    ensures Sum(Repeat(x, n)) == n as real * x
  {
    if n > 0 {
      assert Repeat(x, n)[1..] == Repeat(x, n - 1);
      SumOfRepeat(x, n - 1);
    }
  }

  /** The largest element, with the two facts that characterise it. */
  function MaxOf(xs: seq<real>): (m: real)
    requires |xs| > 0
    ensures m in xs
    ensures forall i :: 0 <= i < |xs| ==> xs[i] <= m
  {
    if |xs| == 1 then xs[0]
    else
      var rest := MaxOf(xs[1..]);
      if xs[0] >= rest then xs[0] else rest
  }

  /** The smallest element, with the two facts that characterise it. */
  function MinOf(xs: seq<real>): (m: real)
    requires |xs| > 0
    ensures m in xs
    ensures forall i :: 0 <= i < |xs| ==> m <= xs[i]
  {
    if |xs| == 1 then xs[0]
    else
      var rest := MinOf(xs[1..]);
      if xs[0] <= rest then xs[0] else rest
  }

  // ---- numpy reductions over one group of cells ----

  /** `np.nansum`: the sum of the finite cells; 0.0 when there are none. */
  function NanSum(s: seq<Num>): real {
    Sum(Finite(s))
  }

  /** `np.sum`: NaN as soon as one cell is NaN. */
  function PlainSum(s: seq<Num>): Num {
    if AllFinite(s) then Fin(Sum(Finite(s))) else NaN
  }

  /** `np.nanmean`: the mean of the finite cells; NaN when there are none. */
  function NanMean(s: seq<Num>): (r: Num)
    ensures r.NaN? <==> Finite(s) == []
  {
    var f := Finite(s);
    if |f| == 0 then NaN else Fin(Sum(f) / |f| as real)
  }

  /** `np.mean`: NaN on an empty group or as soon as one cell is NaN. */
  function PlainMean(s: seq<Num>): Num {
    if |s| == 0 || !AllFinite(s) then NaN else Fin(Sum(Finite(s)) / |s| as real)
  }

  /** `np.nanmax`: the largest finite cell; NaN when there are none. */
  function NanMax(s: seq<Num>): (r: Num)
    ensures r.NaN? <==> Finite(s) == []
  {
    var f := Finite(s);
    if |f| == 0 then NaN else Fin(MaxOf(f))
  }

  /** On finite cells whose last one is the largest, `np.nanmax` is that last cell. */
  lemma NanMaxOfLastLargest(s: seq<Num>)
    requires |s| > 0 && AllFinite(s)
    requires forall i :: 0 <= i < |s| ==> s[i].v <= s[|s| - 1].v
    ensures NanMax(s) == s[|s| - 1]
  {
    FiniteOfAllFinite(s);
    var f := Finite(s);
    var m := MaxOf(f);
    var k :| 0 <= k < |f| && f[k] == m;
    assert f[|s| - 1] <= m;
  }

  /** `np.nanmin`: the smallest finite cell; NaN when there are none. */
  function NanMin(s: seq<Num>): (r: Num)
    ensures r.NaN? <==> Finite(s) == []
  {
    var f := Finite(s);
    if |f| == 0 then NaN else Fin(MinOf(f))
  }

  /** `np.max` over a non-empty group: NaN propagates. */
  function PlainMax(s: seq<Num>): Num
    requires |s| > 0
  {
    if AllFinite(s) then (FiniteOfAllFinite(s); Fin(MaxOf(Finite(s)))) else NaN
  }

  /** `np.min` over a non-empty group: NaN propagates. */
  function PlainMin(s: seq<Num>): Num
    requires |s| > 0
  {
    if AllFinite(s) then (FiniteOfAllFinite(s); Fin(MinOf(Finite(s)))) else NaN
  }

  // ---- harmonic means ----

  /** Some value makes `1/(x+eps)` divide by zero (numpy then yields +inf). */
  predicate HasPole(xs: seq<real>, eps: real) {
    exists i :: 0 <= i < |xs| && xs[i] + eps == 0.0
  }

  /** The sum of `1/(x+eps)`; only consulted when there is no pole. */
  function RecipSum(xs: seq<real>, eps: real): real {
    if xs == [] then 0.0
    else (if xs[0] + eps == 0.0 then 0.0 else 1.0 / (xs[0] + eps)) + RecipSum(xs[1..], eps)
  }

  /**
   * The harmonic mean `coarsen_grid` uses for a block: `count / sum(1/(x+eps))` over the finite
   * cells, NaN for a block without finite cells, 0.0 where numpy's quotient is infinite
   * (a zero sum) or vanishes because the sum is infinite (a pole).
   */
  function BlockHarmonic(s: seq<Num>, eps: real): (r: Num)
    ensures r.NaN? <==> Finite(s) == []
  {
    var f := Finite(s);
    if |f| == 0 then NaN
    else if HasPole(f, eps) then Fin(0.0)
    else if RecipSum(f, eps) == 0.0 then Fin(0.0)
    else Fin(|f| as real / RecipSum(f, eps))
  }

  /**
   * `_axis_harmonic_mean` along one line: as `BlockHarmonic`, but `eps` is also added to the
   * denominator, `count / (sum(1/(x+eps)) + eps)`.
   */
  function AxisHarmonic(s: seq<Num>, eps: real): (r: Num)
    ensures r.NaN? <==> Finite(s) == []
  {
    var f := Finite(s);
    if |f| == 0 then NaN
    else if HasPole(f, eps) then Fin(0.0)
    else if RecipSum(f, eps) + eps == 0.0 then Fin(0.0)
    else Fin(|f| as real / (RecipSum(f, eps) + eps))
  }

  lemma {:induction false} RecipSumPositive(xs: seq<real>, eps: real)
    requires eps > 0.0 && forall i :: 0 <= i < |xs| ==> xs[i] >= 0.0
    ensures RecipSum(xs, eps) >= 0.0
    ensures |xs| > 0 ==> RecipSum(xs, eps) > 0.0
  {
    if xs != [] {
      RecipSumPositive(xs[1..], eps);
      assert 1.0 / (xs[0] + eps) > 0.0;
    }
  }

  lemma {:induction false} RecipSumOfRepeat(x: real, n: nat, eps: real)
    requires x + eps != 0.0
    ensures RecipSum(Repeat(x, n), eps) == n as real / (x + eps)
  {
    if n > 0 {
      assert Repeat(x, n)[1..] == Repeat(x, n - 1);
      RecipSumOfRepeat(x, n - 1, eps);
    }
  }

  /** On non-negative data (permeabilities) and a positive `eps`, both harmonic means are positive. */
  lemma HarmonicPositive(s: seq<Num>, eps: real)
    requires eps > 0.0 && forall i :: 0 <= i < |s| ==> s[i].Fin? && s[i].v >= 0.0
    requires |s| > 0
    ensures BlockHarmonic(s, eps).Fin? && BlockHarmonic(s, eps).v > 0.0
    ensures AxisHarmonic(s, eps).Fin? && AxisHarmonic(s, eps).v > 0.0
  {
    FiniteOfAllFinite(s);
    var f := Finite(s);
    assert forall i :: 0 <= i < |f| ==> f[i] >= 0.0;
    RecipSumPositive(f, eps);
    assert !HasPole(f, eps);
  }

  /** A block of `n` equal finite values `x` has harmonic mean exactly `x + eps`. */
  lemma BlockHarmonicOfUniform(x: real, n: nat, eps: real)
    requires n > 0 && x + eps != 0.0
    ensures BlockHarmonic(Repeat(Fin(x), n), eps) == Fin(x + eps)
  {
    var s := Repeat(Fin(x), n);
    FiniteOfAllFinite(s);
    assert Finite(s) == Repeat(x, n);
    RecipSumOfRepeat(x, n, eps);
    assert !HasPole(Repeat(x, n), eps);
  }
}
