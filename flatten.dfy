/**
 * `flatten_multilayer_grid_to_surface` and `flatten_multilayer_grids` of `bores.grids.base`:
 * a 3-D grid collapsed along its depth axis (axis 2, `k == 0` the top layer) into an `(nx, ny)`
 * surface, with the built-in strategies `max`, `min`, `mean`, `sum`, `top`, `bottom` and
 * `weighted_mean`, each in its NaN-ignoring and its NaN-propagating variant.
 */
module SurfaceFlatten {
  import opened Wrappers
  import opened Numeric
  import opened NdArrays

  /** A numpy array: its cells and its shape. */
  datatype NdGrid = NdGrid(cells: Nd<Num>, shape: seq<nat>)

  /** Every numpy array is rectangular. */
  predicate Rect(g: NdGrid) {
    HasShape(g.cells, g.shape)
  }

  /** An `(nx, ny)` surface: `nx` rows of `ny` cells. */
  type Surface = seq<seq<Num>>

  lemma InBounds3(i: nat, j: nat, k: nat, shape: seq<nat>)
    requires |shape| == 3 && i < shape[0] && j < shape[1] && k < shape[2]
    ensures InBounds([i, j, k], shape)
  {
    var idx := [i, j, k];
    assert idx[0] == i && idx[1] == j && idx[2] == k;
  }

  /** The column `grid[i, j, :]`, top layer first. */
  function Column(g: NdGrid, i: nat, j: nat): (c: seq<Num>)
    requires Rect(g) && |g.shape| == 3 && i < g.shape[0] && j < g.shape[1]
    ensures |c| == g.shape[2]
  {
    seq(g.shape[2], k requires 0 <= k < g.shape[2] =>
      InBounds3(i, j, k, g.shape); At(g.cells, g.shape, [i, j, k]))
  }

  lemma ColumnAt(g: NdGrid, i: nat, j: nat, k: nat)
    requires Rect(g) && |g.shape| == 3 && i < g.shape[0] && j < g.shape[1] && k < g.shape[2]
    ensures InBounds([i, j, k], g.shape) && Column(g, i, j)[k] == At(g.cells, g.shape, [i, j, k])
  {
    InBounds3(i, j, k, g.shape);
  }

  // ---- strategies ----

  /** The single-grid strategies other than `weighted_mean`. */
  datatype Strategy = MaxOfLayers | MinOfLayers | MeanOfLayers | SumOfLayers | TopLayer | BottomLayer

  function ParseStrategy(name: string): (s: Option<Strategy>)
    ensures s == Some(MaxOfLayers) <==> name == "max"
    ensures s == Some(MinOfLayers) <==> name == "min"
    ensures s == Some(MeanOfLayers) <==> name == "mean"
    ensures s == Some(SumOfLayers) <==> name == "sum"
    ensures s == Some(TopLayer) <==> name == "top"
    ensures s == Some(BottomLayer) <==> name == "bottom"
  {
    if name == "max" then Some(MaxOfLayers)
    else if name == "min" then Some(MinOfLayers)
    else if name == "mean" then Some(MeanOfLayers)
    else if name == "sum" then Some(SumOfLayers)
    else if name == "top" then Some(TopLayer)
    else if name == "bottom" then Some(BottomLayer)
    else None
  }

  /** `max`/`min` reduce without an identity and `top`/`bottom` index a layer: both need one. */
  predicate NeedsLayer(s: Strategy) {
    s != MeanOfLayers && s != SumOfLayers
  }

  /** One column collapsed by a strategy, with numpy's `nan*` functions when `ignoreNan`. */
  function Reduce(s: Strategy, col: seq<Num>, ignoreNan: bool): Num
    requires NeedsLayer(s) ==> |col| > 0
  {
    match s
    case MaxOfLayers => if ignoreNan then NanMax(col) else PlainMax(col)
    case MinOfLayers => if ignoreNan then NanMin(col) else PlainMin(col)
    case MeanOfLayers => if ignoreNan then NanMean(col) else PlainMean(col)
    case SumOfLayers => if ignoreNan then Fin(NanSum(col)) else PlainSum(col)
    case TopLayer => col[0]
    case BottomLayer => col[|col| - 1]
  }

  // ---- weighted mean ----

  /** numpy's product of two cells: NaN when either is NaN. */
  function Times(a: Num, b: Num): Num {
    if a.Fin? && b.Fin? then Fin(a.v * b.v) else NaN
  }

  /** `weights * grid` along one column. */
  function Products(w: seq<Num>, x: seq<Num>): (r: seq<Num>)
    requires |w| == |x|
    ensures |r| == |x|
  {
    if x == [] then [] else [Times(w[0], x[0])] + Products(w[1..], x[1..])
  }

  /** `np.divide(a, b, out=nan, where=(b != 0))`: NaN where the denominator is zero. */
  function Divide(a: Num, b: Num): Num {
    if b == Fin(0.0) then NaN
    else if a.Fin? && b.Fin? then Fin(a.v / b.v)
    else NaN
  }

  /** `sum(w * x) / sum(w)` over one column, `nansum` for both sums when `ignoreNan`. */
  function WeightedCell(x: seq<Num>, w: seq<Num>, ignoreNan: bool): Num
    requires |w| == |x|
  {
    var prods := Products(w, x);
    if ignoreNan then Divide(Fin(NanSum(prods)), Fin(NanSum(w)))
    else Divide(PlainSum(prods), PlainSum(w))
  }

  // ---- one grid ----

  datatype FlattenError =
    | NotThreeD(ndim: nat)
    | WeightsRequired
    | WeightsShapeMismatch(weightsShape: seq<nat>, gridShape: seq<nat>)
    | UnknownStrategy(name: string)
    | ZeroSizeReduction
    | NoLayerToIndex

  /**
   * The failures of `flatten_multilayer_grid_to_surface`, in its order: the rank, then the
   * weights of `weighted_mean`, then the strategy name; numpy itself raises for `max`/`min`
   * (a reduction without identity) and for `top`/`bottom` (an index) when there is no layer.
   */
  function CheckFlatten(g: NdGrid, strategy: string, weights: Option<NdGrid>): Option<FlattenError> {
    if |g.shape| != 3 then Some(NotThreeD(|g.shape|))
    else if strategy == "weighted_mean" then
      if weights.None? then Some(WeightsRequired)
      else if weights.value.shape != g.shape then Some(WeightsShapeMismatch(weights.value.shape, g.shape))
      else None
    else
      match ParseStrategy(strategy)
      case None => Some(UnknownStrategy(strategy))
      case Some(s) =>
        if g.shape[2] == 0 && (s == MaxOfLayers || s == MinOfLayers) then Some(ZeroSizeReduction)
        else if g.shape[2] == 0 && NeedsLayer(s) then Some(NoLayerToIndex)
        else None
  }

  /** `flatten_multilayer_grid_to_surface(grid, strategy, weights, ignore_nan)`. */
  function FlattenSurface(g: NdGrid, strategy: string, weights: Option<NdGrid>, ignoreNan: bool)
    : (r: Result<Surface, FlattenError>)
    requires Rect(g) && (weights.Some? ==> Rect(weights.value))
    ensures r.Err? <==> CheckFlatten(g, strategy, weights).Some?
    ensures r.Err? ==> r.error == CheckFlatten(g, strategy, weights).value
    ensures r.Ok? ==> |r.value| == g.shape[0] && forall i :: 0 <= i < |r.value| ==> |r.value[i]| == g.shape[1]
    ensures r.Ok? && strategy == "weighted_mean" ==>
      weights.Some? && weights.value.shape == g.shape &&
      forall i, j :: 0 <= i < g.shape[0] && 0 <= j < g.shape[1] ==>
        r.value[i][j] == WeightedCell(Column(g, i, j), Column(weights.value, i, j), ignoreNan)
    ensures r.Ok? && strategy != "weighted_mean" ==>
      ParseStrategy(strategy).Some? && (NeedsLayer(ParseStrategy(strategy).value) ==> g.shape[2] > 0) &&
      forall i, j :: 0 <= i < g.shape[0] && 0 <= j < g.shape[1] ==>
        r.value[i][j] == Reduce(ParseStrategy(strategy).value, Column(g, i, j), ignoreNan)
  {
    var err := CheckFlatten(g, strategy, weights);
    if err.Some? then Err(err.value)
    else
      var nx, ny := g.shape[0], g.shape[1];
      if strategy == "weighted_mean" then
        var w := weights.value;
        Ok(seq(nx, i requires 0 <= i < nx => seq(ny, j requires 0 <= j < ny =>
          WeightedCell(Column(g, i, j), Column(w, i, j), ignoreNan))))
      else
        var s := ParseStrategy(strategy).value;
        Ok(seq(nx, i requires 0 <= i < nx => seq(ny, j requires 0 <= j < ny =>
          Reduce(s, Column(g, i, j), ignoreNan))))
  }

  /** Under a named strategy, each surface cell is its column reduced by that strategy. */
  lemma StrategyCell(g: NdGrid, name: string, s: Strategy, weights: Option<NdGrid>, ignoreNan: bool, i: nat, j: nat)
    requires Rect(g) && (weights.Some? ==> Rect(weights.value))
    requires ParseStrategy(name) == Some(s)
    requires FlattenSurface(g, name, weights, ignoreNan).Ok?
    requires i < g.shape[0] && j < g.shape[1]
    ensures NeedsLayer(s) ==> |Column(g, i, j)| > 0
    ensures FlattenSurface(g, name, weights, ignoreNan).value[i][j] == Reduce(s, Column(g, i, j), ignoreNan)
  {
    assert name != "weighted_mean";
  }

  /** `top` is layer 0 and `bottom` is layer `nz - 1` of each column. */
  lemma TopAndBottom(g: NdGrid, weights: Option<NdGrid>, ignoreNan: bool, i: nat, j: nat)
    requires Rect(g) && (weights.Some? ==> Rect(weights.value))
    requires |g.shape| == 3 && g.shape[2] > 0 && i < g.shape[0] && j < g.shape[1]
    ensures InBounds([i, j, 0], g.shape) && InBounds([i, j, g.shape[2] - 1], g.shape)
    ensures FlattenSurface(g, "top", weights, ignoreNan).Ok?
    ensures FlattenSurface(g, "top", weights, ignoreNan).value[i][j] == At(g.cells, g.shape, [i, j, 0])
    ensures FlattenSurface(g, "bottom", weights, ignoreNan).Ok?
    ensures FlattenSurface(g, "bottom", weights, ignoreNan).value[i][j] ==
      At(g.cells, g.shape, [i, j, g.shape[2] - 1])
  {
    assert ParseStrategy("top") == Some(TopLayer);
    assert ParseStrategy("bottom") == Some(BottomLayer);
    StrategyCell(g, "top", TopLayer, weights, ignoreNan, i, j);
    StrategyCell(g, "bottom", BottomLayer, weights, ignoreNan, i, j);
    ColumnAt(g, i, j, 0);
    ColumnAt(g, i, j, g.shape[2] - 1);
  }

  /** `Finite(c)` lists exactly the finite cells of `c`. */
  lemma {:induction false} FiniteMembers(c: seq<Num>, k: nat)
    requires k < |c| && c[k].Fin?
    ensures c[k].v in Finite(c)
  {
    if k > 0 {
      FiniteMembers(c[1..], k - 1);
      assert Finite(c) == (if c[0].Fin? then [c[0].v] else []) + Finite(c[1..]);
    } else {
      assert Finite(c) == [c[0].v] + Finite(c[1..]);
    }
  }

  lemma {:induction false} FiniteFrom(c: seq<Num>, x: real)
    requires x in Finite(c)
    ensures exists k :: 0 <= k < |c| && c[k] == Fin(x)
  {
    assert c != [];
    assert Finite(c) == (if c[0].Fin? then [c[0].v] else []) + Finite(c[1..]);
    if c[0] != Fin(x) {
      FiniteFrom(c[1..], x);
      var k :| 0 <= k < |c[1..]| && c[1..][k] == Fin(x);
      assert c[k + 1] == Fin(x);
    }
  }

  /**
   * `max` with NaNs ignored: NaN exactly on columns without finite cells, otherwise a cell of
   * the column at least as large as every finite cell of it.
   */
  lemma MaxIsLargestLayer(g: NdGrid, weights: Option<NdGrid>, i: nat, j: nat)
    requires Rect(g) && (weights.Some? ==> Rect(weights.value))
    requires |g.shape| == 3 && g.shape[2] > 0 && i < g.shape[0] && j < g.shape[1]
    ensures FlattenSurface(g, "max", weights, true).Ok?
    ensures var m := FlattenSurface(g, "max", weights, true).value[i][j];
      (m.NaN? <==> forall k :: 0 <= k < g.shape[2] ==> Column(g, i, j)[k].NaN?) &&
      (m.Fin? ==> (exists k :: 0 <= k < g.shape[2] && Column(g, i, j)[k] == m) &&
                  forall k :: 0 <= k < g.shape[2] && Column(g, i, j)[k].Fin? ==> Column(g, i, j)[k].v <= m.v)
  {
    assert ParseStrategy("max") == Some(MaxOfLayers);
    StrategyCell(g, "max", MaxOfLayers, weights, true, i, j);
    var c := Column(g, i, j);
    var m := NanMax(c);
    forall k | 0 <= k < |c| && c[k].Fin? ensures Finite(c) != [] && c[k].v <= MaxOf(Finite(c)) {
      FiniteMembers(c, k);
    }
    if m.Fin? {
      FiniteFrom(c, m.v);
    }
  }

  /**
   * `min` with NaNs ignored: NaN exactly on columns without finite cells, otherwise a cell of
   * the column at most as large as every finite cell of it.
   */
  lemma MinIsSmallestLayer(g: NdGrid, weights: Option<NdGrid>, i: nat, j: nat)
    requires Rect(g) && (weights.Some? ==> Rect(weights.value))
    requires |g.shape| == 3 && g.shape[2] > 0 && i < g.shape[0] && j < g.shape[1]
    ensures FlattenSurface(g, "min", weights, true).Ok?
    ensures var m := FlattenSurface(g, "min", weights, true).value[i][j];
      (m.NaN? <==> forall k :: 0 <= k < g.shape[2] ==> Column(g, i, j)[k].NaN?) &&
      (m.Fin? ==> (exists k :: 0 <= k < g.shape[2] && Column(g, i, j)[k] == m) &&
                  forall k :: 0 <= k < g.shape[2] && Column(g, i, j)[k].Fin? ==> m.v <= Column(g, i, j)[k].v)
  {
    assert ParseStrategy("min") == Some(MinOfLayers);
    StrategyCell(g, "min", MinOfLayers, weights, true, i, j);
    var c := Column(g, i, j);
    var m := NanMin(c);
    forall k | 0 <= k < |c| && c[k].Fin? ensures Finite(c) != [] && MinOf(Finite(c)) <= c[k].v {
      FiniteMembers(c, k);
    }
    if m.Fin? {
      FiniteFrom(c, m.v);
    }
  }

  /** A lower bound of every element, counted `|xs|` times, is at most their sum. */
  lemma {:induction false} SumAtLeast(xs: seq<real>, m: real)
    requires forall i :: 0 <= i < |xs| ==> m <= xs[i]
    ensures |xs| as real * m <= Sum(xs)
  {
    if xs != [] {
      SumAtLeast(xs[1..], m);
      assert |xs| as real * m == (|xs| - 1) as real * m + m;
    }
  }

  /** An upper bound of every element, counted `|xs|` times, is at least their sum. */
  lemma {:induction false} SumAtMost(xs: seq<real>, m: real)
    requires forall i :: 0 <= i < |xs| ==> xs[i] <= m
    ensures Sum(xs) <= |xs| as real * m
  {
    if xs != [] {
      SumAtMost(xs[1..], m);
      assert |xs| as real * m == (|xs| - 1) as real * m + m;
    }
  }

  lemma DivideBounds(lo: real, s: real, hi: real, n: real)
    requires n > 0.0 && n * lo <= s <= n * hi
    ensures lo <= s / n <= hi
  {
    assert (s / n) * n == s;
  }

  /** The NaN-ignoring mean of a column lies between its NaN-ignoring minimum and maximum. */
  lemma ColumnMeanBetween(c: seq<Num>)
    requires Finite(c) != []
    ensures NanMin(c).Fin? && NanMean(c).Fin? && NanMax(c).Fin?
    ensures NanMin(c).v <= NanMean(c).v <= NanMax(c).v
  {
    var f := Finite(c);
    MeanWithinBounds(f, MinOf(f), MaxOf(f));
  }

  /** The mean of a non-empty list lies within any bounds of its elements. */
  lemma MeanWithinBounds(f: seq<real>, lo: real, hi: real)
    requires |f| > 0
    requires forall i :: 0 <= i < |f| ==> lo <= f[i] <= hi
    ensures lo <= Sum(f) / |f| as real <= hi
  {
    var n, t := |f| as real, Sum(f);
    assert n * lo <= t by { SumAtLeast(f, lo); }
    assert t <= n * hi by { SumAtMost(f, hi); }
    DivideBounds(lo, t, hi, n);
  }

  /** `mean` with NaNs ignored lies between `min` and `max` with NaNs ignored. */
  lemma MeanBetweenMinAndMax(g: NdGrid, weights: Option<NdGrid>, i: nat, j: nat)
    requires Rect(g) && (weights.Some? ==> Rect(weights.value))
    requires |g.shape| == 3 && g.shape[2] > 0 && i < g.shape[0] && j < g.shape[1]
    requires exists k :: 0 <= k < g.shape[2] && Column(g, i, j)[k].Fin?
    ensures FlattenSurface(g, "mean", weights, true).Ok?
    ensures FlattenSurface(g, "min", weights, true).Ok? && FlattenSurface(g, "max", weights, true).Ok?
    ensures var lo, mid, hi := FlattenSurface(g, "min", weights, true).value[i][j],
                               FlattenSurface(g, "mean", weights, true).value[i][j],
                               FlattenSurface(g, "max", weights, true).value[i][j];
      lo.Fin? && mid.Fin? && hi.Fin? && lo.v <= mid.v <= hi.v
  {
    assert ParseStrategy("mean") == Some(MeanOfLayers);
    assert ParseStrategy("min") == Some(MinOfLayers);
    assert ParseStrategy("max") == Some(MaxOfLayers);
    StrategyCell(g, "mean", MeanOfLayers, weights, true, i, j);
    StrategyCell(g, "min", MinOfLayers, weights, true, i, j);
    StrategyCell(g, "max", MaxOfLayers, weights, true, i, j);
    var c := Column(g, i, j);
    var k :| 0 <= k < g.shape[2] && c[k].Fin?;
    FiniteMembers(c, k);
    ColumnMeanBetween(c);
  }

  /** On columns without NaN, the NaN-ignoring and the NaN-propagating variants agree. */
  lemma {:induction false} VariantsAgreeWithoutNaN(s: Strategy, col: seq<Num>)
    requires NeedsLayer(s) ==> |col| > 0
    requires AllFinite(col)
    ensures Reduce(s, col, true) == Reduce(s, col, false)
  {
    FiniteOfAllFinite(col);
  }

  // ---- weighted mean ----

  lemma {:induction false} FiniteOfProducts(c: real, w: seq<Num>, x: seq<Num>)
    requires |w| == |x| && AllFinite(x)
    requires forall k :: 0 <= k < |w| ==> w[k] == Fin(c)
    ensures AllFinite(Products(w, x)) && Sum(Finite(Products(w, x))) == c * Sum(Finite(x))
  {
    if x != [] {
      FiniteOfProducts(c, w[1..], x[1..]);
      assert AllFinite(x[1..]);
      assert Finite(x) == [x[0].v] + Finite(x[1..]);
      var p := Products(w, x);
      assert w[0] == Fin(c) && x[0].Fin?;
      assert p == [Times(w[0], x[0])] + Products(w[1..], x[1..]);
      assert Times(w[0], x[0]) == Fin(c * x[0].v);
      assert Finite(p) == [c * x[0].v] + Finite(Products(w[1..], x[1..]));
      assert Sum([c * x[0].v] + Finite(Products(w[1..], x[1..]))) ==
        c * x[0].v + Sum(Finite(Products(w[1..], x[1..])));
      assert Sum([x[0].v] + Finite(x[1..])) == x[0].v + Sum(Finite(x[1..]));
    }
  }

  lemma {:induction false} FiniteOfUniform(c: real, w: seq<Num>)
    requires forall k :: 0 <= k < |w| ==> w[k] == Fin(c)
    ensures AllFinite(w) && Sum(Finite(w)) == |w| as real * c
  {
    if w != [] {
      var t := w[1..];
      assert forall k :: 0 <= k < |t| ==> t[k] == w[k + 1];
      FiniteOfUniform(c, t);
      assert w[0] == Fin(c);
      assert Finite(w) == [c] + Finite(t);
      assert Sum([c] + Finite(t)) == c + Sum(Finite(t));
      assert |w| as real * c == c + |t| as real * c;
    }
  }

  /**
   * With one non-zero weight on every layer of a column without NaN, `weighted_mean` is the
   * plain mean of the column, in both variants.
   */
  lemma WeightedMeanOfUniformWeights(x: seq<Num>, w: seq<Num>, c: real, ignoreNan: bool)
    requires |w| == |x| > 0 && AllFinite(x) && c != 0.0
    requires forall k :: 0 <= k < |w| ==> w[k] == Fin(c)
    ensures WeightedCell(x, w, ignoreNan) == NanMean(x) == PlainMean(x)
  {
    FiniteOfProducts(c, w, x);
    FiniteOfUniform(c, w);
    FiniteOfAllFinite(x);
    var n, t := |x| as real, Sum(Finite(x));
    ScaleCancels(c, t, n);
    var prods := Products(w, x);
    assert PlainSum(prods) == Fin(NanSum(prods)) == Fin(c * t);
    assert PlainSum(w) == Fin(NanSum(w)) == Fin(n * c);
    assert n * c != 0.0;
    assert Divide(Fin(c * t), Fin(n * c)) == Fin(t / n);
    assert NanMean(x) == Fin(t / n);
  }

  lemma ScaleCancels(c: real, s: real, n: real)
    requires c != 0.0 && n != 0.0
    ensures (c * s) / (n * c) == s / n
  {
    var q := s / n;
    assert q * n == s;
    assert (n * c) * q == c * s;
  }

  /** A column whose weights add up to zero flattens to NaN. */
  lemma WeightedMeanOfZeroWeights(x: seq<Num>, w: seq<Num>, ignoreNan: bool)
    requires |w| == |x| && AllFinite(w) && Sum(Finite(w)) == 0.0
    ensures WeightedCell(x, w, ignoreNan).NaN?
  {
  }

  /**
   * With NaNs ignored, a layer whose value is NaN still contributes its weight to the
   * denominator: values `[1, NaN]` with weights `[1, 1]` flatten to `0.5`, not to `1`.
   */
  lemma WeightedMeanKeepsWeightsOfNaNCells()
    ensures WeightedCell([Fin(1.0), NaN], [Fin(1.0), Fin(1.0)], true) == Fin(0.5)
  {
    var x, w := [Fin(1.0), NaN], [Fin(1.0), Fin(1.0)];
    ProductsOfPair(w, x);
    FiniteOfPair(Fin(1.0), NaN);
    FiniteOfPair(Fin(1.0), Fin(1.0));
    SumOfPair(1.0, 1.0);
    assert Sum([1.0]) == 1.0 + Sum([]);
  }

  lemma ProductsOfPair(w: seq<Num>, x: seq<Num>)
    requires |w| == |x| == 2
    ensures Products(w, x) == [Times(w[0], x[0]), Times(w[1], x[1])]
  {
    assert w[1..][1..] == [] && x[1..][1..] == [];
  }

  lemma FiniteOfPair(a: Num, b: Num)
    ensures Finite([a, b]) == (if a.Fin? then [a.v] else []) + (if b.Fin? then [b.v] else [])
  {
    assert [a, b][1..] == [b] && [b][1..] == [];
  }

  lemma SumOfPair(a: real, b: real)
    ensures Sum([a, b]) == a + b
  {
    assert [a, b][1..] == [b] && [b][1..] == [];
    assert Sum([b]) == b + Sum([]);
  }

  /** Under `weighted_mean`, each surface cell is the weighted mean of its column. */
  lemma WeightedSurfaceCell(g: NdGrid, w: NdGrid, ignoreNan: bool, i: nat, j: nat)
    requires Rect(g) && Rect(w) && |g.shape| == 3 && w.shape == g.shape
    requires i < g.shape[0] && j < g.shape[1]
    ensures FlattenSurface(g, "weighted_mean", Some(w), ignoreNan).Ok?
    ensures FlattenSurface(g, "weighted_mean", Some(w), ignoreNan).value[i][j] ==
      WeightedCell(Column(g, i, j), Column(w, i, j), ignoreNan)
  {
  }

  // ---- several grids ----

  /** The `strategy` argument of `flatten_multilayer_grids`: one name, or one per grid. */
  datatype StrategyChoice = Single(name: string) | PerGrid(names: map<string, string>)

  /** `strategy.get(name, "max")` for a mapping, the single strategy otherwise. */
  function StrategyFor(choice: StrategyChoice, name: string): (s: string)
    ensures choice.PerGrid? && name !in choice.names ==> s == "max"
  {
    match choice
    case Single(s) => s
    case PerGrid(m) => if name in m then m[name] else "max"
  }

  /** `weights[name]` when the mapping is given and holds `name`, `None` otherwise. */
  function WeightsFor(weights: Option<map<string, NdGrid>>, name: string): Option<NdGrid> {
    if weights.Some? && name in weights.value then Some(weights.value[name]) else None
  }

  predicate AllRect(grids: seq<(string, NdGrid)>, weights: Option<map<string, NdGrid>>) {
    (forall e :: e in grids ==> Rect(e.1)) &&
    (weights.Some? ==> forall n :: n in weights.value ==> Rect(weights.value[n]))
  }

  /** The `k`-th grid of the mapping flattened as the loop flattens it. */
  function FlattenEntry(grids: seq<(string, NdGrid)>, k: nat, choice: StrategyChoice,
                        weights: Option<map<string, NdGrid>>, ignoreNan: bool): Result<Surface, FlattenError>
    requires AllRect(grids, weights) && k < |grids|
  {
    FlattenSurface(grids[k].1, StrategyFor(choice, grids[k].0), WeightsFor(weights, grids[k].0), ignoreNan)
  }

  /**
   * A dictionary filled in iteration order from the outcomes of the first `n` entries, the
   * first failure ending the loop.
   */
  function Collect<S, E>(names: seq<string>, outcomes: seq<Result<S, E>>, n: nat): Result<map<string, S>, E>
    requires |outcomes| == |names| && n <= |names|
  {
    if n == 0 then Ok(map[])
    else
      match Collect(names, outcomes, n - 1)
      case Err(e) => Err(e)
      case Ok(m) =>
        match outcomes[n - 1]
        case Err(e) => Err(e)
        case Ok(s) => Ok(m[names[n - 1] := s])
  }

  /** Collecting fails exactly when one of the collected outcomes is a failure. */
  lemma {:induction false} CollectFails<S, E>(names: seq<string>, outcomes: seq<Result<S, E>>, n: nat)
    requires |outcomes| == |names| && n <= |names|
    ensures Collect(names, outcomes, n).Err? <==> exists k :: 0 <= k < n && outcomes[k].Err?
  {
    if n > 0 {
      CollectFails(names, outcomes, n - 1);
    }
  }

  /** A failed collection carries the error of the first failing outcome. */
  lemma {:induction false} CollectFirstError<S, E>(names: seq<string>, outcomes: seq<Result<S, E>>, n: nat)
    requires |outcomes| == |names| && n <= |names|
    requires Collect(names, outcomes, n).Err?
    ensures exists k :: (0 <= k < n && outcomes[k].Err? && Collect(names, outcomes, n).error == outcomes[k].error &&
      forall k' :: 0 <= k' < k ==> outcomes[k'].Ok?)
  {
    if Collect(names, outcomes, n - 1).Err? {
      CollectFirstError(names, outcomes, n - 1);
    } else {
      CollectFails(names, outcomes, n - 1);
    }
  }

  /** A successful collection has the collected names as keys. */
  lemma {:induction false} CollectKeys<S, E>(names: seq<string>, outcomes: seq<Result<S, E>>, n: nat)
    requires |outcomes| == |names| && n <= |names|
    requires Collect(names, outcomes, n).Ok?
    ensures Collect(names, outcomes, n).value.Keys == set k | 0 <= k < n :: names[k]
  {
    if n > 0 {
      CollectKeys(names, outcomes, n - 1);
      var keys := set k | 0 <= k < n :: names[k];
      var before := set k | 0 <= k < n - 1 :: names[k];
      assert keys == before + {names[n - 1]};
    }
  }

  /** With distinct names, a successful collection maps each name to its own outcome. */
  lemma {:induction false} CollectEntries<S, E>(names: seq<string>, outcomes: seq<Result<S, E>>, n: nat)
    requires |outcomes| == |names| && n <= |names|
    requires forall a, b :: 0 <= a < b < |names| ==> names[a] != names[b]
    requires Collect(names, outcomes, n).Ok?
    ensures forall k :: 0 <= k < n ==>
      outcomes[k].Ok? && names[k] in Collect(names, outcomes, n).value &&
      Collect(names, outcomes, n).value[names[k]] == outcomes[k].value
  {
    if n > 0 {
      CollectEntries(names, outcomes, n - 1);
    }
  }

  /** Once a collection has failed, collecting further entries keeps that failure. */
  lemma {:induction false} CollectStaysFailed<S, E>(names: seq<string>, outcomes: seq<Result<S, E>>, n: nat)
    requires |outcomes| == |names| && n <= |names|
    requires Collect(names, outcomes, n).Err?
    ensures Collect(names, outcomes, |names|) == Collect(names, outcomes, n)
    decreases |names| - n
  {
    if n < |names| {
      CollectStaysFailed(names, outcomes, n + 1);
    }
  }

  function Names(grids: seq<(string, NdGrid)>): (r: seq<string>)
    ensures |r| == |grids| && forall k :: 0 <= k < |grids| ==> r[k] == grids[k].0
  {
    seq(|grids|, k requires 0 <= k < |grids| => grids[k].0)
  }

  function Outcomes(grids: seq<(string, NdGrid)>, choice: StrategyChoice,
                    weights: Option<map<string, NdGrid>>, ignoreNan: bool): (r: seq<Result<Surface, FlattenError>>)
    requires AllRect(grids, weights)
    ensures |r| == |grids|
  {
    seq(|grids|, k requires 0 <= k < |grids| => FlattenEntry(grids, k, choice, weights, ignoreNan))
  }

  lemma OutcomeAt(grids: seq<(string, NdGrid)>, choice: StrategyChoice,
                  weights: Option<map<string, NdGrid>>, ignoreNan: bool, k: nat)
    requires AllRect(grids, weights) && k < |grids|
    ensures Outcomes(grids, choice, weights, ignoreNan)[k] == FlattenEntry(grids, k, choice, weights, ignoreNan)
  {
  }

  /** What `flatten_multilayer_grids` returns or raises. */
  function FlattenAll(grids: seq<(string, NdGrid)>, choice: StrategyChoice,
                      weights: Option<map<string, NdGrid>>, ignoreNan: bool): Result<map<string, Surface>, FlattenError>
    requires AllRect(grids, weights)
  {
    Collect(Names(grids), Outcomes(grids, choice, weights, ignoreNan), |grids|)
  }

  /**
   * `flatten_multilayer_grids` fails exactly when one of its grids fails to flatten, and then
   * raises the error of the first such grid in iteration order.
   */
  lemma FlattenAllFails(grids: seq<(string, NdGrid)>, choice: StrategyChoice,
                        weights: Option<map<string, NdGrid>>, ignoreNan: bool)
    requires AllRect(grids, weights)
    ensures var r := FlattenAll(grids, choice, weights, ignoreNan);
      (r.Err? <==> exists k :: 0 <= k < |grids| && FlattenEntry(grids, k, choice, weights, ignoreNan).Err?) &&
      (r.Err? ==> exists k :: (0 <= k < |grids| && FlattenEntry(grids, k, choice, weights, ignoreNan).Err? &&
                    r.error == FlattenEntry(grids, k, choice, weights, ignoreNan).error &&
                    forall k' :: 0 <= k' < k ==> FlattenEntry(grids, k', choice, weights, ignoreNan).Ok?))
  {
    var names, outcomes := Names(grids), Outcomes(grids, choice, weights, ignoreNan);
    forall k | 0 <= k < |grids| ensures outcomes[k] == FlattenEntry(grids, k, choice, weights, ignoreNan) {
      OutcomeAt(grids, choice, weights, ignoreNan, k);
    }
    CollectFails(names, outcomes, |grids|);
    if Collect(names, outcomes, |grids|).Err? {
      CollectFirstError(names, outcomes, |grids|);
    }
  }

  /**
   * When `flatten_multilayer_grids` succeeds, its keys are the grids' names and, the names of a
   * dictionary being distinct, each maps to its grid flattened on its own.
   */
  lemma FlattenAllEntries(grids: seq<(string, NdGrid)>, choice: StrategyChoice,
                          weights: Option<map<string, NdGrid>>, ignoreNan: bool)
    requires AllRect(grids, weights)
    requires forall a, b :: 0 <= a < b < |grids| ==> grids[a].0 != grids[b].0
    requires FlattenAll(grids, choice, weights, ignoreNan).Ok?
    ensures var m := FlattenAll(grids, choice, weights, ignoreNan).value;
      m.Keys == (set k | 0 <= k < |grids| :: grids[k].0) &&
      forall k :: 0 <= k < |grids| ==>
        FlattenEntry(grids, k, choice, weights, ignoreNan).Ok? &&
        m[grids[k].0] == FlattenEntry(grids, k, choice, weights, ignoreNan).value
  {
    var names, outcomes := Names(grids), Outcomes(grids, choice, weights, ignoreNan);
    forall k | 0 <= k < |grids| ensures outcomes[k] == FlattenEntry(grids, k, choice, weights, ignoreNan) {
      OutcomeAt(grids, choice, weights, ignoreNan, k);
    }
    CollectKeys(names, outcomes, |grids|);
    assert (set k | 0 <= k < |grids| :: names[k]) == (set k | 0 <= k < |grids| :: grids[k].0);
    CollectEntries(names, outcomes, |grids|);
  }

  /**
   * `flatten_multilayer_grids(grids, strategy, weights, ignore_nan)`: the mapping's grids in
   * iteration order, each flattened into `result[name]`; the first failure is raised.
   */
  method FlattenMultilayerGrids(grids: seq<(string, NdGrid)>, choice: StrategyChoice,
                                weights: Option<map<string, NdGrid>>, ignoreNan: bool)
    returns (r: Result<map<string, Surface>, FlattenError>)
    requires AllRect(grids, weights)
    ensures r == FlattenAll(grids, choice, weights, ignoreNan)
  {
    ghost var names, outcomes := Names(grids), Outcomes(grids, choice, weights, ignoreNan);
    var result: map<string, Surface> := map[];
    for n := 0 to |grids|
      invariant Collect(names, outcomes, n) == Ok(result)
    {
      var flat := FlattenEntry(grids, n, choice, weights, ignoreNan);
      OutcomeAt(grids, choice, weights, ignoreNan, n);
      if flat.Err? {
        r := Err(flat.error);
        assert Collect(names, outcomes, n + 1) == r;
        CollectStaysFailed(names, outcomes, n + 1);
        return;
      }
      result := result[grids[n].0 := flat.value];
    }
    r := Ok(result);
  }
}
