/**
 * The value-level part of `bores.grids.saturation`: the inputs, `_validate_inputs`, and the
 * per-cell meaning of the sharp-contact and transition-zone builders.
 *
 * Grids are flat C-order sequences beside their shape. Depths and saturation end-points are
 * reals; porosity may be NaN, which makes a cell inactive. The weight `frac ** n` of a transition
 * band is a parameter `weight` (it stands for `x => x ** n`); the lemmas that need it name the
 * properties of a power on [0, 1] they rely on.
 */
module SaturationModel {
  import opened Numeric
  import opened Wrappers
  import Utils

  datatype Grid = Grid(shape: seq<nat>, cells: seq<real>)
  datatype PorosityGrid = PorosityGrid(shape: seq<nat>, cells: seq<Num>)

  /** The arguments of `build_saturation_grids`, with the source's names. */
  datatype Inputs = Inputs(
    depth: Grid,
    gasOilContact: real,
    oilWaterContact: real,
    connateWater: Grid,          // Swc
    residualOilWater: Grid,      // Sor_w
    residualOilGas: Grid,        // Sor_g
    residualGas: Grid,           // Sgr
    porosity: PorosityGrid,
    useTransitionZones: bool,
    gasOilThickness: real,
    oilWaterThickness: real,
    curvatureExponent: real)

  /** Every grid is a well-formed numpy array: as many cells as its shape says. */
  predicate WellFormed(inp: Inputs) {
    |inp.depth.cells| == Prod(inp.depth.shape)
    && |inp.connateWater.cells| == Prod(inp.connateWater.shape)
    && |inp.residualOilWater.cells| == Prod(inp.residualOilWater.shape)
    && |inp.residualOilGas.cells| == Prod(inp.residualOilGas.shape)
    && |inp.residualGas.cells| == Prod(inp.residualGas.shape)
    && |inp.porosity.cells| == Prod(inp.porosity.shape)
  }

  predicate SameShapes(inp: Inputs) {
    inp.depth.shape == inp.connateWater.shape == inp.residualOilWater.shape
    == inp.residualOilGas.shape == inp.residualGas.shape == inp.porosity.shape
  }

  /** `np.isfinite(porosity) & (porosity > 0)`. */
  predicate IsActive(phi: Num) {
    phi.Fin? && phi.v > 0.0
  }

  function ActiveMask(phi: seq<Num>): (m: seq<bool>)
    ensures |m| == |phi| && forall t :: 0 <= t < |phi| ==> m[t] == IsActive(phi[t])
  {
    seq(|phi|, t requires 0 <= t < |phi| => IsActive(phi[t]))
  }

  // ---- validation ----

  datatype SaturationError =
    | ContactsOutOfOrder
    | ShapeMismatch
    | ConnateWaterOutOfRange
    | ResidualOilWaterOutOfRange
    | ResidualOilGasOutOfRange
    | ResidualGasOutOfRange
    | GasZoneInfeasible          // Swc + Sor_g > 1
    | OilZoneInfeasible          // Swc + Sgr > 1
    | ResidualsInfeasible        // Sor_w + Sgr > 1
    | NonPositiveThickness
    | NonPositiveExponent
    | TransitionsOverlap

  datatype Warning = ResidualOilGasAboveWater | ThinOilColumn | ThinOilColumnBetweenTransitions

  /** What validation reports: the warnings issued before it stopped, and the error it raised. */
  datatype Validation = Validation(warnings: seq<Warning>, error: Option<SaturationError>)

  /** Some active cell has its end-point outside [0, 1]. */
  predicate SomeOutsideUnit(g: seq<real>, phi: seq<Num>) {
    exists t :: 0 <= t < |g| && t < |phi| && IsActive(phi[t]) && (g[t] < 0.0 || g[t] > 1.0)
  }

  /** Some active cell has `a + b > 1`. */
  predicate SomePairAboveOne(a: seq<real>, b: seq<real>, phi: seq<Num>) {
    exists t :: 0 <= t < |a| && t < |b| && t < |phi| && IsActive(phi[t]) && a[t] + b[t] > 1.0
  }

  /** Some active cell has `a > b`. */
  predicate SomeAbove(a: seq<real>, b: seq<real>, phi: seq<Num>) {
    exists t :: 0 <= t < |a| && t < |b| && t < |phi| && IsActive(phi[t]) && a[t] > b[t]
  }

  /** The end-point checks, in the order the source makes them; the first failing one wins. */
  function EndpointError(inp: Inputs): (e: Option<SaturationError>)
    ensures e.None? <==>
      !SomeOutsideUnit(inp.connateWater.cells, inp.porosity.cells)
      && !SomeOutsideUnit(inp.residualOilWater.cells, inp.porosity.cells)
      && !SomeOutsideUnit(inp.residualOilGas.cells, inp.porosity.cells)
      && !SomeOutsideUnit(inp.residualGas.cells, inp.porosity.cells)
      && !SomePairAboveOne(inp.connateWater.cells, inp.residualOilGas.cells, inp.porosity.cells)
      && !SomePairAboveOne(inp.connateWater.cells, inp.residualGas.cells, inp.porosity.cells)
      && !SomePairAboveOne(inp.residualOilWater.cells, inp.residualGas.cells, inp.porosity.cells)
    ensures var phi := inp.porosity.cells;
      var swc, sorw, sorg, sgr := inp.connateWater.cells, inp.residualOilWater.cells,
                                 inp.residualOilGas.cells, inp.residualGas.cells;
      (SomeOutsideUnit(swc, phi) ==> e == Some(ConnateWaterOutOfRange))
      && (!SomeOutsideUnit(swc, phi) && SomeOutsideUnit(sorw, phi) ==> e == Some(ResidualOilWaterOutOfRange))
      && (!SomeOutsideUnit(swc, phi) && !SomeOutsideUnit(sorw, phi) && SomeOutsideUnit(sorg, phi)
          ==> e == Some(ResidualOilGasOutOfRange))
      && (!SomeOutsideUnit(swc, phi) && !SomeOutsideUnit(sorw, phi) && !SomeOutsideUnit(sorg, phi)
          && SomeOutsideUnit(sgr, phi)
          ==> e == Some(ResidualGasOutOfRange))
    ensures var phi := inp.porosity.cells;
      var swc, sorw, sorg, sgr := inp.connateWater.cells, inp.residualOilWater.cells,
                                 inp.residualOilGas.cells, inp.residualGas.cells;
      var inUnit := !SomeOutsideUnit(swc, phi) && !SomeOutsideUnit(sorw, phi) && !SomeOutsideUnit(sorg, phi)
                    && !SomeOutsideUnit(sgr, phi);
      (inUnit && SomePairAboveOne(swc, sorg, phi) ==> e == Some(GasZoneInfeasible))
      && (inUnit && !SomePairAboveOne(swc, sorg, phi) && SomePairAboveOne(swc, sgr, phi)
          ==> e == Some(OilZoneInfeasible))
      && (inUnit && !SomePairAboveOne(swc, sorg, phi) && !SomePairAboveOne(swc, sgr, phi)
          && SomePairAboveOne(sorw, sgr, phi)
          ==> e == Some(ResidualsInfeasible))
  {
    var phi := inp.porosity.cells;
    if SomeOutsideUnit(inp.connateWater.cells, phi) then Some(ConnateWaterOutOfRange)
    else if SomeOutsideUnit(inp.residualOilWater.cells, phi) then Some(ResidualOilWaterOutOfRange)
    else if SomeOutsideUnit(inp.residualOilGas.cells, phi) then Some(ResidualOilGasOutOfRange)
    else if SomeOutsideUnit(inp.residualGas.cells, phi) then Some(ResidualGasOutOfRange)
    else if SomePairAboveOne(inp.connateWater.cells, inp.residualOilGas.cells, phi) then Some(GasZoneInfeasible)
    else if SomePairAboveOne(inp.connateWater.cells, inp.residualGas.cells, phi) then Some(OilZoneInfeasible)
    else if SomePairAboveOne(inp.residualOilWater.cells, inp.residualGas.cells, phi) then Some(ResidualsInfeasible)
    else None
  }

  /** The transition-parameter checks, made only when transitions are on. */
  function TransitionError(inp: Inputs): (e: Option<SaturationError>)
    ensures e.None? <==>
      inp.gasOilThickness > 0.0 && inp.oilWaterThickness > 0.0 && inp.curvatureExponent > 0.0
      && inp.gasOilContact + inp.gasOilThickness / 2.0 < inp.oilWaterContact - inp.oilWaterThickness / 2.0
  {
    if inp.gasOilThickness <= 0.0 || inp.oilWaterThickness <= 0.0 then Some(NonPositiveThickness)
    else if inp.curvatureExponent <= 0.0 then Some(NonPositiveExponent)
    else if inp.gasOilContact + inp.gasOilThickness / 2.0 >= inp.oilWaterContact - inp.oilWaterThickness / 2.0
    then Some(TransitionsOverlap)
    else None
  }

  /**
   * `_validate_inputs`. `minOilZoneThickness` is the library constant `MIN_OIL_ZONE_THICKNESS`.
   * The Sor_g > Sor_w and thin-column conditions only add warnings.
   */
  function Validate(inp: Inputs, minOilZoneThickness: real): (v: Validation)
    ensures inp.gasOilContact >= inp.oilWaterContact ==> v == Validation([], Some(ContactsOutOfOrder))
    ensures inp.gasOilContact < inp.oilWaterContact && !SameShapes(inp) ==> v == Validation([], Some(ShapeMismatch))
    ensures v.error.None? <==>
      inp.gasOilContact < inp.oilWaterContact && SameShapes(inp) && EndpointError(inp).None?
      && (inp.useTransitionZones ==> TransitionError(inp).None?)
    ensures inp.gasOilContact < inp.oilWaterContact && SameShapes(inp) && EndpointError(inp).None? ==>
      (ResidualOilGasAboveWater in v.warnings <==>
         SomeAbove(inp.residualOilGas.cells, inp.residualOilWater.cells, inp.porosity.cells))
      && (ThinOilColumn in v.warnings <==> inp.oilWaterContact - inp.gasOilContact < minOilZoneThickness)
    ensures inp.gasOilContact < inp.oilWaterContact && SameShapes(inp) && EndpointError(inp).Some? ==>
      v == Validation([], EndpointError(inp))
    ensures inp.gasOilContact < inp.oilWaterContact && SameShapes(inp) && EndpointError(inp).None? &&
            inp.useTransitionZones && TransitionError(inp).Some?
      ==> v.error == TransitionError(inp) && ThinOilColumnBetweenTransitions !in v.warnings
    ensures inp.gasOilContact < inp.oilWaterContact && SameShapes(inp) && EndpointError(inp).None? ==>
      (ThinOilColumnBetweenTransitions in v.warnings <==>
         inp.useTransitionZones && TransitionError(inp).None? &&
         (inp.oilWaterContact - inp.oilWaterThickness / 2.0) - (inp.gasOilContact + inp.gasOilThickness / 2.0) < 1.0)
  {
    if inp.gasOilContact >= inp.oilWaterContact then Validation([], Some(ContactsOutOfOrder))
    else if !SameShapes(inp) then Validation([], Some(ShapeMismatch))
    else if EndpointError(inp).Some? then Validation([], EndpointError(inp))
    else
      var w1 := if SomeAbove(inp.residualOilGas.cells, inp.residualOilWater.cells, inp.porosity.cells)
                then [ResidualOilGasAboveWater] else [];
      var w2 := if inp.oilWaterContact - inp.gasOilContact < minOilZoneThickness then [ThinOilColumn] else [];
      if !inp.useTransitionZones then Validation(w1 + w2, None)
      else if TransitionError(inp).Some? then Validation(w1 + w2, TransitionError(inp))
      else
        var between := (inp.oilWaterContact - inp.oilWaterThickness / 2.0)
                       - (inp.gasOilContact + inp.gasOilThickness / 2.0);
        var w3 := if between < 1.0 then [ThinOilColumnBetweenTransitions] else [];
        Validation(w1 + w2 + w3, None)
  }

  /** The warnings never decide whether validation fails. */
  lemma WarningsNeverAbort(inp: Inputs, m1: real, m2: real)
    ensures Validate(inp, m1).error == Validate(inp, m2).error
  {
  }

  // ---- end-points of one cell and the five zone triples ----

  datatype Endpoints = Endpoints(swc: real, sorw: real, sorg: real, sgr: real)

  /** A saturation triple `(Sw, So, Sg)`. */
  datatype Triple = Triple(sw: real, so: real, sg: real)

  const Zero := Triple(0.0, 0.0, 0.0)

  function Total(c: Triple): real {
    c.sw + c.so + c.sg
  }

  /** Gas cap: gas has displaced oil down to Sor_g. */
  function GasCap(e: Endpoints): Triple {
    Triple(e.swc, e.sorg, 1.0 - e.sorg - e.swc)
  }

  /** Oil zone: the original accumulation, with connate water and residual gas. */
  function OilZone(e: Endpoints): Triple {
    Triple(e.swc, 1.0 - e.swc - e.sgr, e.sgr)
  }

  /** Water zone: water has displaced oil down to Sor_w. */
  function WaterZone(e: Endpoints): Triple {
    Triple(1.0 - e.sorw, e.sorw, 0.0)
  }

  /** Gas-oil band with blend weight `w`. */
  function GasOilBlend(e: Endpoints, w: real): Triple {
    Triple(e.swc, e.sorg * (1.0 - w) + (1.0 - e.swc - e.sgr) * w, (1.0 - e.sorg - e.swc) * (1.0 - w) + e.sgr * w)
  }

  /** Oil-water band with blend weight `w`. */
  function OilWaterBlend(e: Endpoints, w: real): Triple {
    Triple(e.swc * (1.0 - w) + (1.0 - e.sorw) * w, (1.0 - e.swc - e.sgr) * (1.0 - w) + e.sorw * w, e.sgr * (1.0 - w))
  }

  /** Every zone formula, blends included for any weight, sums to exactly 1. */
  lemma ZoneTriplesSumToOne(e: Endpoints, w: real)
    ensures Total(GasCap(e)) == 1.0 && Total(OilZone(e)) == 1.0 && Total(WaterZone(e)) == 1.0
    ensures Total(GasOilBlend(e, w)) == 1.0 && Total(OilWaterBlend(e, w)) == 1.0
  {
  }

  /** Water stays at Swc across the gas-oil band; gas fades as Sgr·(1−w) across the oil-water band. */
  lemma BandShapes(e: Endpoints, w: real)
    ensures GasOilBlend(e, w).sw == e.swc
    ensures OilWaterBlend(e, w).sg == e.sgr * (1.0 - w)
  {
  }

  /** Each blend starts at the zone above it and ends at the zone below it. */
  lemma BlendEndsMatchZones(e: Endpoints)
    ensures GasOilBlend(e, 0.0) == GasCap(e) && GasOilBlend(e, 1.0) == OilZone(e)
    ensures OilWaterBlend(e, 0.0) == OilZone(e) && OilWaterBlend(e, 1.0) == WaterZone(e)
  {
  }

  /** The end-point constraints validation enforces on an active cell. */
  predicate Admissible(e: Endpoints) {
    0.0 <= e.swc <= 1.0 && 0.0 <= e.sorw <= 1.0 && 0.0 <= e.sorg <= 1.0 && 0.0 <= e.sgr <= 1.0
    && e.swc + e.sorg <= 1.0 && e.swc + e.sgr <= 1.0 && e.sorw + e.sgr <= 1.0
  }

  predicate InUnit(c: Triple) {
    0.0 <= c.sw <= 1.0 && 0.0 <= c.so <= 1.0 && 0.0 <= c.sg <= 1.0
  }

  lemma ConvexInUnit(x: real, y: real, w: real)
    requires 0.0 <= x <= 1.0 && 0.0 <= y <= 1.0 && 0.0 <= w <= 1.0
    ensures 0.0 <= x * (1.0 - w) + y * w <= 1.0
  {
    assert 0.0 <= x * (1.0 - w) <= 1.0 - w;
    assert 0.0 <= y * w <= w;
  }

  /** Given the validated constraints and a weight in [0, 1], every component is a saturation. */
  lemma ZoneTriplesInUnit(e: Endpoints, w: real)
    requires Admissible(e) && 0.0 <= w <= 1.0
    ensures InUnit(GasCap(e)) && InUnit(OilZone(e)) && InUnit(WaterZone(e))
    ensures InUnit(GasOilBlend(e, w)) && InUnit(OilWaterBlend(e, w))
  {
    ConvexInUnit(e.sorg, 1.0 - e.swc - e.sgr, w);
    ConvexInUnit(1.0 - e.sorg - e.swc, e.sgr, w);
    ConvexInUnit(e.swc, 1.0 - e.sorw, w);
    ConvexInUnit(1.0 - e.swc - e.sgr, e.sorw, w);
    ConvexInUnit(e.sgr, 0.0, w);
  }

  // ---- sharp contacts ----

  predicate InSharpGasZone(d: real, goc: real, active: bool) { d < goc && active }
  predicate InSharpOilZone(d: real, goc: real, owc: real, active: bool) { goc <= d < owc && active }
  predicate InSharpWaterZone(d: real, owc: real, active: bool) { d >= owc && active }

  /**
   * What `_build_sharp_contacts` leaves in a cell that held `prev`: the zones are written gas,
   * oil, water, so a later zone's formula would win; `prev` survives outside all three.
   */
  function SharpCell(d: real, goc: real, owc: real, active: bool, e: Endpoints, prev: Triple): Triple {
    if InSharpWaterZone(d, owc, active) then WaterZone(e)
    else if InSharpOilZone(d, goc, owc, active) then OilZone(e)
    else if InSharpGasZone(d, goc, active) then GasCap(e)
    else prev
  }

  /**
   * With GOC above OWC the three zones are disjoint and cover exactly the active cells;
   * a cell at GOC is oil zone and a cell at OWC is water zone.
   */
  lemma SharpZonesPartition(d: real, goc: real, owc: real, active: bool)
    requires goc < owc
    ensures (InSharpGasZone(d, goc, active) || InSharpOilZone(d, goc, owc, active) || InSharpWaterZone(d, owc, active)) <==> active
    ensures !(InSharpGasZone(d, goc, active) && InSharpOilZone(d, goc, owc, active))
    ensures !(InSharpGasZone(d, goc, active) && InSharpWaterZone(d, owc, active))
    ensures !(InSharpOilZone(d, goc, owc, active) && InSharpWaterZone(d, owc, active))
    ensures active && d == goc ==> InSharpOilZone(d, goc, owc, active)
    ensures active && d == owc ==> InSharpWaterZone(d, owc, active)
  {
  }

  // ---- transition zones ----

  /** The band edges: each transition is centred on its contact. */
  datatype Bands = Bands(gasOilTop: real, gasOilBottom: real, oilWaterTop: real, oilWaterBottom: real)

  function TransitionBands(goc: real, owc: real, hgo: real, how: real): Bands {
    Bands(goc - hgo / 2.0, goc + hgo / 2.0, owc - how / 2.0, owc + how / 2.0)
  }

  predicate InGasCap(d: real, b: Bands, active: bool) { d < b.gasOilTop && active }
  predicate InGasOilBand(d: real, b: Bands, active: bool) { b.gasOilTop <= d <= b.gasOilBottom && active }
  predicate InOilZone(d: real, b: Bands, active: bool) { b.gasOilBottom < d < b.oilWaterTop && active }
  predicate InOilWaterBand(d: real, b: Bands, active: bool) { b.oilWaterTop <= d <= b.oilWaterBottom && active }
  predicate InWaterZone(d: real, b: Bands, active: bool) { d > b.oilWaterBottom && active }

  /** `clip((d - top) / h, 0, 1) ** n`, with `weight` standing for `x => x ** n`. */
  function BandWeight(d: real, top: real, h: real, weight: real -> real): real
    requires h > 0.0
  {
    weight(Utils.Clip((d - top) / h, 0.0, 1.0))
  }

  /**
   * What `_build_transition_zones` leaves in a cell that held `prev`: zones are written gas cap,
   * gas-oil band, oil zone, oil-water band, water zone, so a later zone's formula would win.
   */
  function TransitionCell(d: real, active: bool, e: Endpoints, hgo: real, how: real, b: Bands,
                          weight: real -> real, prev: Triple): Triple
    requires hgo > 0.0 && how > 0.0
  {
    if InWaterZone(d, b, active) then WaterZone(e)
    else if InOilWaterBand(d, b, active) then OilWaterBlend(e, BandWeight(d, b.oilWaterTop, how, weight))
    else if InOilZone(d, b, active) then OilZone(e)
    else if InGasOilBand(d, b, active) then GasOilBlend(e, BandWeight(d, b.gasOilTop, hgo, weight))
    else if InGasCap(d, b, active) then GasCap(e)
    else prev
  }

  /**
   * With positive thicknesses and non-overlapping bands the edges are strictly ordered, and the
   * five zones are disjoint and cover exactly the active cells.
   */
  lemma TransitionZonesPartition(d: real, active: bool, goc: real, owc: real, hgo: real, how: real)
    requires hgo > 0.0 && how > 0.0 && goc + hgo / 2.0 < owc - how / 2.0
    ensures var b := TransitionBands(goc, owc, hgo, how);
      b.gasOilTop < b.gasOilBottom < b.oilWaterTop < b.oilWaterBottom
      && ((InGasCap(d, b, active) || InGasOilBand(d, b, active) || InOilZone(d, b, active)
           || InOilWaterBand(d, b, active) || InWaterZone(d, b, active)) <==> active)
      && !(InGasCap(d, b, active) && (InGasOilBand(d, b, active) || InOilZone(d, b, active) || InOilWaterBand(d, b, active) || InWaterZone(d, b, active)))
      && !(InGasOilBand(d, b, active) && (InOilZone(d, b, active) || InOilWaterBand(d, b, active) || InWaterZone(d, b, active)))
      && !(InOilZone(d, b, active) && (InOilWaterBand(d, b, active) || InWaterZone(d, b, active)))
      && !(InOilWaterBand(d, b, active) && InWaterZone(d, b, active))
  {
  }

  /** The properties of `x => x ** n` on [0, 1] for `n > 0` that the lemmas below use. */
  ghost predicate PowerLike(weight: real -> real) {
    weight(0.0) == 0.0 && weight(1.0) == 1.0
    && forall x :: 0.0 <= x <= 1.0 ==> 0.0 <= weight(x) <= 1.0
  }

  /**
   * No jump at a band edge: at the top of each band the cell equals the zone above, at the bottom
   * the zone below, exactly as if the neighbouring zone's formula had been used.
   */
  lemma TransitionContinuousAtEdges(e: Endpoints, goc: real, owc: real, hgo: real, how: real, weight: real -> real, prev: Triple)
    requires hgo > 0.0 && how > 0.0 && goc + hgo / 2.0 < owc - how / 2.0
    requires weight(0.0) == 0.0 && weight(1.0) == 1.0
    ensures var b := TransitionBands(goc, owc, hgo, how);
      TransitionCell(b.gasOilTop, true, e, hgo, how, b, weight, prev) == GasCap(e)
      && TransitionCell(b.gasOilBottom, true, e, hgo, how, b, weight, prev) == OilZone(e)
      && TransitionCell(b.oilWaterTop, true, e, hgo, how, b, weight, prev) == OilZone(e)
      && TransitionCell(b.oilWaterBottom, true, e, hgo, how, b, weight, prev) == WaterZone(e)
  {
    var b := TransitionBands(goc, owc, hgo, how);
    assert (b.gasOilBottom - b.gasOilTop) / hgo == 1.0;
    assert (b.oilWaterBottom - b.oilWaterTop) / how == 1.0;
    BlendEndsMatchZones(e);
  }

  lemma BandWeightInUnit(d: real, top: real, h: real, weight: real -> real)
    requires h > 0.0 && PowerLike(weight)
    ensures 0.0 <= BandWeight(d, top, h, weight) <= 1.0
  {
    var x := Utils.Clip((d - top) / h, 0.0, 1.0);
    assert 0.0 <= x <= 1.0;
  }

  // ---- normalisation ----

  /**
   * `_normalize_saturations` on one cell: an active cell with a positive total is divided by it,
   * an inactive cell is zeroed, and an active cell whose total is not positive is left as it is.
   */
  function Normalized(c: Triple, active: bool): Triple {
    if !active then Zero
    else if Total(c) > 0.0 then Triple(c.sw / Total(c), c.so / Total(c), c.sg / Total(c))
    else c
  }

  lemma NormalizedSumsToOne(c: Triple)
    requires Total(c) > 0.0
    ensures Total(Normalized(c, true)) == 1.0
  {
    var t := Total(c);
    var n := Normalized(c, true);
    assert n == Triple(c.sw / t, c.so / t, c.sg / t);
    assert c.sw / t + c.so / t + c.sg / t == (c.sw + c.so + c.sg) / t;
    assert (c.sw + c.so + c.sg) / t == t / t == 1.0;
  }

  /** A triple that already sums to 1 is a fixed point. */
  lemma NormalizedFixesUnitTotal(c: Triple)
    requires Total(c) == 1.0
    ensures Normalized(c, true) == c
  {
  }

  // ---- the whole call, cell by cell ----

  function EndpointsAt(inp: Inputs, t: nat): Endpoints
    requires t < |inp.connateWater.cells| && t < |inp.residualOilWater.cells|
    requires t < |inp.residualOilGas.cells| && t < |inp.residualGas.cells|
  {
    Endpoints(inp.connateWater.cells[t], inp.residualOilWater.cells[t], inp.residualOilGas.cells[t], inp.residualGas.cells[t])
  }

  /** Inputs that passed validation; the well-formed arrays then all have the same length. */
  predicate Validated(inp: Inputs, minOilZoneThickness: real) {
    WellFormed(inp) && Validate(inp, minOilZoneThickness).error.None?
  }

  lemma ValidatedLengths(inp: Inputs, m: real)
    requires Validated(inp, m)
    ensures var n := |inp.depth.cells|;
      |inp.connateWater.cells| == n && |inp.residualOilWater.cells| == n && |inp.residualOilGas.cells| == n
      && |inp.residualGas.cells| == n && |inp.porosity.cells| == n
  {
  }

  /** The cell `t` of the zone builder the mode selects, applied to the zero-initialised grids. */
  function ZonedCell(inp: Inputs, m: real, weight: real -> real, t: nat): Triple
    requires Validated(inp, m) && t < |inp.depth.cells|
  {
    ValidatedLengths(inp, m);
    var d := inp.depth.cells[t];
    var active := IsActive(inp.porosity.cells[t]);
    var e := EndpointsAt(inp, t);
    if inp.useTransitionZones then
      var b := TransitionBands(inp.gasOilContact, inp.oilWaterContact, inp.gasOilThickness, inp.oilWaterThickness);
      TransitionCell(d, active, e, inp.gasOilThickness, inp.oilWaterThickness, b, weight, Zero)
    else
      SharpCell(d, inp.gasOilContact, inp.oilWaterContact, active, e, Zero)
  }

  /**
   * On validated inputs the zone builders already give every active cell a total of exactly 1
   * and every inactive cell zeros, so normalisation leaves the zoned grids as they are.
   */
  lemma ZonedCellIsNormal(inp: Inputs, m: real, weight: real -> real, t: nat)
    requires Validated(inp, m) && t < |inp.depth.cells|
    ensures var c := ZonedCell(inp, m, weight, t);
      (IsActive(inp.porosity.cells[t]) ==> Total(c) == 1.0)
      && (!IsActive(inp.porosity.cells[t]) ==> c == Zero)
      && Normalized(c, IsActive(inp.porosity.cells[t])) == c
  {
    ValidatedLengths(inp, m);
    var d := inp.depth.cells[t];
    var active := IsActive(inp.porosity.cells[t]);
    var e := EndpointsAt(inp, t);
    var c := ZonedCell(inp, m, weight, t);
    if inp.useTransitionZones {
      var b := TransitionBands(inp.gasOilContact, inp.oilWaterContact, inp.gasOilThickness, inp.oilWaterThickness);
      TransitionZonesPartition(d, active, inp.gasOilContact, inp.oilWaterContact, inp.gasOilThickness, inp.oilWaterThickness);
      ZoneTriplesSumToOne(e, BandWeight(d, b.oilWaterTop, inp.oilWaterThickness, weight));
      ZoneTriplesSumToOne(e, BandWeight(d, b.gasOilTop, inp.gasOilThickness, weight));
    } else {
      SharpZonesPartition(d, inp.gasOilContact, inp.oilWaterContact, active);
      ZoneTriplesSumToOne(e, 0.0);
    }
    if active {
      NormalizedFixesUnitTotal(c);
    }
  }

  /** On validated inputs and a power-like weight, every zoned cell holds saturations in [0, 1]. */
  lemma ZonedCellInUnit(inp: Inputs, m: real, weight: real -> real, t: nat)
    requires Validated(inp, m) && t < |inp.depth.cells| && PowerLike(weight)
    ensures InUnit(ZonedCell(inp, m, weight, t))
  {
    ValidatedLengths(inp, m);
    var d := inp.depth.cells[t];
    var active := IsActive(inp.porosity.cells[t]);
    var e := EndpointsAt(inp, t);
    if active {
      var phi := inp.porosity.cells;
      assert !SomeOutsideUnit(inp.connateWater.cells, phi) && !SomeOutsideUnit(inp.residualOilWater.cells, phi);
      assert !SomeOutsideUnit(inp.residualOilGas.cells, phi) && !SomeOutsideUnit(inp.residualGas.cells, phi);
      assert !SomePairAboveOne(inp.connateWater.cells, inp.residualOilGas.cells, phi);
      assert !SomePairAboveOne(inp.connateWater.cells, inp.residualGas.cells, phi);
      assert !SomePairAboveOne(inp.residualOilWater.cells, inp.residualGas.cells, phi);
      assert Admissible(e);
      if inp.useTransitionZones {
        var b := TransitionBands(inp.gasOilContact, inp.oilWaterContact, inp.gasOilThickness, inp.oilWaterThickness);
        var wow := BandWeight(d, b.oilWaterTop, inp.oilWaterThickness, weight);
        var wgo := BandWeight(d, b.gasOilTop, inp.gasOilThickness, weight);
        BandWeightInUnit(d, b.oilWaterTop, inp.oilWaterThickness, weight);
        BandWeightInUnit(d, b.gasOilTop, inp.gasOilThickness, weight);
        ZoneTriplesInUnit(e, wow);
        ZoneTriplesInUnit(e, wgo);
      } else {
        ZoneTriplesInUnit(e, 0.0);
      }
    }
  }
}
