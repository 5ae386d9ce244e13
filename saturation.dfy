/**
 * The imperative part of `bores.grids.saturation`: three zero-filled arrays are overwritten zone
 * by zone with masked assignments, then normalised in place. Each method is proved against the
 * per-cell functions of `SaturationModel`.
 */
module Saturation {
  import opened Numeric
  import opened Wrappers
  import opened SaturationModel
  import Utils

  /** The cell `t` of the three saturation arrays, as a triple. */
  ghost function CellAt(sw: array<real>, so: array<real>, sg: array<real>, t: int): Triple
    reads sw, so, sg
    requires 0 <= t < sw.Length && t < so.Length && t < sg.Length
  {
    Triple(sw[t], so[t], sg[t])
  }

  /**
   * One zone's three masked assignments, `Sw[zone] = …; So[zone] = …; Sg[zone] = …`. The source
   * writes the phases in a zone-specific order; the arrays are distinct, so the order is immaterial.
   */
  method AssignZone(sw: array<real>, so: array<real>, sg: array<real>, shape: seq<nat>,
                    zone: seq<bool>, values: seq<Triple>)
    requires sw.Length == Prod(shape) && so.Length == sw.Length && sg.Length == sw.Length
    requires sw != so && so != sg && sw != sg
    requires |zone| == sw.Length && |values| == sw.Length
    modifies sw, so, sg
    ensures forall t :: 0 <= t < sw.Length ==>
      CellAt(sw, so, sg, t) == if zone[t] then values[t] else old(CellAt(sw, so, sg, t))
  {
    var n := sw.Length;
    Utils.ApplyMask(sw, shape, zone, seq(n, t requires 0 <= t < n => values[t].sw));
    Utils.ApplyMask(so, shape, zone, seq(n, t requires 0 <= t < n => values[t].so));
    Utils.ApplyMask(sg, shape, zone, seq(n, t requires 0 <= t < n => values[t].sg));
  }

  /** The inputs the zone builders read line up cell for cell with the output arrays. */
  predicate Aligned(inp: Inputs, active: seq<bool>, sw: array<real>, so: array<real>, sg: array<real>)
    reads sw, so, sg
  {
    WellFormed(inp) && SameShapes(inp)
    && sw.Length == |inp.depth.cells| && so.Length == sw.Length && sg.Length == sw.Length
    && |active| == sw.Length
    && sw != so && so != sg && sw != sg
  }

  lemma AlignedLengths(inp: Inputs, active: seq<bool>, sw: array<real>, so: array<real>, sg: array<real>)
    requires Aligned(inp, active, sw, so, sg)
    ensures var n := sw.Length;
      n == Prod(inp.depth.shape)
      && |inp.connateWater.cells| == n && |inp.residualOilWater.cells| == n
      && |inp.residualOilGas.cells| == n && |inp.residualGas.cells| == n
  {
  }

  /** `_build_sharp_contacts`: every cell ends as `SharpCell` of what it held. */
  method BuildSharpContacts(inp: Inputs, active: seq<bool>, sw: array<real>, so: array<real>, sg: array<real>)
    requires Aligned(inp, active, sw, so, sg)
    modifies sw, so, sg
    ensures forall t :: 0 <= t < sw.Length ==>
      CellAt(sw, so, sg, t) == SharpCell(inp.depth.cells[t], inp.gasOilContact, inp.oilWaterContact,
                                         active[t], EndpointsAt(inp, t), old(CellAt(sw, so, sg, t)))
  {
    AlignedLengths(inp, active, sw, so, sg);
    var n := sw.Length;
    var d := inp.depth.cells;
    var goc, owc := inp.gasOilContact, inp.oilWaterContact;
    var gasZone := seq(n, t requires 0 <= t < n => InSharpGasZone(d[t], goc, active[t]));
    var oilZone := seq(n, t requires 0 <= t < n => InSharpOilZone(d[t], goc, owc, active[t]));
    var waterZone := seq(n, t requires 0 <= t < n => InSharpWaterZone(d[t], owc, active[t]));
    AssignZone(sw, so, sg, inp.depth.shape, gasZone, seq(n, t requires 0 <= t < n => GasCap(EndpointsAt(inp, t))));
    AssignZone(sw, so, sg, inp.depth.shape, oilZone, seq(n, t requires 0 <= t < n => OilZone(EndpointsAt(inp, t))));
    AssignZone(sw, so, sg, inp.depth.shape, waterZone, seq(n, t requires 0 <= t < n => WaterZone(EndpointsAt(inp, t))));
  }

  /**
   * `_build_transition_zones`: every cell ends as `TransitionCell` of what it held. The source
   * skips a band's assignments when its mask is empty, which is the same as assigning nowhere.
   */
  method BuildTransitionZones(inp: Inputs, weight: real -> real, active: seq<bool>,
                              sw: array<real>, so: array<real>, sg: array<real>)
    requires Aligned(inp, active, sw, so, sg)
    requires inp.gasOilThickness > 0.0 && inp.oilWaterThickness > 0.0
    modifies sw, so, sg
    ensures forall t :: 0 <= t < sw.Length ==>
      CellAt(sw, so, sg, t) == TransitionCell(inp.depth.cells[t], active[t], EndpointsAt(inp, t),
                                 inp.gasOilThickness, inp.oilWaterThickness,
                                 TransitionBands(inp.gasOilContact, inp.oilWaterContact, inp.gasOilThickness, inp.oilWaterThickness),
                                 weight, old(CellAt(sw, so, sg, t)))
  {
    AlignedLengths(inp, active, sw, so, sg);
    var n := sw.Length;
    var d := inp.depth.cells;
    var hgo, how := inp.gasOilThickness, inp.oilWaterThickness;
    var b := TransitionBands(inp.gasOilContact, inp.oilWaterContact, hgo, how);
    var shape := inp.depth.shape;

    var gasCap := seq(n, t requires 0 <= t < n => InGasCap(d[t], b, active[t]));
    AssignZone(sw, so, sg, shape, gasCap, seq(n, t requires 0 <= t < n => GasCap(EndpointsAt(inp, t))));

    var gasOilZone := seq(n, t requires 0 <= t < n => InGasOilBand(d[t], b, active[t]));
    AssignZone(sw, so, sg, shape, gasOilZone,
      seq(n, t requires 0 <= t < n => GasOilBlend(EndpointsAt(inp, t), BandWeight(d[t], b.gasOilTop, hgo, weight))));

    var oilZone := seq(n, t requires 0 <= t < n => InOilZone(d[t], b, active[t]));
    AssignZone(sw, so, sg, shape, oilZone, seq(n, t requires 0 <= t < n => OilZone(EndpointsAt(inp, t))));

    var oilWaterZone := seq(n, t requires 0 <= t < n => InOilWaterBand(d[t], b, active[t]));
    AssignZone(sw, so, sg, shape, oilWaterZone,
      seq(n, t requires 0 <= t < n => OilWaterBlend(EndpointsAt(inp, t), BandWeight(d[t], b.oilWaterTop, how, weight))));

    var waterZone := seq(n, t requires 0 <= t < n => InWaterZone(d[t], b, active[t]));
    AssignZone(sw, so, sg, shape, waterZone, seq(n, t requires 0 <= t < n => WaterZone(EndpointsAt(inp, t))));
  }

  /**
   * `_normalize_saturations`: the total is taken first; active cells with a positive total are
   * divided by it, then every inactive cell is zeroed.
   */
  method NormalizeSaturations(sw: array<real>, so: array<real>, sg: array<real>, shape: seq<nat>, active: seq<bool>)
    requires sw.Length == Prod(shape) && so.Length == sw.Length && sg.Length == sw.Length
    requires sw != so && so != sg && sw != sg
    requires |active| == sw.Length
    modifies sw, so, sg
    ensures forall t :: 0 <= t < sw.Length ==>
      CellAt(sw, so, sg, t) == Normalized(old(CellAt(sw, so, sg, t)), active[t])
  {
    var n := sw.Length;
    var w, o, g := sw[..], so[..], sg[..];
    var total := seq(n, t requires 0 <= t < n => w[t] + o[t] + g[t]);
    var valid := seq(n, t requires 0 <= t < n => active[t] && total[t] > 0.0);
    Utils.ApplyMask(sw, shape, valid, seq(n, t requires 0 <= t < n => if valid[t] then w[t] / total[t] else w[t]));
    Utils.ApplyMask(so, shape, valid, seq(n, t requires 0 <= t < n => if valid[t] then o[t] / total[t] else o[t]));
    Utils.ApplyMask(sg, shape, valid, seq(n, t requires 0 <= t < n => if valid[t] then g[t] / total[t] else g[t]));
    var inactive := seq(n, t requires 0 <= t < n => !active[t]);
    Utils.ApplyMask(sw, shape, inactive, Repeat(0.0, n));
    Utils.ApplyMask(so, shape, inactive, Repeat(0.0, n));
    Utils.ApplyMask(sg, shape, inactive, Repeat(0.0, n));
  }

  datatype Saturations = Saturations(water: array<real>, oil: array<real>, gas: array<real>)

  /**
   * `build_saturation_grids`: validation (its warnings are returned), zero-filled grids, the zone
   * builder the mode selects, normalisation. On success every active cell sums to exactly 1 and
   * every inactive cell is 0; with a power-like weight every value is a saturation in [0, 1].
   */
  method BuildSaturationGrids(inp: Inputs, minOilZoneThickness: real, weight: real -> real)
    returns (res: Result<Saturations, SaturationError>, warnings: seq<Warning>)
    requires WellFormed(inp)
    ensures warnings == Validate(inp, minOilZoneThickness).warnings
    ensures res.Err? <==> Validate(inp, minOilZoneThickness).error.Some?
    ensures res.Err? ==> Validate(inp, minOilZoneThickness).error == Some(res.error)
    ensures res.Ok? ==>
      var s := res.value;
      fresh(s.water) && fresh(s.oil) && fresh(s.gas)
      && s.water != s.oil && s.oil != s.gas && s.water != s.gas
      && s.water.Length == |inp.depth.cells| && s.oil.Length == s.water.Length && s.gas.Length == s.water.Length
      && Validated(inp, minOilZoneThickness)
      && forall t :: 0 <= t < s.water.Length ==>
           CellAt(s.water, s.oil, s.gas, t) == ZonedCell(inp, minOilZoneThickness, weight, t)
           && (IsActive(inp.porosity.cells[t]) ==> Total(CellAt(s.water, s.oil, s.gas, t)) == 1.0)
           && (!IsActive(inp.porosity.cells[t]) ==> CellAt(s.water, s.oil, s.gas, t) == Zero)
           && (PowerLike(weight) ==> InUnit(CellAt(s.water, s.oil, s.gas, t)))
  {
    var v := Validate(inp, minOilZoneThickness);
    warnings := v.warnings;
    if v.error.Some? {
      res := Err(v.error.value);
      return;
    }
    ValidatedLengths(inp, minOilZoneThickness);
    var n := |inp.depth.cells|;
    var active := ActiveMask(inp.porosity.cells);
    var sw := new real[n](_ => 0.0);
    var so := new real[n](_ => 0.0);
    var sg := new real[n](_ => 0.0);
    if !inp.useTransitionZones {
      BuildSharpContacts(inp, active, sw, so, sg);
    } else {
      BuildTransitionZones(inp, weight, active, sw, so, sg);
    }
    ghost var zw, zo, zg := sw[..], so[..], sg[..];
    assert forall t :: 0 <= t < n ==> Triple(zw[t], zo[t], zg[t]) == ZonedCell(inp, minOilZoneThickness, weight, t);
    NormalizeSaturations(sw, so, sg, inp.depth.shape, active);
    forall t | 0 <= t < n
      ensures CellAt(sw, so, sg, t) == ZonedCell(inp, minOilZoneThickness, weight, t)
      ensures IsActive(inp.porosity.cells[t]) ==> Total(CellAt(sw, so, sg, t)) == 1.0
      ensures !IsActive(inp.porosity.cells[t]) ==> CellAt(sw, so, sg, t) == Zero
      ensures PowerLike(weight) ==> InUnit(CellAt(sw, so, sg, t))
    {
      ZonedCellIsNormal(inp, minOilZoneThickness, weight, t);
      if PowerLike(weight) {
        ZonedCellInUnit(inp, minOilZoneThickness, weight, t);
      }
    }
    res := Ok(Saturations(sw, so, sg));
  }
}
