/**
 * `RateGrids` and `_RateGridsProxy` of `bores.grids.base`: the oil, water and gas flow-rate
 * grids of a simulation step, their per-cell lookup, their total, and the proxy through which
 * one cell of all three grids is assigned.
 *
 * A grid is a flat `array<real>` of its cells in C order and a key is the position of a cell
 * in it.
 */
module RateGridModel {
  import opened Wrappers

  /** numpy's `IndexError` for a key past the end of a grid. */
  datatype IndexError = IndexOutOfRange(key: nat)

  /** A phase's rate at `key`: the cell of its grid, or 0.0 when the phase has no grid. */
  function PhaseRate(g: Option<array<real>>, key: nat): real
    requires g.Some? ==> key < g.value.Length
    reads if g.Some? then {g.value} else {}
  {
    if g.Some? then g.value[key] else 0.0
  }

  predicate HasCell(g: Option<array<real>>, key: nat) {
    g.None? || key < g.value.Length
  }

  /** A frozen triple of optional phase grids. */
  class RateGrids {
    const oil: Option<array<real>>
    const water: Option<array<real>>
    const gas: Option<array<real>>

    constructor (oil: Option<array<real>>, water: Option<array<real>>, gas: Option<array<real>>)
      ensures this.oil == oil && this.water == water && this.gas == gas
    {
      this.oil, this.water, this.gas := oil, water, gas;
    }

    /** The grids that are defined. */
    function Grids(): set<array<real>> {
      (if oil.Some? then {oil.value} else {}) +
      (if water.Some? then {water.value} else {}) +
      (if gas.Some? then {gas.value} else {})
    }

    /** Every defined grid has `n` cells, as the total requires. */
    predicate SameSize(n: nat) {
      (oil.Some? ==> oil.value.Length == n) &&
      (water.Some? ==> water.value.Length == n) &&
      (gas.Some? ==> gas.value.Length == n)
    }

    /**
     * `rate_grids[key]`: the `(oil, water, gas)` rates of one cell, 0.0 for a phase without a
     * grid; an index error as soon as a defined grid has no such cell.
     */
    function GetItem(key: nat): (r: Result<(real, real, real), IndexError>)
      reads Grids()
      ensures r.Err? <==> !(HasCell(oil, key) && HasCell(water, key) && HasCell(gas, key))
      ensures r.Err? ==> r.error == IndexOutOfRange(key)
      ensures r.Ok? ==> (oil.None? ==> r.value.0 == 0.0) && (water.None? ==> r.value.1 == 0.0) &&
                        (gas.None? ==> r.value.2 == 0.0)
      ensures r.Ok? && oil.Some? ==> r.value.0 == oil.value[key]
      ensures r.Ok? && water.Some? ==> r.value.1 == water.value[key]
      ensures r.Ok? && gas.Some? ==> r.value.2 == gas.value[key]
    {
      if !HasCell(oil, key) || !HasCell(water, key) || !HasCell(gas, key) then Err(IndexOutOfRange(key))
      else Ok((PhaseRate(oil, key), PhaseRate(water, key), PhaseRate(gas, key)))
    }

    /**
     * `rate_grids.total`: `None` when no phase has a grid, otherwise a new grid whose every
     * cell is the sum of the three rates `GetItem` reports for it. The phase grids are not
     * changed.
     */
    method Total(ghost n: nat) returns (t: Option<array<real>>)
      requires SameSize(n)
      ensures t.None? <==> oil.None? && water.None? && gas.None?
      ensures t.Some? ==> (fresh(t.value) && t.value.Length == n &&
        forall key :: 0 <= key < n ==>
          GetItem(key).Ok? && t.value[key] == GetItem(key).value.0 + GetItem(key).value.1 + GetItem(key).value.2)
    {
      var total: Option<array<real>> := None;
      if oil.Some? {
        var c := CopyOf(oil.value);
        total := Some(c);
      }
      if water.Some? {
        if total.None? {
          var c := CopyOf(water.value);
          total := Some(c);
        } else {
          AddInto(total.value, water.value);
        }
      }
      if gas.Some? {
        if total.None? {
          var c := CopyOf(gas.value);
          total := Some(c);
        } else {
          AddInto(total.value, gas.value);
        }
      }
      t := total;
    }
  }

  /** `grid.copy()`. */
  method CopyOf(src: array<real>) returns (c: array<real>)
    ensures fresh(c) && c.Length == src.Length && c[..] == src[..]
  {
    c := new real[src.Length](i reads src => if 0 <= i < src.Length then src[i] else 0.0);
  }

  /** `dst += src`, cell by cell. */
  method AddInto(dst: array<real>, src: array<real>)
    requires dst != src && dst.Length == src.Length
    modifies dst
    ensures forall i :: 0 <= i < dst.Length ==> dst[i] == old(dst[i]) + src[i]
  {
    for i := 0 to dst.Length
      invariant forall k :: 0 <= k < dst.Length ==> dst[k] == if k < i then old(dst[k]) + src[k] else old(dst[k])
    {
      dst[i] := dst[i] + src[i];
    }
  }

  /** `_RateGridsProxy`: write access to one cell of three distinct phase grids. */
  class RateGridsProxy {
    const oil: array<real>
    const water: array<real>
    const gas: array<real>

    constructor (oil: array<real>, water: array<real>, gas: array<real>)
      ensures this.oil == oil && this.water == water && this.gas == gas
    {
      this.oil, this.water, this.gas := oil, water, gas;
    }

    predicate Distinct() {
      oil != water && water != gas && oil != gas
    }

    /**
     * `proxy[key] = (oil, water, gas)`: the three grids are written in that order, so a key
     * past the end of one grid raises after the grids before it were written. Every other
     * cell keeps its value.
     */
    method SetItem(key: nat, value: (real, real, real)) returns (r: Result<(), IndexError>)
      requires Distinct()
      modifies oil, water, gas
      ensures r.Err? <==> !(key < oil.Length && key < water.Length && key < gas.Length)
      ensures r.Err? ==> r.error == IndexOutOfRange(key)
      ensures oil[..] == if key < oil.Length then old(oil[..])[key := value.0] else old(oil[..])
      ensures water[..] ==
        if key < oil.Length && key < water.Length then old(water[..])[key := value.1] else old(water[..])
      ensures gas[..] ==
        if key < oil.Length && key < water.Length && key < gas.Length then old(gas[..])[key := value.2]
        else old(gas[..])
    {
      if key >= oil.Length {
        return Err(IndexOutOfRange(key));
      }
      oil[key] := value.0;
      if key >= water.Length {
        return Err(IndexOutOfRange(key));
      }
      water[key] := value.1;
      if key >= gas.Length {
        return Err(IndexOutOfRange(key));
      }
      gas[key] := value.2;
      r := Ok(());
    }
  }

  /**
   * A cell written through the proxy reads back through `RateGrids` over the same grids, and
   * every other cell reads as before.
   */
  method ProxyWritesReadBack(p: RateGridsProxy, key: nat, other: nat, value: (real, real, real))
    returns (before: Result<(real, real, real), IndexError>, after: Result<(real, real, real), IndexError>,
             afterKey: Result<(real, real, real), IndexError>)
    requires p.Distinct() && key < p.oil.Length && key < p.water.Length && key < p.gas.Length && other != key
    modifies p.oil, p.water, p.gas
    ensures afterKey == Ok(value)
    ensures after == before
  {
    var g := new RateGrids(Some(p.oil), Some(p.water), Some(p.gas));
    before := g.GetItem(other);
    var r := p.SetItem(key, value);
    assert p.oil[key] == value.0 && p.water[key] == value.1 && p.gas[key] == value.2;
    if other < p.oil.Length { assert p.oil[other] == old(p.oil[other]); }
    if other < p.water.Length { assert p.water[other] == old(p.water[other]); }
    if other < p.gas.Length { assert p.gas[other] == old(p.gas[other]); }
    after := g.GetItem(other);
    afterKey := g.GetItem(key);
  }
}
