/** Rounding amounts to a pair's places, and what the ledger's own rounding can do to them
    (exchange/precision.py).
    Amounts are exact reals; the decimal context's 28 digits are idealised away. */
module Precision {
  import opened Wrappers

  /** What Kraken will accept for one pair: the fields an order is sized with. */
  datatype PairMeta = PairMeta(tradable: bool, volumeDecimals: nat, costDecimals: nat, orderMin: real, costMin: real)

  function Pow10(places: nat): (scale: nat)
    ensures scale >= 1
  {
    if places == 0 then 1 else 10 * Pow10(places - 1)
  }

  function Max(a: real, b: real): real {
    if a >= b then a else b
  }

  function Min(a: real, b: real): real {
    if b < a then b else a
  }

  function Scaled(x: real, places: nat): real {
    x * Pow10(places) as real
  }

  /** `n` of the smallest amounts with `places` decimals. */
  function Units(n: int, places: nat): real {
    n as real / Pow10(places) as real
  }

  /** ROUND_DOWN: toward zero. */
  function RoundDown(x: real, places: nat): real {
    var scaled := Scaled(x, places);
    Units(if scaled >= 0.0 then scaled.Floor else -(-scaled).Floor, places)
  }

  /** ROUND_UP: away from zero. */
  function RoundUp(x: real, places: nat): real {
    var scaled := Scaled(x, places);
    Units(if scaled >= 0.0 then -(-scaled).Floor else scaled.Floor, places)
  }

  function RoundVolume(meta: PairMeta, volume: real): real {
    RoundDown(volume, meta.volumeDecimals)
  }

  function RoundCost(meta: PairMeta, amount: real): real {
    RoundDown(amount, meta.costDecimals)
  }

  /** `None` is the ValueError of a price that is not positive. */
  function VolumeFromFiat(meta: PairMeta, amount: real, price: real): Option<real> {
    if price <= 0.0 then None else Some(RoundVolume(meta, amount / price))
  }

  function MinimumFiat(meta: PairMeta, price: real): real {
    Max(meta.costMin, meta.orderMin * price)
  }

  /** The credit of a filled sell: its cost rounded down less its fee rounded up. */
  function Credited(cost: real, fee: real, places: nat): real {
    RoundDown(cost, places) - RoundUp(fee, places)
  }

  /** A number with at most `places` decimals. */
  ghost predicate OnGrid(x: real, places: nat) {
    exists n: int :: x == Units(n, places)
  }

  function Quantum(places: nat): real {
    1.0 / Pow10(places) as real
  }

  /** `units` are what Kraken's ledger enters for a reported amount: at the fiat's places, rounded
      either way. */
  predicate LedgerEntry(units: int, reported: real, places: nat) {
    reported - Quantum(places) < Units(units, places) < reported + Quantum(places)
  }

  lemma Times(x: real, y: real, s: real)
    requires s > 0.0
    ensures x <= y <==> x * s <= y * s
  {
    if x <= y { assert (y - x) * s >= 0.0; } else { assert (x - y) * s > 0.0; }
  }

  lemma Over(n: real, s: real)
    requires s > 0.0
    ensures n / s * s == n
  {
  }

  /** Comparing an amount with a number of units is comparing at scale. */
  lemma UnitsOrder(x: real, n: int, places: nat)
    ensures Units(n, places) <= x <==> n as real <= x * Pow10(places) as real
    ensures x <= Units(n, places) <==> x * Pow10(places) as real <= n as real
  {
    var s := Pow10(places) as real;
    Over(n as real, s);
    Times(Units(n, places), x, s);
    Times(x, Units(n, places), s);
  }

  lemma NextUnit(n: int, places: nat)
    ensures Units(n + 1, places) == Units(n, places) + Quantum(places)
    ensures Units(n - 1, places) == Units(n, places) - Quantum(places)
  {
  }

  lemma UnitsMonotone(m: int, n: int, places: nat)
    ensures Units(m, places) <= Units(n, places) <==> m <= n
  {
    UnitsOrder(Units(n, places), m, places);
    Over(n as real, Pow10(places) as real);
  }

  /** The units at or below `x`, and those at or above it. */
  lemma UnitsBelow(x: real, n: int, places: nat)
    requires n as real <= Scaled(x, places) < n as real + 1.0
    ensures Units(n, places) <= x < Units(n, places) + Quantum(places)
    ensures forall m: int :: Units(m, places) <= x ==> Units(m, places) <= Units(n, places)
  {
    UnitsOrder(x, n, places);
    UnitsOrder(x, n + 1, places);
    NextUnit(n, places);
    forall m: int | Units(m, places) <= x ensures Units(m, places) <= Units(n, places) {
      UnitsOrder(x, m, places);
      UnitsMonotone(m, n, places);
    }
  }

  lemma UnitsAbove(x: real, n: int, places: nat)
    requires n as real - 1.0 < Scaled(x, places) <= n as real
    ensures x <= Units(n, places) < x + Quantum(places)
    ensures forall m: int :: x <= Units(m, places) ==> Units(n, places) <= Units(m, places)
  {
    UnitsOrder(x, n, places);
    UnitsOrder(x, n - 1, places);
    NextUnit(n, places);
    forall m: int | x <= Units(m, places) ensures Units(n, places) <= Units(m, places) {
      UnitsOrder(x, m, places);
      UnitsMonotone(n, m, places);
    }
  }

  lemma ScaledSign(x: real, places: nat)
    requires x >= 0.0
    ensures Scaled(x, places) >= 0.0
  {
    Times(0.0, x, Pow10(places) as real);
  }

  /** Rounding down is the largest amount Kraken accepts that does not exceed `x`. */
  lemma RoundDownIsGreatest(x: real, places: nat)
    requires x >= 0.0
    ensures OnGrid(RoundDown(x, places), places)
    ensures 0.0 <= RoundDown(x, places) <= x < RoundDown(x, places) + Quantum(places)
    ensures forall n: int :: Units(n, places) <= x ==> Units(n, places) <= RoundDown(x, places)
  {
    ScaledSign(x, places);
    UnitsBelow(x, Scaled(x, places).Floor, places);
    assert Units(0, places) == 0.0;
  }

  /** Rounding up is the smallest amount at those places that is not below `x`. */
  lemma RoundUpIsLeast(x: real, places: nat)
    requires x >= 0.0
    ensures OnGrid(RoundUp(x, places), places)
    ensures x <= RoundUp(x, places) < x + Quantum(places)
    ensures forall n: int :: x <= Units(n, places) ==> RoundUp(x, places) <= Units(n, places)
  {
    ScaledSign(x, places);
    UnitsAbove(x, -(-Scaled(x, places)).Floor, places);
  }

  /** Whichever way the ledger rounded, its entry is between the two roundings. */
  lemma EntryBounds(units: int, reported: real, places: nat)
    requires reported >= 0.0 && LedgerEntry(units, reported, places)
    ensures RoundDown(reported, places) <= Units(units, places) <= RoundUp(reported, places)
  {
    hide RoundDown, RoundUp;
    RoundDownIsGreatest(reported, places);
    RoundUpIsLeast(reported, places);
    NextUnit(units, places);
    var lo: int :| RoundDown(reported, places) == Units(lo, places);
    var hi: int :| RoundUp(reported, places) == Units(hi, places);
    if units < lo { UnitsMonotone(units + 1, lo, places); }
    if units > hi { UnitsMonotone(hi, units - 1, places); }
    UnitsMonotone(lo, units, places);
    UnitsMonotone(units, hi, places);
  }

  /** So a sell raised at least what it is credited with. */
  lemma CreditedIsSafe(cost: real, fee: real, places: nat, costUnits: int, feeUnits: int)
    requires cost >= 0.0 && fee >= 0.0
    requires LedgerEntry(costUnits, cost, places) && LedgerEntry(feeUnits, fee, places)
    ensures Credited(cost, fee, places) <= Units(costUnits, places) - Units(feeUnits, places)
  {
    EntryBounds(costUnits, cost, places);
    EntryBounds(feeUnits, fee, places);
  }

  /** And no credit gives away two quanta of what the sell raised. */
  lemma CreditedIsClose(cost: real, fee: real, places: nat)
    requires cost >= 0.0 && fee >= 0.0
    ensures cost - fee - 2.0 * Quantum(places) < Credited(cost, fee, places) <= cost - fee
  {
    hide RoundDown, RoundUp;
    RoundDownIsGreatest(cost, places);
    RoundUpIsLeast(fee, places);
  }

  /** And a buy is charged exactly what it spent when its pair has no more decimals than the ledger. */
  lemma ChargedAtMost(amount: real, costDecimals: nat, places: nat, units: int)
    requires amount >= 0.0 && OnGrid(amount, costDecimals) && costDecimals <= places
    requires LedgerEntry(units, amount, places)
    ensures Units(units, places) == amount
  {
    hide RoundDown, RoundUp;
    GridRefines(amount, costDecimals, places);
    EntryBounds(units, amount, places);
    RoundDownIsGreatest(amount, places);
    RoundUpIsLeast(amount, places);
  }

  lemma {:induction false} QuantumShrinks(coarse: nat, fine: nat)
    requires coarse < fine
    ensures Quantum(fine) < Quantum(coarse)
    decreases fine
  {
    assert Quantum(fine) < Quantum(fine - 1) && Quantum(fine) > 0.0 by { TenTimesSmaller(Pow10(fine - 1)); }
    if coarse < fine - 1 { QuantumShrinks(coarse, fine - 1); }
  }

  lemma TenTimesSmaller(scale: nat)
    requires scale >= 1
    ensures 0.0 < 1.0 / (10 * scale) as real < 1.0 / scale as real
  {
  }

  /** Exactly then: with finer pairs than ledger places, a buy of one cost quantum may be charged a
      whole ledger quantum, more than it asked to spend. */
  lemma LedgerNeverOvercharges(costDecimals: nat, places: nat)
    ensures
      costDecimals <= places <==>
      forall n: nat, units: int :: LedgerEntry(units, Units(n, costDecimals), places) ==>
        Units(units, places) <= Units(n, costDecimals)
  {
    if costDecimals <= places {
      forall n: nat, units: int | LedgerEntry(units, Units(n, costDecimals), places)
        ensures Units(units, places) <= Units(n, costDecimals)
      {
        UnitsMonotone(0, n, costDecimals);
        ChargedAtMost(Units(n, costDecimals), costDecimals, places, units);
      }
    } else {
      QuantumShrinks(places, costDecimals);
      assert Units(1, costDecimals) == Quantum(costDecimals) && Units(1, places) == Quantum(places);
      UnitsMonotone(1, 0, costDecimals);
      assert LedgerEntry(1, Units(1, costDecimals), places);
    }
  }

  lemma OverTenTimes(n: real, s: real)
    requires s > 0.0
    ensures (10.0 * n) / (10.0 * s) == n / s
  {
    Over(n, s);
    Over(10.0 * n, 10.0 * s);
    var q, r := n / s, (10.0 * n) / (10.0 * s);
    assert (r - q) * s == 0.0;
  }

  /** A unit is ten of the next smaller. */
  lemma TenTimesUnits(n: int, places: nat)
    ensures Units(10 * n, places + 1) == Units(n, places)
  {
    assert Pow10(places + 1) == 10 * Pow10(places);
    OverTenTimes(n as real, Pow10(places) as real);
  }

  lemma {:induction false} GridRefines(x: real, coarse: nat, fine: nat)
    requires coarse <= fine && OnGrid(x, coarse)
    ensures OnGrid(x, fine)
    decreases fine
  {
    hide Units;
    if coarse < fine {
      GridRefines(x, coarse, fine - 1);
      var n: int :| x == Units(n, fine - 1);
      TenTimesUnits(n, fine - 1);
    }
  }
}
