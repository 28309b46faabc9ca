/** The plan of a portfolio (engine/reconcile.py): the amounts either policy moves, and the sorted legs that
    move them. */
module Reconcile {
  import opened Sequences
  import opened Sums
  import opened Valuation
  import opened Allocation

  datatype CashPolicy = PRORATA | REDUCE_DRIFT
  datatype Policy = Policy(allowSells: bool, cashPolicy: CashPolicy, minDriftPct: real, minOrderFiat: real)
  datatype Side = BUY | SELL
  datatype Leg = Leg(asset: Asset, side: Side, amountFiat: real)

  /** Fiat to buy (positive) or to sell (negative) of each asset. */
  function Amounts(v: Valued, targets: Targets, policy: Policy): map<Asset, real> {
    if policy.allowSells then
      map a | a in targets.pct && Abs(Drifts(v, targets)[a]) >= policy.minDriftPct :: Deltas(v, targets)[a]
    else if policy.cashPolicy == PRORATA then AllocateProrata(InvestableCash(v, targets), targets)
    else ReduceDrift(InvestableCash(v, targets), Deltas(v, targets), targets)
  }

  predicate Kept(amount: real, policy: Policy) {
    Abs(amount) >= policy.minOrderFiat && amount != 0.0
  }

  function LegFor(a: Asset, amount: real): Leg {
    Leg(a, if amount > 0.0 then BUY else SELL, Abs(amount))
  }

  /** Sells first, and the asset code within a side. */
  predicate Sooner(x: Leg, y: Leg) {
    (x.side == SELL && y.side == BUY) || (x.side == y.side && x.asset < y.asset)
  }

  /** `legs` are the amounts worth an order, each once, in the order they are sent. */
  ghost predicate IsPlan(legs: seq<Leg>, amounts: map<Asset, real>, policy: Policy) {
    && (forall i, j :: 0 <= i < j < |legs| ==> Sooner(legs[i], legs[j]))
    && (forall leg :: leg in legs ==>
        leg.asset in amounts && Kept(amounts[leg.asset], policy) && leg == LegFor(leg.asset, amounts[leg.asset]))
    && (forall a :: a in amounts && Kept(amounts[a], policy) ==> LegFor(a, amounts[a]) in legs)
  }

  /** The fiat an asset lacks of its share of everything managed; negative when it has too much. */
  function ToTarget(value: real, managed: real, pct: real): real {
    managed * pct / 100.0 - value
  }

  /** At least `band` points of weight from its target, said without a division. */
  predicate OutsideBand(value: real, managed: real, pct: real, band: real) {
    if managed == 0.0 then Abs(pct) >= band else Abs(100.0 * value - pct * managed) >= band * Abs(managed)
  }

  /** Far enough from its target, and by an amount worth an order. */
  predicate WorthMoving(value: real, managed: real, pct: real, policy: Policy) {
    && OutsideBand(value, managed, pct, policy.minDriftPct)
    && ToTarget(value, managed, pct) != 0.0 && Abs(ToTarget(value, managed, pct)) >= policy.minOrderFiat
  }

  /** Exactly the assets worth moving have a leg, and each moves all the way to its target. */
  ghost predicate ClosesGaps(
    legs: seq<Leg>, values: map<Asset, real>, managed: real, targets: Targets, policy: Policy)
  {
    && (forall leg :: leg in legs ==>
          && leg.asset in targets.pct && WorthMoving(Get(values, leg.asset), managed, targets.pct[leg.asset], policy)
          && var gap := ToTarget(Get(values, leg.asset), managed, targets.pct[leg.asset]);
             leg == Leg(leg.asset, if gap > 0.0 then BUY else SELL, Abs(gap)))
    && (forall a :: a in targets.pct && WorthMoving(Get(values, a), managed, targets.pct[a], policy) ==>
          exists leg :: leg in legs && leg.asset == a)
  }

  lemma BandIsOfWeight(value: real, managed: real, pct: real, band: real)
    ensures Abs(WeightOf(value, managed) - pct) >= band <==> OutsideBand(value, managed, pct, band)
  {
    if managed != 0.0 { BandWithoutDivision(value, managed, pct, band); }
  }

  lemma BandWithoutDivision(value: real, managed: real, pct: real, band: real)
    requires managed != 0.0
    ensures Abs(value / managed * 100.0 - pct) >= band <==> Abs(100.0 * value - pct * managed) >= band * Abs(managed)
  {
    var drift := value / managed * 100.0 - pct;
    assert value / managed * managed == value;
    assert 100.0 * value - pct * managed == drift * managed;
    Scales(Abs(drift), band, Abs(managed));
    if drift >= 0.0 { Signs(drift, managed); } else { Signs(-drift, managed); }
  }

  lemma Scales(x: real, y: real, m: real)
    requires m > 0.0
    ensures x >= y <==> x * m >= y * m
  {
    if x >= y { assert (x - y) * m >= 0.0; } else { assert (y - x) * m > 0.0; }
  }

  lemma Signs(x: real, y: real)
    requires x >= 0.0
    ensures Abs(x * y) == x * Abs(y) && Abs(-x * y) == x * Abs(y)
  {
    assert if y >= 0.0 then x * y >= 0.0 else x * y <= 0.0;
  }

  /** Which assets the drift band selects, and for how much. */
  lemma AmountIsTheGap(v: Valued, targets: Targets, policy: Policy, a: Asset)
    requires policy.allowSells && v.weights == Weights(v.assetValues, v.managedValue)
    requires a in targets.pct && a in v.assetValues
    ensures
      var amounts, gap := Amounts(v, targets, policy), ToTarget(v.assetValues[a], v.managedValue, targets.pct[a]);
      && (a in amounts ==> amounts[a] == gap)
      && (a in amounts && Kept(amounts[a], policy) <==>
            WorthMoving(v.assetValues[a], v.managedValue, targets.pct[a], policy))
  {
    hide Deltas, Drifts, ToTarget, Weights, OutsideBand;
    DeltaIsTheGap(v, targets, a);
    BandIsOfDrift(v, targets, a, policy.minDriftPct);
  }

  lemma BandIsOfDrift(v: Valued, targets: Targets, a: Asset, band: real)
    requires v.weights == Weights(v.assetValues, v.managedValue) && a in targets.pct && a in v.assetValues
    ensures a in Drifts(v, targets)
    ensures Abs(Drifts(v, targets)[a]) >= band <==> OutsideBand(v.assetValues[a], v.managedValue, targets.pct[a], band)
  {
    hide Drifts, Weights, WeightOf, OutsideBand, Abs;
    DriftIsOfWeight(v, targets, a);
    BandIsOfWeight(v.assetValues[a], v.managedValue, targets.pct[a], band);
  }

  lemma DeltaIsTheGap(v: Valued, targets: Targets, a: Asset)
    requires a in targets.pct && a in v.assetValues
    ensures a in Deltas(v, targets)
    ensures Deltas(v, targets)[a] == ToTarget(v.assetValues[a], v.managedValue, targets.pct[a])
  {
  }

  lemma DriftIsOfWeight(v: Valued, targets: Targets, a: Asset)
    requires v.weights == Weights(v.assetValues, v.managedValue) && a in targets.pct && a in v.assetValues
    ensures Drifts(v, targets).Keys == targets.pct.Keys
    ensures Drifts(v, targets)[a] == WeightOf(v.assetValues[a], v.managedValue) - targets.pct[a]
  {
  }

  /** Where sells are allowed, a plan closes the gaps. */
  lemma PlanClosesGaps(v: Valued, targets: Targets, policy: Policy, legs: seq<Leg>)
    requires policy.allowSells && v.weights == Weights(v.assetValues, v.managedValue)
    requires v.assetValues.Keys == targets.pct.Keys && IsPlan(legs, Amounts(v, targets, policy), policy)
    ensures ClosesGaps(legs, v.assetValues, v.managedValue, targets, policy)
  {
    hide Amounts, Kept, WorthMoving, ToTarget;
    assert forall a :: a in Amounts(v, targets, policy) ==> a in targets.pct by { AmountsWithin(v, targets, policy); }
    forall a | a in targets.pct
      ensures
        var amounts, gap := Amounts(v, targets, policy), ToTarget(v.assetValues[a], v.managedValue, targets.pct[a]);
        && (a in amounts ==> amounts[a] == gap)
        && (a in amounts && Kept(amounts[a], policy) <==>
              WorthMoving(v.assetValues[a], v.managedValue, targets.pct[a], policy))
    {
      AmountIsTheGap(v, targets, policy, a);
    }
  }

  lemma ValuedAre(holdings: map<Asset, real>, prices: map<Asset, real>, targets: Targets, cash: real)
    ensures
      var v := ValuedAt(AssetValues(holdings, prices, targets), targets.assets, cash);
      && v.assetValues == (map a | a in targets.pct :: Get(holdings, a) * Get(prices, a))
      && v.managedValue == Sum(targets.assets, v.assetValues) + cash
      && v.weights == Weights(v.assetValues, v.managedValue)
  {
  }

  /** The same in what is held, its prices and the cash. */
  lemma RebalanceClosesGaps(
      holdings: map<Asset, real>, prices: map<Asset, real>, targets: Targets, cash: real, policy: Policy,
      legs: seq<Leg>)
    requires policy.allowSells
    requires
      var v := ValuedAt(AssetValues(holdings, prices, targets), targets.assets, cash);
      IsPlan(legs, Amounts(v, targets, policy), policy)
    ensures
      var values := map a | a in targets.pct :: Get(holdings, a) * Get(prices, a);
      ClosesGaps(legs, values, Sum(targets.assets, values) + cash, targets, policy)
  {
    hide Amounts, IsPlan, ClosesGaps, ValuedAt, AssetValues, Weights;
    ValuedAre(holdings, prices, targets, cash);
    PlanClosesGaps(ValuedAt(AssetValues(holdings, prices, targets), targets.assets, cash), targets, policy, legs);
  }

  lemma AmountsWithin(v: Valued, targets: Targets, policy: Policy)
    requires policy.allowSells
    ensures forall a :: a in Amounts(v, targets, policy) ==> a in targets.pct
  {
  }

  /** No buy before a sell, and each side by code. */
  ghost predicate SellsFirst(legs: seq<Leg>) {
    forall i, j :: 0 <= i < j < |legs| ==>
      if legs[i].side == legs[j].side then legs[i].asset < legs[j].asset
      else legs[i].side == SELL && legs[j].side == BUY
  }

  lemma PlanSellsFirst(legs: seq<Leg>, amounts: map<Asset, real>, policy: Policy)
    requires IsPlan(legs, amounts, policy)
    ensures SellsFirst(legs)
  {
    forall i, j | 0 <= i < j < |legs|
      ensures if legs[i].side == legs[j].side then legs[i].asset < legs[j].asset
        else legs[i].side == SELL && legs[j].side == BUY
    {
      assert Sooner(legs[i], legs[j]);
    }
  }

  method InsertLeg(legs: seq<Leg>, leg: Leg) returns (sorted: seq<Leg>)
    requires forall i, j :: 0 <= i < j < |legs| ==> Sooner(legs[i], legs[j])
    requires forall i :: 0 <= i < |legs| ==> legs[i].asset != leg.asset
    ensures forall i, j :: 0 <= i < j < |sorted| ==> Sooner(sorted[i], sorted[j])
    ensures forall x :: x in sorted <==> x in legs || x == leg
  {
    var at := 0;
    while at < |legs| && Sooner(legs[at], leg)
      invariant 0 <= at <= |legs|
      invariant forall i :: 0 <= i < at ==> Sooner(legs[i], leg)
    {
      at := at + 1;
    }
    sorted := legs[..at] + [leg] + legs[at..];
    assert legs == legs[..at] + legs[at..];
    assert forall i :: at <= i < |legs| ==> Sooner(leg, legs[i]);
  }

  /** The library's sort, by the key of `Sooner`. */
  method SortLegs(legs: seq<Leg>) returns (sorted: seq<Leg>)
    requires forall i, j :: 0 <= i < j < |legs| ==> legs[i].asset != legs[j].asset
    ensures forall i, j :: 0 <= i < j < |sorted| ==> Sooner(sorted[i], sorted[j])
    ensures forall x :: x in sorted <==> x in legs
  {
    sorted := [];
    for k := 0 to |legs|
      invariant forall i, j :: 0 <= i < j < |sorted| ==> Sooner(sorted[i], sorted[j])
      invariant forall x :: x in sorted <==> x in legs[..k]
    {
      assert legs[..k + 1] == legs[..k] + [legs[k]];
      forall i | 0 <= i < |sorted| ensures sorted[i].asset != legs[k].asset {
        assert sorted[i] in legs[..k];
      }
      sorted := InsertLeg(sorted, legs[k]);
    }
    assert legs[..|legs|] == legs;
  }

  method BuildLegs(amounts: map<Asset, real>, assets: seq<Asset>, policy: Policy) returns (legs: seq<Leg>)
    requires NoRepeats(assets) && forall a :: a in amounts ==> a in assets
    ensures IsPlan(legs, amounts, policy)
  {
    legs := [];
    for k := 0 to |assets|
      invariant forall i, j :: 0 <= i < j < |legs| ==> legs[i].asset != legs[j].asset
      invariant forall leg :: leg in legs ==>
        && leg.asset in assets[..k] && leg.asset in amounts && Kept(amounts[leg.asset], policy)
        && leg == LegFor(leg.asset, amounts[leg.asset])
      invariant forall j :: 0 <= j < k && assets[j] in amounts && Kept(amounts[assets[j]], policy) ==>
        LegFor(assets[j], amounts[assets[j]]) in legs
    {
      var asset := assets[k];
      if asset in amounts {
        var amount := amounts[asset];
        if Abs(amount) >= policy.minOrderFiat && amount != 0.0 {
          legs := legs + [Leg(asset, if amount > 0.0 then BUY else SELL, Abs(amount))];
        }
      }
    }
    legs := SortLegs(legs);
  }

  method Reconcile(holdings: map<Asset, real>, prices: map<Asset, real>, targets: Targets, cash: real, policy: Policy)
    returns (r: Result<seq<Leg>>)
    requires WellFormed(targets)
    ensures Unpriced(prices, targets.assets).Some? ==> r == UnpricedAsset(Unpriced(prices, targets.assets).value)
    ensures Unpriced(prices, targets.assets).None? ==>
      && r.Ok?
      && var v := ValuedAt(AssetValues(holdings, prices, targets), targets.assets, cash);
         IsPlan(r.value, Amounts(v, targets, policy), policy)
    ensures r.Ok? ==> SellsFirst(r.value)
    ensures Unpriced(prices, targets.assets).None? && policy.allowSells ==>
      var values := map a | a in targets.pct :: Get(holdings, a) * Get(prices, a);
      ClosesGaps(r.value, values, Sum(targets.assets, values) + cash, targets, policy)
  {
    hide Unpriced, ValuedAt, AllocateProrata, ReduceDrift, InvestableCash, AssetValues, ClosesGaps, IsPlan;
    var valued := ValuePortfolio(holdings, prices, targets, cash);
    if valued.UnpricedAsset? {
      return UnpricedAsset(valued.asset);
    }
    var v := valued.value;
    var amounts;
    if policy.allowSells {
      var deltas, drifts := Deltas(v, targets), Drifts(v, targets);
      amounts := map a | a in targets.pct && Abs(drifts[a]) >= policy.minDriftPct :: deltas[a];
    } else {
      var spendable := InvestableCash(v, targets);
      if policy.cashPolicy == PRORATA {
        amounts := AllocateProrata(spendable, targets);
      } else {
        amounts := AllocateReduceDrift(spendable, Deltas(v, targets), targets);
      }
    }
    assert amounts == Amounts(v, targets, policy);
    AmountsAreOfTargets(v, targets, policy);
    var legs := BuildLegs(amounts, targets.assets, policy);
    if policy.allowSells { RebalanceClosesGaps(holdings, prices, targets, cash, policy, legs); }
    PlanSellsFirst(legs, amounts, policy);
    return Ok(legs);
  }

  lemma AmountsAreOfTargets(v: Valued, targets: Targets, policy: Policy)
    requires WellFormed(targets)
    ensures forall a :: a in Amounts(v, targets, policy) ==> a in targets.assets
  {
    hide AllocateProrata, ReduceDrift, InvestableCash;
    ReduceDriftOfTargets(InvestableCash(v, targets), Deltas(v, targets), targets);
    NoProrata(InvestableCash(v, targets), targets);
  }
}
