/** Values and weights of the target assets, and their distances from the targets (engine/valuation.py,
    engine/drift.py). */
module Valuation {
  import opened Wrappers
  import opened Sequences
  import opened Sums

  /** A mapping of target weights, with the order its keys are iterated in. */
  datatype Targets = Targets(assets: seq<Asset>, pct: map<Asset, real>)

  ghost predicate WellFormed(targets: Targets) {
    NoRepeats(targets.assets) && forall a :: a in targets.pct <==> a in targets.assets
  }

  datatype Valued = Valued(
    assetValues: map<Asset, real>, cash: real, managedValue: real, weights: map<Asset, real>, cashWeight: real)

  datatype Result<+T> = Ok(value: T) | UnpricedAsset(asset: Asset)

  /** The first target without a price. */
  function Unpriced(prices: map<Asset, real>, assets: seq<Asset>): Option<Asset> {
    if assets == [] then None
    else if assets[0] !in prices then Some(assets[0])
    else Unpriced(prices, assets[1..])
  }

  lemma {:induction false} UnpricedNone(prices: map<Asset, real>, assets: seq<Asset>)
    ensures Unpriced(prices, assets).None? <==> forall a :: a in assets ==> a in prices
    ensures Unpriced(prices, assets).Some? ==>
      exists i :: 0 <= i < |assets|
        && assets[i] == Unpriced(prices, assets).value && assets[i] !in prices
        && forall j :: 0 <= j < i ==> assets[j] in prices
  {
    if assets != [] {
      UnpricedNone(prices, assets[1..]);
      assert forall a :: a in assets <==> a == assets[0] || a in assets[1..];
    }
  }

  function AssetValues(holdings: map<Asset, real>, prices: map<Asset, real>, targets: Targets): map<Asset, real> {
    map a | a in targets.pct :: Worth(holdings, prices, a)
  }

  function Worth(holdings: map<Asset, real>, prices: map<Asset, real>, a: Asset): real {
    Get(holdings, a) * Get(prices, a)
  }

  function WeightOf(value: real, managedValue: real): real {
    if managedValue == 0.0 then 0.0 else value / managedValue * 100.0
  }

  function Weights(values: map<Asset, real>, managedValue: real): map<Asset, real> {
    map a | a in values :: WeightOf(values[a], managedValue)
  }

  function ValuedAt(values: map<Asset, real>, assets: seq<Asset>, cash: real): Valued {
    var managed := Sum(assets, values) + cash;
    Valued(values, cash, managed, Weights(values, managed), WeightOf(cash, managed))
  }

  method ValuePortfolio(holdings: map<Asset, real>, prices: map<Asset, real>, targets: Targets, cash: real)
    returns (r: Result<Valued>)
    requires WellFormed(targets)
    ensures Unpriced(prices, targets.assets).Some? ==> r == UnpricedAsset(Unpriced(prices, targets.assets).value)
    ensures Unpriced(prices, targets.assets).None? ==>
      r == Ok(ValuedAt(AssetValues(holdings, prices, targets), targets.assets, cash))
  {
    hide Worth, ValuedAt;
    var values: map<Asset, real> := map[];
    for i := 0 to |targets.assets|
      invariant Unpriced(prices, targets.assets) == Unpriced(prices, targets.assets[i..])
      invariant forall a :: a in values <==> a in targets.assets[..i]
      invariant forall a :: a in values ==> values[a] == Worth(holdings, prices, a)
    {
      var asset := targets.assets[i];
      if asset !in prices {
        return UnpricedAsset(asset);
      }
      values := values[asset := Worth(holdings, prices, asset)];
    }
    assert values == AssetValues(holdings, prices, targets);
    return Ok(ValuedAt(values, targets.assets, cash));
  }

  function CashTargetPct(targets: Targets): real {
    100.0 - Sum(targets.assets, targets.pct)
  }

  function TargetValues(v: Valued, targets: Targets): map<Asset, real> {
    map a | a in targets.pct :: v.managedValue * targets.pct[a] / 100.0
  }

  function Deltas(v: Valued, targets: Targets): map<Asset, real> {
    map a | a in targets.pct :: TargetValues(v, targets)[a] - Get(v.assetValues, a)
  }

  function Drifts(v: Valued, targets: Targets): map<Asset, real> {
    map a | a in targets.pct :: Get(v.weights, a) - targets.pct[a]
  }

  /** The fiat the cash target asks for. */
  function CashTarget(managedValue: real, targets: Targets): real {
    managedValue * CashTargetPct(targets) / 100.0
  }

  /** Fiat above the cash target; negative when there is less. */
  function Excess(v: Valued, targets: Targets): real {
    v.cash - CashTarget(v.managedValue, targets)
  }

  function InvestableCash(v: Valued, targets: Targets): real {
    Positive(Excess(v, targets))
  }

  /** The managed value is the assets' and the cash's. */
  ghost predicate Balanced(v: Valued, targets: Targets) {
    v.managedValue == Sum(targets.assets, v.assetValues) + v.cash
  }

  /** The weights and the cash's own make up the whole, when anything is managed. */
  lemma WeightsMakeAHundred(values: map<Asset, real>, assets: seq<Asset>, cash: real)
    requires ValuedAt(values, assets, cash).managedValue != 0.0
    ensures
      var v := ValuedAt(values, assets, cash);
      Sum(assets, v.weights) + v.cashWeight == 100.0
  {
    hide Sum;
    var v := ValuedAt(values, assets, cash);
    var weight := x => x / v.managedValue * 100.0;
    WeightIsAdditive(v.managedValue, weight);
    SumMapped(assets, v.weights, weight, values);
    assert Plus(Sum(assets, values), cash) == v.managedValue;
  }

  lemma WeightIsAdditive(m: real, weight: real -> real)
    requires m != 0.0 && forall x :: weight(x) == x / m * 100.0
    ensures Additive(weight) && weight(m) == 100.0
  {
    forall x, y ensures weight(x) + weight(y) == weight(Plus(x, y)) { assert x / m + y / m == (x + y) / m; }
  }

  lemma TargetsSum(v: Valued, targets: Targets)
    requires WellFormed(targets)
    ensures Sum(targets.assets, TargetValues(v, targets)) == v.managedValue * Sum(targets.assets, targets.pct) / 100.0
  {
    hide Sum;
    var share := p => v.managedValue * p / 100.0;
    ShareIsAdditive(v.managedValue, share);
    assert share(0.0) == 0.0;
    forall a | a in targets.assets ensures Get(TargetValues(v, targets), a) == share(Get(targets.pct, a)) {}
    SumMapped(targets.assets, TargetValues(v, targets), share, targets.pct);
  }

  lemma DeltasSum(v: Valued, targets: Targets)
    requires WellFormed(targets)
    ensures Sum(targets.assets, Deltas(v, targets))
      == Sum(targets.assets, TargetValues(v, targets)) - Sum(targets.assets, v.assetValues)
  {
    SumDifference(targets.assets, Deltas(v, targets), TargetValues(v, targets), v.assetValues);
  }

  /** What the assets lack, added up, is what the cash has too much of. */
  lemma DeltasSumToExcess(v: Valued, targets: Targets)
    requires WellFormed(targets) && Balanced(v, targets)
    ensures Sum(targets.assets, Deltas(v, targets)) == Excess(v, targets)
  {
    hide Sum;
    TargetsSum(v, targets);
    DeltasSum(v, targets);
    Combine(Sum(targets.assets, Deltas(v, targets)), Sum(targets.assets, TargetValues(v, targets)),
      Sum(targets.assets, v.assetValues), v.managedValue, Sum(targets.assets, targets.pct), v.cash,
        CashTargetPct(targets));
  }

  lemma Combine(deltas: real, wanted: real, held: real, m: real, p: real, cash: real, rest: real)
    requires wanted == m * p / 100.0 && deltas == wanted - held && m == held + cash && rest == 100.0 - p
    ensures deltas == cash - m * rest / 100.0
  {
    assert m * rest == m * 100.0 - m * p;
  }

  lemma ShareIsAdditive(m: real, share: real -> real)
    requires forall p :: share(p) == m * p / 100.0
    ensures Additive(share)
  {
    forall x, y ensures share(x) + share(y) == share(Plus(x, y)) { assert m * (x + y) == m * x + m * y; }
  }
}
