/** What a reconciliation achieves, across valuation, allocation and the plan. */
module Reconciled {
  import opened Sums
  import opened Valuation
  import opened Allocation
  import opened Reconcile

  // ----- Investing ----------------------------------------------------------------

  /** The cash above its target never exceeds what the assets lack. */
  lemma InvestableWithinShortfalls(v: Valued, targets: Targets)
    requires WellFormed(targets) && Balanced(v, targets)
    ensures InvestableCash(v, targets) > 0.0 ==>
      InvestableCash(v, targets) <= Sum(targets.assets, Shortfall(Deltas(v, targets)))
    ensures Deltas(v, targets).Keys == targets.pct.Keys
  {
    hide Sum;
    DeltasSumToExcess(v, targets);
    SumAtMost(targets.assets, Deltas(v, targets), Shortfall(Deltas(v, targets)));
  }

  /** REDUCE_DRIFT inside a reconciliation: every buy stays within its asset's shortfall, nothing is
      left to spread pro rata, and the buys spend exactly the investable cash. */
  lemma ReduceDriftStaysWithin(v: Valued, targets: Targets)
    requires WellFormed(targets) && Balanced(v, targets)
    ensures
      var deltas := Deltas(v, targets);
      var spendable := InvestableCash(v, targets);
      var given := ReduceDrift(spendable, deltas, targets);
      && (forall a :: a in given ==> a in deltas && 0.0 < given[a] <= deltas[a])
      && Sum(targets.assets, given) == spendable
      && (spendable > 0.0 ==> Leftover(Shortfalls(deltas, targets.assets), deltas, spendable) == 0.0)
  {
    hide Sum, Deltas, InvestableCash;
    InvestableWithinShortfalls(v, targets);
    InvestableSign(v, targets);
    if InvestableCash(v, targets) > 0.0 {
      ReduceDriftNeverOvershoots(InvestableCash(v, targets), Deltas(v, targets), targets);
    } else {
      SumOfNone(targets.assets);
    }
  }

  /** And it goes to what is furthest behind: an asset gets something only when every one further from its target, or
      as far and of a lower code, is bought up to its target. */
  lemma FurthestBehindFirst(v: Valued, targets: Targets, policy: Policy, a: Asset, b: Asset)
    requires WellFormed(targets) && Balanced(v, targets) && v.assetValues.Keys == targets.pct.Keys
    requires !policy.allowSells && policy.cashPolicy == REDUCE_DRIFT && a in targets.pct && b in targets.pct
    requires
      var x := ToTarget(v.assetValues[a], v.managedValue, targets.pct[a]);
      var y := ToTarget(v.assetValues[b], v.managedValue, targets.pct[b]);
      x > y || (x == y && a < b)
    ensures
      var amounts := Amounts(v, targets, policy);
      b in amounts ==>
        a in amounts && amounts[a] == ToTarget(v.assetValues[a], v.managedValue, targets.pct[a])
  {
    hide Sum, Deltas, InvestableCash, ToTarget, Greedy, Leftover, Shortfalls, ReduceDrift;
    var deltas, spendable := Deltas(v, targets), InvestableCash(v, targets);
    DeltaIsTheGap(v, targets, a);
    DeltaIsTheGap(v, targets, b);
    ReduceDriftStaysWithin(v, targets);
    if b in Amounts(v, targets, policy) {
      if spendable <= 0.0 { NothingToSpend(spendable, deltas, targets); }
      GreedyIsAll(spendable, deltas, targets);
      BiggestShortfallFirst(spendable, deltas, targets, a, b);
    }
  }

  lemma NothingToSpend(amount: real, deltas: map<Asset, real>, targets: Targets)
    requires amount <= 0.0
    ensures ReduceDrift(amount, deltas, targets) == map[]
  {
  }

  lemma InvestableSign(v: Valued, targets: Targets)
    ensures InvestableCash(v, targets) >= 0.0
  {
  }

  lemma ProrataStaysWithin(v: Valued, targets: Targets)
    requires WellFormed(targets) && NonNegativeTargets(targets) && Sum(targets.assets, targets.pct) > 0.0
    ensures
      var given := AllocateProrata(InvestableCash(v, targets), targets);
      && (forall a :: a in given ==> given[a] > 0.0)
      && Sum(targets.assets, given) == InvestableCash(v, targets)
  {
    hide Sum, InvestableCash;
    InvestableSign(v, targets);
    if InvestableCash(v, targets) > 0.0 {
      ProrataSpendsAll(InvestableCash(v, targets), targets);
      SharesPositive(InvestableCash(v, targets), targets);
    } else {
      SumOfNone(targets.assets);
    }
  }

  /** An investment only buys, and under either policy it spends exactly the investable cash. */
  lemma InvestmentConserves(v: Valued, targets: Targets, policy: Policy)
    requires WellFormed(targets) && Balanced(v, targets) && NonNegativeTargets(targets)
    requires !policy.allowSells && Sum(targets.assets, targets.pct) > 0.0
    ensures forall a :: a in Amounts(v, targets, policy) ==> Amounts(v, targets, policy)[a] > 0.0
    ensures Sum(targets.assets, Amounts(v, targets, policy)) == InvestableCash(v, targets)
  {
    hide Sum, Deltas, InvestableCash, AllocateProrata, ReduceDrift;
    ReduceDriftStaysWithin(v, targets);
    ProrataStaysWithin(v, targets);
  }

  // ----- Applying a plan at its own prices ---------------------------------------------

  datatype Portfolio = Portfolio(holdings: map<Asset, real>, cash: real)

  function Signed(leg: Leg): real {
    if leg.side == BUY then leg.amountFiat else -leg.amountFiat
  }

  function Fill(p: Portfolio, leg: Leg, price: real): Portfolio
    requires price > 0.0
  {
    Portfolio(p.holdings[leg.asset := Get(p.holdings, leg.asset) + Signed(leg) / price], p.cash - Signed(leg))
  }

  predicate PricesPositive(prices: map<Asset, real>, legs: seq<Leg>) {
    forall i :: 0 <= i < |legs| ==> legs[i].asset in prices && prices[legs[i].asset] > 0.0
  }

  function FillAll(p: Portfolio, legs: seq<Leg>, prices: map<Asset, real>): Portfolio
    requires PricesPositive(prices, legs)
    decreases |legs|
  {
    if legs == [] then p else FillAll(Fill(p, legs[0], prices[legs[0].asset]), legs[1..], prices)
  }

  /** The signed amount of each asset's leg. */
  function Trades(legs: seq<Leg>): map<Asset, real> {
    if legs == [] then map[] else Trades(legs[1..])[legs[0].asset := Signed(legs[0])]
  }

  function Value(p: Portfolio, prices: map<Asset, real>, targets: Targets): Valued {
    ValuedAt(AssetValues(p.holdings, prices, targets), targets.assets, p.cash)
  }

  ghost predicate OneLegEach(legs: seq<Leg>) {
    forall i, j :: 0 <= i < j < |legs| ==> legs[i].asset != legs[j].asset
  }

  lemma {:induction false} TradesOfLegs(legs: seq<Leg>)
    requires OneLegEach(legs)
    ensures forall leg :: leg in legs ==> leg.asset in Trades(legs) && Trades(legs)[leg.asset] == Signed(leg)
    ensures forall a :: a in Trades(legs) ==> exists leg :: leg in legs && leg.asset == a
  {
    if legs != [] {
      TradesOfLegs(legs[1..]);
      assert legs == [legs[0]] + legs[1..];
      forall leg | leg in legs ensures leg.asset in Trades(legs) && Trades(legs)[leg.asset] == Signed(leg) {
        if leg != legs[0] { assert leg in legs[1..]; }
      }
      forall a | a in Trades(legs) ensures exists leg :: leg in legs && leg.asset == a {
        if a == legs[0].asset { assert legs[0] in legs; }
      }
    }
  }

  lemma Traded(held: real, amount: real, price: real)
    requires price > 0.0
    ensures (held + amount / price) * price == held * price + amount
  {
    assert (held + amount / price) * price == held * price + amount / price * price;
  }

  lemma FillMoves(p: Portfolio, leg: Leg, prices: map<Asset, real>, targets: Targets, a: Asset)
    requires leg.asset in prices && prices[leg.asset] > 0.0 && a in targets.pct
    ensures
      AssetValues(Fill(p, leg, prices[leg.asset]).holdings, prices, targets)[a]
      == AssetValues(p.holdings, prices, targets)[a] + (if a == leg.asset then Signed(leg) else 0.0)
  {
    Traded(Get(p.holdings, leg.asset), Signed(leg), prices[leg.asset]);
  }

  /** Each asset's value moves by its leg, and the cash by all of them. */
  lemma {:induction false} FillAllMoves(p: Portfolio, legs: seq<Leg>, prices: map<Asset, real>, targets: Targets)
    requires WellFormed(targets) && PricesPositive(prices, legs) && OneLegEach(legs)
    requires forall i :: 0 <= i < |legs| ==> legs[i].asset in targets.assets
    ensures
      var after := FillAll(p, legs, prices);
      && (forall a :: a in targets.pct ==>
            AssetValues(after.holdings, prices, targets)[a] ==
              AssetValues(p.holdings, prices, targets)[a] + Get(Trades(legs), a))
      && after.cash == p.cash - Sum(targets.assets, Trades(legs))
    decreases |legs|
  {
    hide AssetValues, Sum;
    AssetValuesKeys(p.holdings, prices, targets);
    AssetValuesKeys(FillAll(p, legs, prices).holdings, prices, targets);
    if legs == [] {
      SumOfNone(targets.assets);
    } else {
      var leg, rest := legs[0], legs[1..];
      var mid := Fill(p, leg, prices[leg.asset]);
      AssetValuesKeys(mid.holdings, prices, targets);
      FillAllMoves(mid, rest, prices, targets);
      forall a | a in targets.pct { FillMoves(p, leg, prices, targets, a); }
      TradesOfLegs(rest);
      SumUpdate(targets.assets, Trades(rest), leg.asset, Signed(leg));
    }
  }

  lemma AssetValuesKeys(holdings: map<Asset, real>, prices: map<Asset, real>, targets: Targets)
    ensures AssetValues(holdings, prices, targets).Keys == targets.pct.Keys
  {
  }

  /** Trading at the plan's prices leaves the managed value where it was. */
  lemma ManagedValueStays(p: Portfolio, legs: seq<Leg>, prices: map<Asset, real>, targets: Targets)
    requires WellFormed(targets) && PricesPositive(prices, legs) && OneLegEach(legs)
    requires forall i :: 0 <= i < |legs| ==> legs[i].asset in targets.assets
    ensures Value(FillAll(p, legs, prices), prices, targets).managedValue == Value(p, prices, targets).managedValue
  {
    hide AssetValues, Sum, FillAll, Trades, Weights;
    var after := FillAll(p, legs, prices);
    FillAllMoves(p, legs, prices, targets);
    AssetValuesKeys(p.holdings, prices, targets);
    AssetValuesKeys(after.holdings, prices, targets);
    SumDifference(targets.assets, AssetValues(p.holdings, prices, targets),
      AssetValues(after.holdings, prices, targets), Trades(legs));
  }

  /** The legs of a plan trade exactly the amounts it kept. */
  lemma PlanTrades(legs: seq<Leg>, amounts: map<Asset, real>, policy: Policy)
    requires IsPlan(legs, amounts, policy)
    ensures OneLegEach(legs)
    ensures forall a :: Get(Trades(legs), a) == if a in amounts && Kept(amounts[a], policy) then amounts[a] else 0.0
  {
    forall i, j | 0 <= i < j < |legs| ensures legs[i].asset != legs[j].asset {
      assert Sooner(legs[i], legs[j]);
      assert legs[i] in legs && legs[j] in legs;
    }
    TradesOfLegs(legs);
    forall a ensures Get(Trades(legs), a) == if a in amounts && Kept(amounts[a], policy) then amounts[a] else 0.0 {
      if a in amounts && Kept(amounts[a], policy) { assert LegFor(a, amounts[a]) in legs; }
    }
  }

  lemma PlanIsOfTargets(v: Valued, targets: Targets, policy: Policy, legs: seq<Leg>)
    requires WellFormed(targets) && IsPlan(legs, Amounts(v, targets, policy), policy)
    ensures forall i :: 0 <= i < |legs| ==> legs[i].asset in targets.assets
  {
    hide Amounts;
    AmountsAreOfTargets(v, targets, policy);
    forall i | 0 <= i < |legs| ensures legs[i].asset in targets.assets { assert legs[i] in legs; }
  }

  /** A rebalance filled at its prices: an asset with a leg is on its target to the cent, of a managed value that did
      not change, and one without did not move, being inside the band or too little from its target for an order. */
  lemma FilledIsOnTarget(
      p: Portfolio, prices: map<Asset, real>, targets: Targets, policy: Policy, legs: seq<Leg>, a: Asset)
    requires WellFormed(targets) && policy.allowSells && a in targets.pct
    requires PricesPositive(prices, legs) && IsPlan(legs, Amounts(Value(p, prices, targets), targets, policy), policy)
    ensures
      var values, after := AssetValues(p.holdings, prices, targets),
        AssetValues(FillAll(p, legs, prices).holdings, prices, targets);
      var managed := Sum(targets.assets, values) + p.cash;
      && a in values && a in after
      && if WorthMoving(values[a], managed, targets.pct[a], policy)
         then 100.0 * after[a] == managed * targets.pct[a] else after[a] == values[a]
  {
    hide Amounts, AssetValues, Sum, FillAll, Trades, WorthMoving, Weights, ToTarget, Kept, IsPlan, Get;
    var v, filled := Value(p, prices, targets), FillAll(p, legs, prices);
    PlanTrades(legs, Amounts(v, targets, policy), policy);
    PlanIsOfTargets(v, targets, policy, legs);
    FillAllMoves(p, legs, prices, targets);
    AssetValuesKeys(p.holdings, prices, targets);
    AssetValuesKeys(filled.holdings, prices, targets);
    AmountIsTheGap(v, targets, policy, a);
    Landed(v.assetValues[a], v.managedValue, targets.pct[a]);
  }

  lemma Landed(value: real, managed: real, pct: real)
    ensures 100.0 * (value + ToTarget(value, managed, pct)) == managed * pct
  {
  }

  /** An investment pro rata buys each target's share of the investable cash, and nothing without a target. */
  lemma ProrataInShares(v: Valued, targets: Targets, policy: Policy, a: Asset)
    requires !policy.allowSells && policy.cashPolicy == PRORATA
    ensures
      var total, amounts := Sum(targets.assets, targets.pct), Amounts(v, targets, policy);
      var spendable := v.cash - v.managedValue * (100.0 - total) / 100.0;
      && (a in amounts <==> spendable > 0.0 && total > 0.0 && a in targets.pct && targets.pct[a] > 0.0)
      && (a in amounts ==> amounts[a] * total == spendable * targets.pct[a])
  {
    hide Sum;
  }

  // ----- The fixed point -------------------------------------------------------------------

  /** Where sells are allowed: an asset with a leg lands on its target, and the others did not move. */
  lemma NothingLeftToRebalance(v: Valued, after: Valued, targets: Targets, policy: Policy, a: Asset)
    requires policy.allowSells && after.managedValue == v.managedValue
    requires v.assetValues.Keys == after.assetValues.Keys == targets.pct.Keys
    requires v.weights == Weights(v.assetValues, v.managedValue)
    requires after.weights == Weights(after.assetValues, after.managedValue)
    requires a in Amounts(after, targets, policy)
    requires
      var amounts := Amounts(v, targets, policy);
      after.assetValues[a] == v.assetValues[a] + if a in amounts && Kept(amounts[a], policy) then amounts[a] else 0.0
    ensures !Kept(Amounts(after, targets, policy)[a], policy)
  {
  }

  /** Reconciling again, at the same prices, what a plan produced asks for nothing: with sells for
      any drift band and any minimum, and under both cash policies when the minimum is zero. */
  lemma ReconcileIsAFixedPoint(
      p: Portfolio, prices: map<Asset, real>, targets: Targets, policy: Policy, legs: seq<Leg>, again: seq<Leg>)
    requires WellFormed(targets)
    requires policy.allowSells || (policy.minOrderFiat == 0.0 && NonNegativeTargets(targets))
    requires PricesPositive(prices, legs) && IsPlan(legs, Amounts(Value(p, prices, targets), targets, policy), policy)
    requires IsPlan(again, Amounts(Value(FillAll(p, legs, prices), prices, targets), targets, policy), policy)
    ensures again == []
  {
    hide Amounts, AssetValues, Sum, FillAll, Trades;
    var v, after := Value(p, prices, targets), Value(FillAll(p, legs, prices), prices, targets);
    var amounts := Amounts(v, targets, policy);
    PlanTrades(legs, amounts, policy);
    AmountsAreOfTargets(v, targets, policy);
    AmountsAreOfTargets(after, targets, policy);
    PlanIsOfTargets(v, targets, policy, legs);
    FillAllMoves(p, legs, prices, targets);
    ManagedValueStays(p, legs, prices, targets);
    AssetValuesKeys(p.holdings, prices, targets);
    AssetValuesKeys(FillAll(p, legs, prices).holdings, prices, targets);
    if again != [] {
      assert again[0] in again;
      var a := again[0].asset;
      if policy.allowSells {
        NothingLeftToRebalance(v, after, targets, policy, a);
      } else {
        SumAtMost(targets.assets, Trades(legs), amounts);
        SumAtMost(targets.assets, amounts, Trades(legs));
        NothingLeftToInvest(v, after, targets, policy);
      }
      assert false;
    }
  }

  lemma NothingLeftToInvest(v: Valued, after: Valued, targets: Targets, policy: Policy)
    requires WellFormed(targets) && NonNegativeTargets(targets) && !policy.allowSells
    requires Balanced(v, targets) && after.managedValue == v.managedValue
    requires after.cash == v.cash - Sum(targets.assets, Amounts(v, targets, policy))
    ensures Amounts(after, targets, policy) == map[]
  {
    hide Sum, Deltas, ReduceDrift, CashTarget;
    if policy.cashPolicy == PRORATA && Sum(targets.assets, targets.pct) <= 0.0 {
      assert AllocateProrata(InvestableCash(after, targets), targets) == map[];
    } else {
      hide AllocateProrata;
      ReduceDriftStaysWithin(v, targets);
      if policy.cashPolicy == PRORATA { ProrataStaysWithin(v, targets); }
      assert Excess(after, targets) <= 0.0;
      NoProrata(0.0, targets);
      NothingToSpend(0.0, Deltas(after, targets), targets);
    }
  }
}
