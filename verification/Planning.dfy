/** Sizing a plan's legs against what their pairs accept (core/execution.py `_plan`, `_free_cash`). */
module Planning {
  import opened Wrappers
  import opened Sequences
  import opened Sums
  import opened Precision
  import opened Valuation
  import opened Allocation
  import opened Reconcile
  import opened Reconciled

  /** A leg as it will be sent, or skipped with a note. Buys are placed in fiat, sells in volume. */
  datatype PlannedLeg = PlannedLeg(
    asset: Asset, side: Side, amount: real, minimum: Option<real>, skipped: bool, volume: Option<real>,
    meta: Option<PairMeta>)

  /** What was read of the account: the metadata of each asset's pair, and the holdings with their prices. */
  datatype Account = Account(
    metas: map<Asset, PairMeta>, holdings: map<Asset, real>, prices: map<Asset, real>, targets: Targets, floor: real)

  /** The volume of a sell: all of it for an exit, never more than is held. `None` is the ValueError. */
  function SellVolume(meta: PairMeta, leg: Leg, account: Account): Option<real> {
    var held := RoundVolume(meta, Get(account.holdings, leg.asset));
    if Get(account.targets.pct, leg.asset) == 0.0 then Some(held)
    else
      var sized := VolumeFromFiat(meta, leg.amountFiat, Get(account.prices, leg.asset));
      if sized.None? then None else Some(Min(sized.value, held))
  }

  function SizeLeg(leg: Leg, account: Account): Option<PlannedLeg> {
    if leg.asset !in account.metas || !account.metas[leg.asset].tradable then
      Some(PlannedLeg(leg.asset, leg.side, leg.amountFiat, None, true, None, None))
    else
      var meta := account.metas[leg.asset];
      var amount := RoundCost(meta, leg.amountFiat);
      var minimum := Max(MinimumFiat(meta, Get(account.prices, leg.asset)), account.floor);
      if leg.side == BUY then
        Some(PlannedLeg(leg.asset, BUY, amount, Some(minimum), amount < minimum, None, Some(meta)))
      else
        var volume := SellVolume(meta, leg, account);
        if volume.None? then None
        else Some(PlannedLeg(leg.asset, SELL, amount, Some(minimum), amount < minimum, volume, Some(meta)))
  }

  function SizeAll(legs: seq<Leg>, account: Account): Option<seq<PlannedLeg>> {
    if legs == [] then Some([])
    else
      var first := SizeLeg(legs[0], account);
      var rest := SizeAll(legs[1..], account);
      if first.None? || rest.None? then None else Some([first.value] + rest.value)
  }

  /** `None` when a price could not size a sell: the evaluation ends in ERROR with nothing sent. */
  method PlanLegs(legs: seq<Leg>, account: Account) returns (planned: Option<seq<PlannedLeg>>)
    ensures planned == SizeAll(legs, account)
  {
    var sized: seq<PlannedLeg> := [];
    assert legs[0..] == legs;
    for i := 0 to |legs|
      invariant SizeAll(legs, account).None? <==> SizeAll(legs[i..], account).None?
      invariant SizeAll(legs, account).Some? ==>
        SizeAll(legs, account).value == sized + SizeAll(legs[i..], account).value
    {
      assert legs[i..][1..] == legs[i + 1..];
      var leg := SizeLeg(legs[i], account);
      if leg.None? {
        return None;
      }
      sized := sized + [leg.value];
    }
    assert SizeAll(legs[|legs|..], account) == Some([]);
    assert sized + [] == sized;
    return Some(sized);
  }

  /** Too small for Kraken or for the user. */
  predicate TooSmall(amount: real, meta: PairMeta, price: real, floor: real) {
    amount < meta.costMin || amount < meta.orderMin * price || amount < floor
  }

  /** The amounts below it are exactly those too small. */
  ghost predicate IsMinimum(minimum: Option<real>, meta: PairMeta, price: real, floor: real) {
    minimum.Some? && forall x :: x < minimum.value <==> TooSmall(x, meta, price, floor)
  }

  lemma SizeLegMinimum(leg: Leg, account: Account)
    requires SizeLeg(leg, account).Some? && SizeLeg(leg, account).value.meta.Some?
    ensures
      var planned := SizeLeg(leg, account).value;
      IsMinimum(planned.minimum, planned.meta.value, Get(account.prices, leg.asset), account.floor)
  {
    hide RoundDown, SellVolume;
  }

  /** What a planned leg owes to the leg it was sized from: its amount on the pair's grid, less than one of
      its smallest amounts below; skipped exactly when Kraken does not trade the pair or the amount is too
      small; a minimum below which every amount is too small, and no other; and a sell's volume on the pair's
      grid, no more than is held. */
  ghost predicate Sized(leg: Leg, planned: PlannedLeg, account: Account) {
    && planned.asset == leg.asset && planned.side == leg.side
    && 0.0 <= planned.amount <= leg.amountFiat
    && (planned.meta.None? <==> leg.asset !in account.metas || !account.metas[leg.asset].tradable)
    && (planned.meta.None? ==> planned.skipped)
    && (planned.meta.Some? ==>
          var meta := planned.meta.value;
          && meta == account.metas[leg.asset]
          && (planned.skipped <==> TooSmall(planned.amount, meta, Get(account.prices, leg.asset), account.floor))
          && IsMinimum(planned.minimum, meta, Get(account.prices, leg.asset), account.floor)
          && OnGrid(planned.amount, meta.costDecimals) && leg.amountFiat < planned.amount + Quantum(meta.costDecimals)
          && (planned.side == SELL ==>
                && planned.volume.Some? && planned.volume.value <= Get(account.holdings, leg.asset)
                && OnGrid(planned.volume.value, meta.volumeDecimals)))
  }

  lemma SizeLegIsSound(leg: Leg, account: Account)
    requires leg.amountFiat >= 0.0 && Get(account.holdings, leg.asset) >= 0.0
    requires SizeLeg(leg, account).Some?
    ensures Sized(leg, SizeLeg(leg, account).value, account)
  {
    hide RoundDown, OnGrid, Quantum;
    if leg.asset in account.metas {
      var meta := account.metas[leg.asset];
      RoundDownIsGreatest(leg.amountFiat, meta.costDecimals);
      RoundDownIsGreatest(Get(account.holdings, leg.asset), meta.volumeDecimals);
      if meta.tradable {
        SizeLegMinimum(leg, account);
        if leg.side == SELL { SellVolumeOnGrid(meta, leg, account); }
      }
    }
  }

  lemma SellVolumeOnGrid(meta: PairMeta, leg: Leg, account: Account)
    requires leg.amountFiat >= 0.0 && Get(account.holdings, leg.asset) >= 0.0 && SellVolume(meta, leg, account).Some?
    ensures OnGrid(SellVolume(meta, leg, account).value, meta.volumeDecimals)
  {
    hide RoundDown, OnGrid;
    var price := Get(account.prices, leg.asset);
    RoundDownIsGreatest(Get(account.holdings, leg.asset), meta.volumeDecimals);
    if price > 0.0 {
      assert leg.amountFiat / price >= 0.0;
      RoundDownIsGreatest(leg.amountFiat / price, meta.volumeDecimals);
    }
  }

  lemma {:induction false} SizeAllIsSound(legs: seq<Leg>, account: Account)
    requires forall i :: 0 <= i < |legs| ==> legs[i].amountFiat >= 0.0 && Get(account.holdings, legs[i].asset) >= 0.0
    requires SizeAll(legs, account).Some?
    ensures
      var planned := SizeAll(legs, account).value;
      |planned| == |legs| && forall i :: 0 <= i < |legs| ==> Sized(legs[i], planned[i], account)
  {
    if legs != [] {
      SizeLegIsSound(legs[0], account);
      SizeAllIsSound(legs[1..], account);
      forall i | 0 <= i < |legs| ensures Sized(legs[i], SizeAll(legs, account).value[i], account) {
        if i > 0 { assert legs[i] == legs[1..][i - 1]; }
      }
    }
  }

  /** An exit sells everything the pair can express. Any other sell is worth at most its amount, and short of
      it by less than a quantum of volume, unless that is more than is held. */
  lemma ExitSellsAll(leg: Leg, account: Account)
    requires leg.side == SELL && leg.asset in account.metas && account.metas[leg.asset].tradable
    requires Get(account.holdings, leg.asset) >= 0.0 && leg.amountFiat >= 0.0 && SizeLeg(leg, account).Some?
    ensures
      var meta := account.metas[leg.asset];
      var held := Get(account.holdings, leg.asset);
      var price := Get(account.prices, leg.asset);
      var volume := SizeLeg(leg, account).value.volume;
      volume.Some? &&
      if Get(account.targets.pct, leg.asset) == 0.0
      then held - Quantum(meta.volumeDecimals) < volume.value <= held
      else
        && volume.value * price <= leg.amountFiat
        && (|| leg.amountFiat < (volume.value + Quantum(meta.volumeDecimals)) * price
            || held < volume.value + Quantum(meta.volumeDecimals))
  {
    hide RoundDown;
    var meta := account.metas[leg.asset];
    var price := Get(account.prices, leg.asset);
    RoundDownIsGreatest(Get(account.holdings, leg.asset), meta.volumeDecimals);
    if Get(account.targets.pct, leg.asset) != 0.0 {
      var volume, sized := SizeLeg(leg, account).value.volume.value, RoundVolume(meta, leg.amountFiat / price);
      Worthwhile(volume, sized, leg.amountFiat, price, meta);
      JustWorth(sized, leg.amountFiat, price, meta);
    }
  }

  lemma Worthwhile(volume: real, sized: real, amount: real, price: real, meta: PairMeta)
    requires price > 0.0 && amount >= 0.0 && volume <= sized && sized == RoundVolume(meta, amount / price)
    ensures volume * price <= amount
  {
    hide RoundDown;
    assert amount / price >= 0.0;
    RoundDownIsGreatest(amount / price, meta.volumeDecimals);
    assert amount / price * price == amount;
    Times(volume, amount / price, price);
  }

  lemma JustWorth(sized: real, amount: real, price: real, meta: PairMeta)
    requires price > 0.0 && amount >= 0.0 && sized == RoundVolume(meta, amount / price)
    ensures amount < (sized + Quantum(meta.volumeDecimals)) * price
  {
    hide RoundDown, Quantum;
    assert amount / price >= 0.0;
    RoundDownIsGreatest(amount / price, meta.volumeDecimals);
    assert amount / price * price == amount;
    Times(sized + Quantum(meta.volumeDecimals), amount / price, price);
  }

  // ----- An investment fits its cash ---------------------------------------------------

  function Asked(buys: seq<PlannedLeg>): real {
    if buys == [] then 0.0 else (if buys[0].skipped then 0.0 else buys[0].amount) + Asked(buys[1..])
  }

  lemma {:induction false} AskedWithinTrades(
      legs: seq<Leg>, planned: seq<PlannedLeg>, assets: seq<Asset>, account: Account)
    requires NoRepeats(assets) && OneLegEach(legs) && |planned| == |legs|
    requires forall i :: 0 <= i < |legs| ==>
      legs[i].side == BUY && legs[i].asset in assets && Sized(legs[i], planned[i], account)
    ensures Asked(planned) <= Sum(assets, Trades(legs))
  {
    if legs == [] {
      SumOfNone(assets);
    } else {
      AskedWithinTrades(legs[1..], planned[1..], assets, account);
      TradesOfLegs(legs[1..]);
      SumUpdate(assets, Trades(legs[1..]), legs[0].asset, Signed(legs[0]));
    }
  }

  /** Whatever the policy, an investment's buys together ask for no more than the free cash. */
  lemma InvestmentFits(v: Valued, policy: Policy, legs: seq<Leg>, account: Account)
    requires WellFormed(account.targets) && Balanced(v, account.targets) && NonNegativeTargets(account.targets)
    requires !policy.allowSells && policy.minOrderFiat == 0.0 && Sum(account.targets.assets, account.targets.pct) > 0.0
    requires IsPlan(legs, Amounts(v, account.targets, policy), policy)
    requires forall i :: 0 <= i < |legs| ==> Get(account.holdings, legs[i].asset) >= 0.0
    requires SizeAll(legs, account).Some?
    ensures forall i :: 0 <= i < |legs| ==> legs[i].side == BUY
    ensures Asked(SizeAll(legs, account).value) <= InvestableCash(v, account.targets)
  {
    hide Amounts, Sum, SizeAll, InvestableCash, Trades, Asked;
    var amounts, assets := Amounts(v, account.targets, policy), account.targets.assets;
    InvestmentConserves(v, account.targets, policy);
    AmountsAreOfTargets(v, account.targets, policy);
    forall i | 0 <= i < |legs| ensures legs[i].side == BUY && legs[i].amountFiat >= 0.0 && legs[i].asset in assets {
      assert legs[i] in legs;
    }
    PlanTrades(legs, amounts, policy);
    SizeAllIsSound(legs, account);
    AskedWithinTrades(legs, SizeAll(legs, account).value, assets, account);
    SumAtMost(assets, Trades(legs), amounts);
  }
}
