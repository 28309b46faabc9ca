/** From an account as it was read to a plan ready to send (core/execution.py `_plan`, `_free_cash`). */
module Plans {
  import opened Wrappers
  import opened Sums
  import opened Precision
  import opened Valuation
  import opened Allocation
  import opened Reconcile
  import opened Planning
  import opened Money

  /** The user's side: targets, the policy of the operation, and the smallest order wanted. */
  datatype Setup = Setup(targets: Targets, policy: Policy, floor: real)

  /** The managed holdings, their prices and the cash. */
  datatype View = View(holdings: map<Asset, real>, prices: map<Asset, real>, cash: real)

  /** What Kraken was asked for. `None` is a read it did not answer. */
  datatype Reads = Reads(view: Option<View>, metas: Option<map<Asset, PairMeta>>, places: Option<nat>)

  /** A plan as the sender receives it. */
  datatype Planned = Planned(legs: seq<PlannedLeg>, freeCash: real, fiatPlaces: nat)

  /** What planning ends with: a plan, a read that failed, or a price no sell can be sized at. */
  datatype PlanReading = Read(planned: Planned) | Unavailable | Unsized

  /** What planning guarantees of a leg that is not skipped. */
  ghost predicate Ready(leg: PlannedLeg) {
    Sendable(leg) && (!leg.skipped ==>
      && leg.minimum.value <= leg.amount && OnGrid(leg.amount, leg.meta.value.costDecimals)
      && (leg.side == SELL ==> leg.volume.Some?))
  }

  ghost predicate AllReady(legs: seq<PlannedLeg>) {
    forall i :: 0 <= i < |legs| ==> Ready(legs[i])
  }

  predicate Complete(setup: Setup, got: Reads) {
    && got.view.Some? && Unpriced(got.view.value.prices, setup.targets.assets).None?
    && got.metas.Some? && got.places.Some?
  }

  function ValueOf(setup: Setup, view: View): Valued {
    ValuedAt(AssetValues(view.holdings, view.prices, setup.targets), setup.targets.assets, view.cash)
  }

  function AccountOf(setup: Setup, got: Reads): Account
    requires Complete(setup, got)
  {
    Account(got.metas.value, got.view.value.holdings, got.view.value.prices, setup.targets, setup.floor)
  }

  /** The engine's plan for what was read. */
  ghost predicate IsPlanOf(setup: Setup, got: Reads, legs: seq<Leg>)
    requires Complete(setup, got)
  {
    IsPlan(legs, Amounts(ValueOf(setup, got.view.value), setup.targets, setup.policy), setup.policy)
  }

  /** The engine's plan, sized; and the cash above its target. */
  ghost predicate IsPlanned(setup: Setup, got: Reads, planned: Planned) {
    && Complete(setup, got)
    && (exists legs :: IsPlanOf(setup, got, legs) && SizeAll(legs, AccountOf(setup, got)) == Some(planned.legs))
    && planned.freeCash == InvestableCash(ValueOf(setup, got.view.value), setup.targets)
    && planned.fiatPlaces == got.places.value
  }

  method MakePlan(setup: Setup, got: Reads) returns (reading: PlanReading)
    requires WellFormed(setup.targets)
    ensures reading.Unavailable? <==> !Complete(setup, got)
    ensures reading.Read? ==> IsPlanned(setup, got, reading.planned)
    ensures reading.Unsized? ==> exists legs :: IsPlanOf(setup, got, legs) && SizeAll(legs, AccountOf(setup, got)).None?
  {
    hide SizeAll, Unpriced, IsPlan, Amounts, ValuedAt, AssetValues, InvestableCash;
    if got.view.None? {
      return Unavailable;
    }
    var view := got.view.value;
    if Unpriced(view.prices, setup.targets.assets).Some? || got.metas.None? || got.places.None? {
      return Unavailable;
    }
    var plan := Reconcile.Reconcile(view.holdings, view.prices, setup.targets, view.cash, setup.policy);
    assert IsPlanOf(setup, got, plan.value);
    var sized := PlanLegs(plan.value, AccountOf(setup, got));
    if sized.None? {
      return Unsized;
    }
    return Read(Planned(sized.value, InvestableCash(ValueOf(setup, view), setup.targets), got.places.value));
  }

  lemma SizedIsReady(leg: Leg, account: Account)
    requires leg.amountFiat >= 0.0 && account.floor >= 0.0 && SizeLeg(leg, account).Some?
    ensures Ready(SizeLeg(leg, account).value)
  {
    hide RoundDown, OnGrid;
    if leg.asset in account.metas { RoundDownIsGreatest(leg.amountFiat, account.metas[leg.asset].costDecimals); }
  }

  lemma {:induction false} SizedAreReady(legs: seq<Leg>, account: Account)
    requires account.floor >= 0.0 && SizeAll(legs, account).Some?
    requires forall i :: 0 <= i < |legs| ==> legs[i].amountFiat >= 0.0
    ensures AllReady(SizeAll(legs, account).value)
  {
    hide SizeLeg, Ready;
    if legs != [] {
      SizedIsReady(legs[0], account);
      SizedAreReady(legs[1..], account);
    }
  }

  /** Every leg a plan would send is on its pair's grid and at or above its minimum of zero or more. */
  lemma PlannedIsReady(setup: Setup, got: Reads, planned: Planned)
    requires setup.floor >= 0.0 && IsPlanned(setup, got, planned)
    ensures AllReady(planned.legs)
  {
    hide SizeAll, AllReady, Amounts, ValueOf;
    var legs :| IsPlanOf(setup, got, legs) && SizeAll(legs, AccountOf(setup, got)) == Some(planned.legs);
    assert forall i :: 0 <= i < |legs| ==> legs[i] in legs;
    SizedAreReady(legs, AccountOf(setup, got));
  }

  /** No sell of a plan asks for more than was held, and an exit asks for all the pair can express. */
  lemma SellsAreHeld(setup: Setup, got: Reads, planned: Planned, i: nat)
    requires IsPlanned(setup, got, planned) && i < |planned.legs|
    requires planned.legs[i].side == SELL && !planned.legs[i].skipped
    requires forall a :: Get(got.view.value.holdings, a) >= 0.0
    ensures
      var leg := planned.legs[i];
      var held := Get(got.view.value.holdings, leg.asset);
      && leg.volume.Some? && leg.volume.value <= held
      && leg.meta.Some? && OnGrid(leg.volume.value, leg.meta.value.volumeDecimals)
      && (Get(setup.targets.pct, leg.asset) == 0.0 ==> held - Quantum(leg.meta.value.volumeDecimals) < leg.volume.value)
  {
    hide SizeAll, Amounts, ValueOf, Unpriced, RoundDown, OnGrid, Quantum, Sized;
    var account := AccountOf(setup, got);
    var legs :| IsPlanOf(setup, got, legs) && SizeAll(legs, account) == Some(planned.legs);
    assert forall k :: 0 <= k < |legs| ==> legs[k] in legs;
    SizeAllIsSound(legs, account);
    SizedOneByOne(legs, account, planned.legs, i);
    assert Sized(legs[i], planned.legs[i], account);
    SellIsHeld(legs[i], account);
  }

  lemma {:induction false} SizedOneByOne(legs: seq<Leg>, account: Account, planned: seq<PlannedLeg>, i: nat)
    requires SizeAll(legs, account) == Some(planned) && i < |planned|
    ensures |planned| == |legs| && SizeLeg(legs[i], account) == Some(planned[i])
  {
    hide SizeLeg;
    if i > 0 {
      SizedOneByOne(legs[1..], account, planned[1..], i - 1);
    } else if |legs| > 1 {
      SizedOneByOne(legs[1..], account, planned[1..], 0);
    }
  }

  lemma SellIsHeld(leg: Leg, account: Account)
    requires leg.side == SELL && leg.amountFiat >= 0.0 && Get(account.holdings, leg.asset) >= 0.0
    requires SizeLeg(leg, account).Some? && !SizeLeg(leg, account).value.skipped
    ensures
      var planned := SizeLeg(leg, account).value;
      var held := Get(account.holdings, leg.asset);
      && planned.side == SELL && planned.asset == leg.asset && planned.volume.Some? && planned.volume.value <= held
      && planned.meta.Some? && OnGrid(planned.volume.value, planned.meta.value.volumeDecimals)
      && (Get(account.targets.pct, leg.asset) == 0.0 ==>
            held - Quantum(planned.meta.value.volumeDecimals) < planned.volume.value)
  {
    hide RoundDown, OnGrid;
    SizeLegIsSound(leg, account);
    ExitSellsAll(leg, account);
  }

  /** The minimum of a planned leg is Kraken's for its pair at the price read, or the user's floor. */
  lemma MinimumIsKrakens(setup: Setup, got: Reads, planned: Planned, i: nat)
    requires IsPlanned(setup, got, planned) && i < |planned.legs| && planned.legs[i].meta.Some?
    ensures
      var leg := planned.legs[i];
      IsMinimum(leg.minimum, leg.meta.value, Get(got.view.value.prices, leg.asset), setup.floor)
  {
    hide SizeAll, IsPlanOf, ValueOf, Unpriced, SizeLeg, IsMinimum, InvestableCash;
    var account := AccountOf(setup, got);
    var legs: seq<Leg> :| IsPlanOf(setup, got, legs) && SizeAll(legs, account) == Some(planned.legs);
    SizedOneByOne(legs, account, planned.legs, i);
    SizeLegMinimum(legs[i], account);
    SizedOfItsAsset(legs[i], account);
  }

  ghost predicate OneEach(legs: seq<PlannedLeg>) {
    forall i, j :: 0 <= i < j < |legs| ==> legs[i].asset != legs[j].asset
  }

  /** A plan has one leg of an asset at most. */
  lemma PlanHasOneEach(setup: Setup, got: Reads, planned: Planned)
    requires IsPlanned(setup, got, planned)
    ensures OneEach(planned.legs)
  {
    hide SizeAll, Amounts, ValueOf, Unpriced, SizeLeg;
    var account := AccountOf(setup, got);
    var legs: seq<Leg> :| IsPlanOf(setup, got, legs) && SizeAll(legs, account) == Some(planned.legs);
    forall i, j | 0 <= i < j < |legs| ensures legs[i].asset != legs[j].asset {
      assert Sooner(legs[i], legs[j]) && legs[i] in legs && legs[j] in legs;
    }
    forall i | 0 <= i < |planned.legs| ensures |legs| == |planned.legs| && planned.legs[i].asset == legs[i].asset {
      SizedOneByOne(legs, account, planned.legs, i);
      SizedOfItsAsset(legs[i], account);
    }
  }

  lemma SizedOfItsAsset(leg: Leg, account: Account)
    ensures SizeLeg(leg, account).Some? ==> SizeLeg(leg, account).value.asset == leg.asset
  {
    hide RoundDown, SellVolume;
  }

  function OnSide(legs: seq<PlannedLeg>, side: Side): seq<PlannedLeg> {
    if legs == [] then []
    else OnSide(legs[..|legs| - 1], side) + (if legs[|legs| - 1].side == side then [legs[|legs| - 1]] else [])
  }

  /** The legs of one side are legs of the plan, in its order. */
  lemma {:induction false} OnSideIsOf(legs: seq<PlannedLeg>, side: Side, i: nat) returns (j: nat)
    requires i < |OnSide(legs, side)|
    ensures j < |legs| && OnSide(legs, side)[i] == legs[j] && legs[j].side == side && i == |OnSide(legs[..j], side)|
  {
    var last := |legs| - 1;
    if i < |OnSide(legs[..last], side)| {
      j := OnSideIsOf(legs[..last], side, i);
      assert legs[..last][..j] == legs[..j];
    } else {
      j := last;
    }
  }

  lemma {:induction false} OnSideGrows(legs: seq<PlannedLeg>, side: Side, i: nat)
    requires i <= |legs|
    ensures OnSide(legs[..i], side) <= OnSide(legs, side)
    decreases |legs|
  {
    if i < |legs| {
      assert legs[..|legs| - 1][..i] == legs[..i];
      OnSideGrows(legs[..|legs| - 1], side, i);
    } else {
      assert legs[..i] == legs;
    }
  }

  lemma {:induction false} AllOnSide(legs: seq<PlannedLeg>, side: Side, other: Side)
    requires side != other && forall i :: 0 <= i < |legs| ==> legs[i].side == side
    ensures OnSide(legs, side) == legs && OnSide(legs, other) == []
  {
    if legs != [] { AllOnSide(legs[..|legs| - 1], side, other); }
  }

  lemma ValueIsBalanced(setup: Setup, view: View)
    ensures Balanced(ValueOf(setup, view), setup.targets)
  {
  }

  lemma {:induction false} SidesKept(legs: seq<Leg>, account: Account, planned: seq<PlannedLeg>)
    requires SizeAll(legs, account) == Some(planned)
    ensures |planned| == |legs| && forall i :: 0 <= i < |legs| ==> planned[i].side == legs[i].side
  {
    if legs != [] { SidesKept(legs[1..], account, planned[1..]); }
  }

  /** An investment sells nothing, and its buys fit the free cash as they are: none is shrunk. */
  lemma InvestmentIsSentWhole(setup: Setup, got: Reads, planned: Planned)
    requires setup.floor >= 0.0 && IsPlanned(setup, got, planned)
    requires WellFormed(setup.targets) && NonNegativeTargets(setup.targets)
    requires Sum(setup.targets.assets, setup.targets.pct) > 0.0
    requires !setup.policy.allowSells && setup.policy.minOrderFiat == 0.0
    requires forall a :: Get(got.view.value.holdings, a) >= 0.0
    ensures OnSide(planned.legs, SELL) == [] && OnSide(planned.legs, BUY) == planned.legs
    ensures AllSendable(planned.legs) && Within(planned.legs, planned.freeCash) == Some(planned.legs)
  {
    hide SizeAll, Sum, Asked, InvestableCash, OnGrid, Amounts, ValueOf, OnSide, IsPlan, Sized, Unpriced;
    PlannedIsReady(setup, got, planned);
    var account := AccountOf(setup, got);
    var legs :| IsPlanOf(setup, got, legs) && SizeAll(legs, account) == Some(planned.legs);
    ValueIsBalanced(setup, got.view.value);
    InvestmentFits(ValueOf(setup, got.view.value), setup.policy, legs, account);
    SidesKept(legs, account, planned.legs);
    AllOnSide(planned.legs, BUY, SELL);
  }
}
