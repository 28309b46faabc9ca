/** Where available cash goes (engine/allocation.py). */
module Allocation {
  import opened Sequences
  import opened Sums
  import opened Valuation

  function AllocateProrata(amount: real, targets: Targets): map<Asset, real> {
    var total := Sum(targets.assets, targets.pct);
    if amount <= 0.0 || total <= 0.0 then map[]
    else map a | a in targets.pct && targets.pct[a] > 0.0 :: amount * targets.pct[a] / total
  }

  ghost predicate NonNegativeTargets(targets: Targets) {
    forall a :: a in targets.pct ==> targets.pct[a] >= 0.0
  }

  /** Every cent is spread, when there is anything to spread it over. */
  lemma ProrataSpendsAll(amount: real, targets: Targets)
    requires WellFormed(targets) && NonNegativeTargets(targets)
    requires amount > 0.0 && Sum(targets.assets, targets.pct) > 0.0
    ensures Sum(targets.assets, AllocateProrata(amount, targets)) == amount
  {
    hide Sum;
    var total := Sum(targets.assets, targets.pct);
    var share := p => amount * p / total;
    ProrataIsAdditive(amount, total, share);
    SumMapped(targets.assets, AllocateProrata(amount, targets), share, targets.pct);
  }

  lemma ProrataIsAdditive(amount: real, total: real, share: real -> real)
    requires total > 0.0 && forall p :: share(p) == amount * p / total
    ensures Additive(share) && share(total) == amount
  {
    forall x, y ensures share(x) + share(y) == share(Plus(x, y)) { assert amount * (x + y) == amount * x + amount * y; }
  }

  // ----- REDUCE_DRIFT -----------------------------------------------------------

  /** The sort key of the source: the bigger shortfall first, the asset code on a tie. */
  predicate Before(deltas: map<Asset, real>, a: Asset, b: Asset) {
    Get(deltas, a) > Get(deltas, b) || (Get(deltas, a) == Get(deltas, b) && a < b)
  }

  function Insert(deltas: map<Asset, real>, a: Asset, order: seq<Asset>): seq<Asset> {
    if order == [] || Before(deltas, a, order[0]) then [a] + order
    else [order[0]] + Insert(deltas, a, order[1..])
  }

  /** The assets short of their target, biggest shortfall first. */
  function Shortfalls(deltas: map<Asset, real>, assets: seq<Asset>): seq<Asset> {
    if assets == [] then []
    else if Get(deltas, assets[0]) > 0.0 then Insert(deltas, assets[0], Shortfalls(deltas, assets[1..]))
    else Shortfalls(deltas, assets[1..])
  }

  ghost predicate Ordered(deltas: map<Asset, real>, order: seq<Asset>) {
    forall i, j :: 0 <= i < j < |order| ==> Before(deltas, order[i], order[j])
  }

  lemma {:induction false} InsertOrders(deltas: map<Asset, real>, a: Asset, order: seq<Asset>)
    requires Ordered(deltas, order) && a !in order
    ensures Ordered(deltas, Insert(deltas, a, order))
    ensures forall b :: b in Insert(deltas, a, order) <==> b == a || b in order
  {
    if order == [] || Before(deltas, a, order[0]) {
    } else {
      InsertOrders(deltas, a, order[1..]);
      assert order == [order[0]] + order[1..];
      assert forall b :: b in order[1..] ==> Before(deltas, order[0], b);
    }
  }

  lemma {:induction false} ShortfallsOrdered(deltas: map<Asset, real>, assets: seq<Asset>)
    requires NoRepeats(assets)
    ensures Ordered(deltas, Shortfalls(deltas, assets)) && NoRepeats(Shortfalls(deltas, assets))
    ensures forall a :: a in Shortfalls(deltas, assets) <==> a in assets && Get(deltas, a) > 0.0
  {
    if assets != [] {
      ShortfallsOrdered(deltas, assets[1..]);
      assert assets == [assets[0]] + assets[1..];
      if Get(deltas, assets[0]) > 0.0 { InsertOrders(deltas, assets[0], Shortfalls(deltas, assets[1..])); }
    }
  }

  /** As much of the shortfall as remains. */
  function Take(deltas: map<Asset, real>, a: Asset, remaining: real): real {
    if Get(deltas, a) <= remaining then Get(deltas, a) else remaining
  }

  /** The greedy pass: each takes its shortfall while anything remains. */
  function Greedy(order: seq<Asset>, deltas: map<Asset, real>, remaining: real): map<Asset, real> {
    if order == [] || remaining <= 0.0 then map[]
    else
      var take := Take(deltas, order[0], remaining);
      Greedy(order[1..], deltas, remaining - take)[order[0] := take]
  }

  /** What the greedy pass leaves: nothing, unless the shortfalls are all filled. */
  function Leftover(order: seq<Asset>, deltas: map<Asset, real>, remaining: real): real {
    if order == [] || remaining <= 0.0 then remaining
    else
      var take := Take(deltas, order[0], remaining);
      Leftover(order[1..], deltas, remaining - take)
  }

  function Merge(x: map<Asset, real>, y: map<Asset, real>): map<Asset, real> {
    map a | a in x.Keys + y.Keys :: Get(x, a) + Get(y, a)
  }

  function ReduceDrift(amount: real, deltas: map<Asset, real>, targets: Targets): map<Asset, real> {
    if amount <= 0.0 then map[]
    else
      var order := Shortfalls(deltas, targets.assets);
      Merge(Greedy(order, deltas, amount), AllocateProrata(Leftover(order, deltas, amount), targets))
  }

  lemma GreedyStep(order: seq<Asset>, i: nat, deltas: map<Asset, real>, remaining: real)
    requires i <= |order|
    ensures i < |order| && remaining > 0.0 ==>
      var rest := remaining - Take(deltas, order[i], remaining);
      && Greedy(order[i..], deltas, remaining)
        == Greedy(order[i + 1..], deltas, rest)[order[i] := Take(deltas, order[i], remaining)]
      && Leftover(order[i..], deltas, remaining) == Leftover(order[i + 1..], deltas, rest)
    ensures i == |order| || remaining <= 0.0 ==>
      Greedy(order[i..], deltas, remaining) == map[] && Leftover(order[i..], deltas, remaining) == remaining
  {
    if i < |order| { assert order[i..][1..] == order[i + 1..]; }
  }

  method AllocateReduceDrift(amount: real, deltas: map<Asset, real>, targets: Targets) returns (given: map<Asset, real>)
    requires WellFormed(targets)
    ensures given == ReduceDrift(amount, deltas, targets)
  {
    hide AllocateProrata, Shortfalls, Greedy, Leftover, Take;
    if amount <= 0.0 {
      return map[];
    }
    var order := Shortfalls(deltas, targets.assets);
    ShortfallsOrdered(deltas, targets.assets);
    given := map[];
    var remaining := amount;
    var i := 0;
    while i < |order| && remaining > 0.0
      invariant 0 <= i <= |order|
      invariant forall j :: i <= j < |order| ==> order[j] !in given
      invariant Leftover(order, deltas, amount) == Leftover(order[i..], deltas, remaining)
      invariant Greedy(order, deltas, amount) == Greedy(order[i..], deltas, remaining) + given
    {
      GreedyStep(order, i, deltas, remaining);
      var take := Take(deltas, order[i], remaining);
      given := given[order[i] := take];
      remaining := remaining - take;
      i := i + 1;
    }
    GreedyStep(order, i, deltas, remaining);
    NoProrata(remaining, targets);
    if remaining > 0.0 {
      given := AddExtras(given, AllocateProrata(remaining, targets), targets.assets);
    }
  }

  lemma NoProrata(amount: real, targets: Targets)
    requires WellFormed(targets)
    ensures amount <= 0.0 ==> AllocateProrata(amount, targets) == map[]
    ensures forall a :: a in AllocateProrata(amount, targets) ==> a in targets.assets
  {
  }

  method AddExtras(greedy: map<Asset, real>, extras: map<Asset, real>, keys: seq<Asset>)
    returns (given: map<Asset, real>)
    requires NoRepeats(keys) && forall a :: a in extras ==> a in keys
    ensures given == Merge(greedy, extras)
  {
    given := greedy;
    for k := 0 to |keys|
      invariant greedy.Keys <= given.Keys <= greedy.Keys + extras.Keys
      invariant forall a :: a !in extras ==> Get(given, a) == Get(greedy, a)
      invariant forall j :: 0 <= j < k && keys[j] in extras ==>
        keys[j] in given && given[keys[j]] == Get(greedy, keys[j]) + extras[keys[j]]
      invariant forall j :: k <= j < |keys| ==> Get(given, keys[j]) == Get(greedy, keys[j])
    {
      if keys[k] in extras {
        given := given[keys[k] := Get(given, keys[k]) + extras[keys[k]]];
      }
    }
    forall a | a in extras ensures a in given && given[a] == Get(greedy, a) + extras[a] {
      var j :| 0 <= j < |keys| && keys[j] == a;
    }
  }

  lemma {:induction false} GreedyOfOrder(order: seq<Asset>, deltas: map<Asset, real>, remaining: real)
    ensures forall a :: a in Greedy(order, deltas, remaining) ==> a in order
  {
    if order != [] && remaining > 0.0 {
      GreedyOfOrder(order[1..], deltas, remaining - Take(deltas, order[0], remaining));
    }
  }

  lemma ReduceDriftOfTargets(amount: real, deltas: map<Asset, real>, targets: Targets)
    requires WellFormed(targets)
    ensures forall a :: a in ReduceDrift(amount, deltas, targets) ==> a in targets.assets
  {
    hide Greedy, Leftover, Shortfalls, AllocateProrata;
    var order := Shortfalls(deltas, targets.assets);
    ShortfallsOrdered(deltas, targets.assets);
    GreedyOfOrder(order, deltas, amount);
    NoProrata(Leftover(order, deltas, amount), targets);
  }

  // ----- What the allocation is worth ---------------------------------------------

  ghost predicate Short(deltas: map<Asset, real>, order: seq<Asset>) {
    NoRepeats(order) && forall a :: a in order ==> Get(deltas, a) > 0.0
  }

  lemma {:induction false} GreedyBounds(order: seq<Asset>, deltas: map<Asset, real>, remaining: real)
    requires Short(deltas, order) && remaining >= 0.0
    ensures
      var given := Greedy(order, deltas, remaining);
      var left := Leftover(order, deltas, remaining);
      && (forall a :: a in given ==> a in order && 0.0 < given[a] <= Get(deltas, a))
      && left >= 0.0
      && (left > 0.0 ==> forall a :: a in order ==> a in given && given[a] == Get(deltas, a))
  {
    if order != [] && remaining > 0.0 {
      assert order == [order[0]] + order[1..];
      GreedyBounds(order[1..], deltas, remaining - Take(deltas, order[0], remaining));
    }
  }

  lemma {:induction false} GreedySum(assets: seq<Asset>, order: seq<Asset>, deltas: map<Asset, real>, remaining: real)
    requires NoRepeats(assets) && NoRepeats(order) && forall i :: 0 <= i < |order| ==> order[i] in assets
    ensures Sum(assets, Greedy(order, deltas, remaining)) + Leftover(order, deltas, remaining) == remaining
  {
    hide Take;
    if order == [] || remaining <= 0.0 {
      SumOfNone(assets);
    } else {
      var take := Take(deltas, order[0], remaining);
      var rest := Greedy(order[1..], deltas, remaining - take);
      GreedyOfOrder(order[1..], deltas, remaining - take);
      GreedySum(assets, order[1..], deltas, remaining - take);
      SumUpdate(assets, rest, order[0], take);
    }
  }

  /** The greedy pass gives no asset more than it lacks, spends what it can, and leaves something
      only when nothing is short any more. */
  lemma GreedySpends(assets: seq<Asset>, order: seq<Asset>, deltas: map<Asset, real>, remaining: real)
    requires NoRepeats(assets) && Short(deltas, order) && remaining >= 0.0
    requires forall a :: a in order ==> a in assets
    ensures
      var given := Greedy(order, deltas, remaining);
      var left := Leftover(order, deltas, remaining);
      && (forall a :: a in given ==> a in order && 0.0 < given[a] <= Get(deltas, a))
      && left >= 0.0
      && Sum(assets, given) + left == remaining
      && (left > 0.0 ==> forall a :: a in order ==> a in given && given[a] == Get(deltas, a))
  {
    hide Greedy, Leftover, Sum;
    GreedyBounds(order, deltas, remaining);
    GreedySum(assets, order, deltas, remaining);
  }

  /** The biggest shortfall is filled before a smaller one gets anything. */
  lemma {:induction false} BiggestFirst(order: seq<Asset>, deltas: map<Asset, real>, remaining: real, i: nat, j: nat)
    requires Short(deltas, order) && i < j < |order|
    requires order[j] in Greedy(order, deltas, remaining)
    ensures order[i] in Greedy(order, deltas, remaining)
    ensures Greedy(order, deltas, remaining)[order[i]] == Get(deltas, order[i])
  {
    var take := Take(deltas, order[0], remaining);
    assert order == [order[0]] + order[1..];
    if i > 0 {
      BiggestFirst(order[1..], deltas, remaining - take, i - 1, j - 1);
    }
  }

  lemma BiggestShortfallFirst(amount: real, deltas: map<Asset, real>, targets: Targets, a: Asset, b: Asset)
    requires WellFormed(targets) && a in targets.assets && b in targets.assets && Get(deltas, b) > 0.0
    requires Get(deltas, a) > Get(deltas, b) || (Get(deltas, a) == Get(deltas, b) && a < b)
    requires b in Greedy(Shortfalls(deltas, targets.assets), deltas, amount)
    ensures Get(Greedy(Shortfalls(deltas, targets.assets), deltas, amount), a) == Get(deltas, a)
  {
    hide Greedy, Shortfalls;
    var order := Shortfalls(deltas, targets.assets);
    ShortfallsOrdered(deltas, targets.assets);
    var i :| 0 <= i < |order| && order[i] == a;
    var j :| 0 <= j < |order| && order[j] == b;
    BiggestFirst(order, deltas, amount, i, j);
  }

  /** How far an allocation leaves each asset from its target. */
  function Gap(deltas: map<Asset, real>, given: map<Asset, real>): map<Asset, real> {
    map a | a in deltas :: Abs(deltas[a] - Get(given, a))
  }

  function Shortfall(deltas: map<Asset, real>): map<Asset, real> {
    map a | a in deltas :: Positive(deltas[a])
  }

  function Size(deltas: map<Asset, real>): map<Asset, real> {
    map a | a in deltas :: Abs(deltas[a])
  }

  /** Nothing left over: the greedy pass is the whole allocation. */
  lemma GreedyIsAll(amount: real, deltas: map<Asset, real>, targets: Targets)
    requires WellFormed(targets) && amount > 0.0
    requires Leftover(Shortfalls(deltas, targets.assets), deltas, amount) <= 0.0
    ensures ReduceDrift(amount, deltas, targets) == Greedy(Shortfalls(deltas, targets.assets), deltas, amount)
  {
    hide Sum, Greedy, Leftover, Shortfalls, AllocateProrata;
    var order := Shortfalls(deltas, targets.assets);
    NoProrata(Leftover(order, deltas, amount), targets);
    assert Merge(Greedy(order, deltas, amount), map[]) == Greedy(order, deltas, amount);
  }

  /** And so within every shortfall. */
  lemma ReduceDriftWithin(amount: real, deltas: map<Asset, real>, targets: Targets)
    requires WellFormed(targets) && deltas.Keys == targets.pct.Keys && amount > 0.0
    requires Leftover(Shortfalls(deltas, targets.assets), deltas, amount) <= 0.0
    ensures
      var given := ReduceDrift(amount, deltas, targets);
      && (forall a :: a in given ==> a in deltas && 0.0 < given[a] <= deltas[a])
      && Sum(targets.assets, given) == amount
  {
    hide Sum, Greedy, Leftover, Shortfalls, AllocateProrata;
    var order := Shortfalls(deltas, targets.assets);
    ShortfallsOrdered(deltas, targets.assets);
    GreedySpends(targets.assets, order, deltas, amount);
    GreedyIsAll(amount, deltas, targets);
  }

  /** Something left over: every shortfall is filled, and the rest is spread pro rata. */
  lemma ReduceDriftBeyond(amount: real, deltas: map<Asset, real>, targets: Targets)
    requires WellFormed(targets) && NonNegativeTargets(targets) && Sum(targets.assets, targets.pct) > 0.0
    requires deltas.Keys == targets.pct.Keys && amount > 0.0
    requires Leftover(Shortfalls(deltas, targets.assets), deltas, amount) > 0.0
    ensures
      var given := ReduceDrift(amount, deltas, targets);
      && (forall a :: a in deltas ==> Get(given, a) >= Positive(deltas[a]))
      && Sum(targets.assets, given) == amount
  {
    hide Sum, Greedy, Leftover, Shortfalls;
    var order := Shortfalls(deltas, targets.assets);
    var left := Leftover(order, deltas, amount);
    ShortfallsOrdered(deltas, targets.assets);
    GreedySpends(targets.assets, order, deltas, amount);
    ProrataSpendsAll(left, targets);
    SharesPositive(left, targets);
    SumMerge(targets.assets, Greedy(order, deltas, amount), AllocateProrata(left, targets));
  }

  lemma SharesPositive(amount: real, targets: Targets)
    requires amount > 0.0 && Sum(targets.assets, targets.pct) > 0.0
    ensures forall a :: a in AllocateProrata(amount, targets) ==> AllocateProrata(amount, targets)[a] > 0.0
  {
    hide Sum;
    var total := Sum(targets.assets, targets.pct);
    forall a | a in AllocateProrata(amount, targets) ensures AllocateProrata(amount, targets)[a] > 0.0 {
      ShareSign(amount, targets.pct[a], total);
    }
  }

  lemma ShareSign(amount: real, pct: real, total: real)
    requires amount > 0.0 && pct > 0.0 && total > 0.0
    ensures amount * pct / total > 0.0
  {
    assert amount * pct > 0.0;
  }

  lemma {:induction false} SumMerge(keys: seq<Asset>, x: map<Asset, real>, y: map<Asset, real>)
    ensures Sum(keys, Merge(x, y)) == Sum(keys, x) + Sum(keys, y)
  {
    if keys != [] { SumMerge(keys[1..], x, y); }
  }

  /** Spending inside the shortfalls closes every cent of gap that can be closed. */
  lemma WithinIsClosest(assets: seq<Asset>, deltas: map<Asset, real>, given: map<Asset, real>, other: map<Asset, real>)
    requires forall a :: a in assets ==> a in deltas
    requires forall a :: a in given ==> a in deltas && 0.0 < given[a] <= deltas[a]
    requires forall a :: a in other ==> other[a] >= 0.0
    requires Sum(assets, other) == Sum(assets, given)
    ensures Sum(assets, Gap(deltas, given)) <= Sum(assets, Gap(deltas, other))
  {
    hide Sum;
    SumDifference(assets, Gap(deltas, given), Size(deltas), given);
    var lower := map a | a in deltas :: Abs(deltas[a]) - Get(other, a);
    SumDifference(assets, lower, Size(deltas), other);
    SumAtMost(assets, lower, Gap(deltas, other));
  }

  /** Past every shortfall, each further cent opens the same gap wherever it goes. */
  lemma BeyondIsClosest(assets: seq<Asset>, deltas: map<Asset, real>, given: map<Asset, real>, other: map<Asset, real>)
    requires forall a :: a in assets ==> a in deltas
    requires forall a :: a in deltas ==> Get(given, a) >= Positive(deltas[a])
    requires Sum(assets, other) == Sum(assets, given)
    ensures Sum(assets, Gap(deltas, given)) <= Sum(assets, Gap(deltas, other))
  {
    hide Sum;
    SumDifference(assets, Gap(deltas, given), given, deltas);
    var lower := map a | a in deltas :: Get(other, a) - deltas[a];
    SumDifference(assets, lower, other, deltas);
    SumAtMost(assets, lower, Gap(deltas, other));
  }

  /** REDUCE_DRIFT is optimal: no other way of spending the same cash on buys leaves the portfolio
      closer to its targets, all distances added up. */
  lemma ReduceDriftIsOptimal(amount: real, deltas: map<Asset, real>, targets: Targets, other: map<Asset, real>)
    requires WellFormed(targets) && NonNegativeTargets(targets) && Sum(targets.assets, targets.pct) > 0.0
    requires deltas.Keys == targets.pct.Keys && amount > 0.0
    requires forall a :: a in other ==> other[a] >= 0.0
    requires Sum(targets.assets, other) == amount
    ensures Sum(targets.assets, Gap(deltas, ReduceDrift(amount, deltas, targets)))
      <= Sum(targets.assets, Gap(deltas, other))
  {
    hide ReduceDrift, Sum, Gap, Leftover, Shortfalls;
    if Leftover(Shortfalls(deltas, targets.assets), deltas, amount) <= 0.0 {
      ReduceDriftWithin(amount, deltas, targets);
      WithinIsClosest(targets.assets, deltas, ReduceDrift(amount, deltas, targets), other);
    } else {
      ReduceDriftBeyond(amount, deltas, targets);
      BeyondIsClosest(targets.assets, deltas, ReduceDrift(amount, deltas, targets), other);
    }
  }

  /** Cash that does not exceed the shortfalls is spent inside them, all of it. */
  lemma ReduceDriftNeverOvershoots(amount: real, deltas: map<Asset, real>, targets: Targets)
    requires WellFormed(targets) && deltas.Keys == targets.pct.Keys
    requires 0.0 < amount <= Sum(targets.assets, Shortfall(deltas))
    ensures Leftover(Shortfalls(deltas, targets.assets), deltas, amount) == 0.0
    ensures forall a :: a in ReduceDrift(amount, deltas, targets) ==>
      a in deltas && 0.0 < ReduceDrift(amount, deltas, targets)[a] <= deltas[a]
    ensures Sum(targets.assets, ReduceDrift(amount, deltas, targets)) == amount
  {
    hide ReduceDrift;
    var order := Shortfalls(deltas, targets.assets);
    ShortfallsOrdered(deltas, targets.assets);
    GreedySpends(targets.assets, order, deltas, amount);
    if Leftover(order, deltas, amount) > 0.0 {
      SumAtMost(targets.assets, Shortfall(deltas), Greedy(order, deltas, amount));
      assert false;
    }
    ReduceDriftWithin(amount, deltas, targets);
  }
}
