/** The money of one run (core/execution.py `_send_all`, `_within`): sells raise, buys shrink to what
    there is, and the cash that is left. */
module Money {
  import opened Wrappers
  import opened Sums
  import opened Precision
  import opened Planning

  // ----- Shrinking the buys -----------------------------------------------------------

  /** A buy a planner would produce: what an unskipped leg always carries. */
  predicate Sendable(leg: PlannedLeg) {
    !leg.skipped ==> leg.meta.Some? && leg.minimum.Some? && leg.minimum.value >= 0.0 && leg.amount >= 0.0
  }

  predicate AllSendable(legs: seq<PlannedLeg>) {
    forall i :: 0 <= i < |legs| ==> Sendable(legs[i])
  }

  function Portion(amount: real, factor: real): real {
    amount * factor
  }

  function Fit(leg: PlannedLeg, factor: real): PlannedLeg
    requires Sendable(leg)
  {
    if leg.skipped then leg
    else
      var amount := RoundCost(leg.meta.value, Portion(leg.amount, factor));
      leg.(amount := amount, skipped := amount < leg.minimum.value)
  }

  function FitAll(legs: seq<PlannedLeg>, factor: real): seq<PlannedLeg>
    requires AllSendable(legs)
  {
    if legs == [] then [] else [Fit(legs[0], factor)] + FitAll(legs[1..], factor)
  }

  /** `None` is the DivisionByZero of a budget below zero that no buy asks anything of. */
  function Within(buys: seq<PlannedLeg>, budget: real): Option<seq<PlannedLeg>>
    requires AllSendable(buys)
  {
    if Asked(buys) <= budget then Some(buys)
    else if Asked(buys) == 0.0 then None
    else Some(FitAll(buys, budget / Asked(buys)))
  }

  method ShrinkWithin(buys: seq<PlannedLeg>, budget: real) returns (fitted: Option<seq<PlannedLeg>>)
    requires AllSendable(buys)
    ensures fitted == Within(buys, budget)
  {
    var asked := Asked(buys);
    if asked <= budget {
      return Some(buys);
    }
    if asked == 0.0 {
      return None;
    }
    var factor := budget / asked;
    var legs: seq<PlannedLeg> := [];
    assert buys[0..] == buys;
    for i := 0 to |buys|
      invariant FitAll(buys, factor) == legs + FitAll(buys[i..], factor)
    {
      assert buys[i..][1..] == buys[i + 1..];
      legs := legs + [Fit(buys[i], factor)];
    }
    assert buys[|buys|..] == [] && legs + [] == legs;
    return Some(legs);
  }

  lemma {:induction false} AskedNonNegative(legs: seq<PlannedLeg>)
    requires AllSendable(legs)
    ensures Asked(legs) >= 0.0
  {
    if legs != [] { AskedNonNegative(legs[1..]); }
  }

  /** Shrinking raises exactly when the sells left less than nothing and no buy would be sent. */
  lemma WithinRaisesExactlyWhen(buys: seq<PlannedLeg>, budget: real)
    requires AllSendable(buys)
    ensures Within(buys, budget).None? <==> budget < 0.0 && Asked(buys) == 0.0
  {
    AskedNonNegative(buys);
  }

  /** One filled sell can leave such a budget: a partial fill worth less than the ledger's quantum,
      whose fee the ledger may still round up to a whole one. */
  lemma WithinCanRaise()
    ensures Credited(0.00005, 0.0000004, 4) == -0.0001
    ensures Within([], Credited(0.00005, 0.0000004, 4)).None?
  {
    assert Pow10(4) == 10 * Pow10(3) && Pow10(3) == 10 * Pow10(2) && Pow10(2) == 10 * Pow10(1) && Pow10(1) == 10;
    assert Scaled(0.00005, 4) == 0.5 && Scaled(0.0000004, 4) == 0.004;
    assert (0.5 as real).Floor == 0 && (-(0.004 as real)).Floor == -1;
  }

  /** A planned buy after it was shrunk by `factor`: rounded down onto its pair's places, by less
      than one of its smallest amounts, and skipped exactly when that is below its minimum. */
  ghost predicate Shrunk(before: PlannedLeg, after: PlannedLeg, factor: real)
    requires Sendable(before)
  {
    if before.skipped then after == before
    else
      && after == before.(amount := after.amount, skipped := after.skipped)
      && after.skipped == (after.amount < before.minimum.value)
      && (factor >= 0.0 ==>
            && OnGrid(after.amount, before.meta.value.costDecimals)
            && 0.0 <= after.amount <= Portion(before.amount, factor)
            && Portion(before.amount, factor) < after.amount + Quantum(before.meta.value.costDecimals))
      && (factor < 0.0 ==> after.amount <= 0.0)
  }

  lemma FitShrinks(leg: PlannedLeg, factor: real)
    requires Sendable(leg)
    ensures Shrunk(leg, Fit(leg, factor), factor)
  {
    hide RoundDown, Portion;
    if !leg.skipped {
      PortionSign(leg.amount, factor);
      if factor >= 0.0 {
        RoundDownIsGreatest(Portion(leg.amount, factor), leg.meta.value.costDecimals);
      } else {
        RoundDownOfNegative(Portion(leg.amount, factor), leg.meta.value.costDecimals);
      }
    }
  }

  lemma PortionSign(amount: real, factor: real)
    requires amount >= 0.0
    ensures if factor >= 0.0 then Portion(amount, factor) >= 0.0 else Portion(amount, factor) <= 0.0
  {
  }

  lemma PortionAdds(first: real, rest: real, factor: real)
    ensures Portion(first, factor) + Portion(rest, factor) == Portion(first + rest, factor)
    ensures Portion(0.0, factor) == 0.0
  {
  }

  lemma PortionSpends(asked: real, budget: real)
    requires asked > 0.0
    ensures Portion(asked, budget / asked) == budget
  {
  }

  lemma RoundDownOfNegative(x: real, places: nat)
    requires x <= 0.0
    ensures RoundDown(x, places) <= 0.0
  {
    ScaledSign(-x, places);
    assert Scaled(x, places) == -Scaled(-x, places);
    assert Units(0, places) == 0.0;
    UnitsMonotone(-(-Scaled(x, places)).Floor, 0, places);
  }

  lemma {:induction false} FitAllShrinks(legs: seq<PlannedLeg>, factor: real)
    requires AllSendable(legs)
    ensures
      var fitted := FitAll(legs, factor);
      |fitted| == |legs| && forall i :: 0 <= i < |legs| ==> Shrunk(legs[i], fitted[i], factor)
  {
    hide Fit, Shrunk;
    if legs != [] {
      FitShrinks(legs[0], factor);
      FitAllShrinks(legs[1..], factor);
      var fitted := FitAll(legs, factor);
      forall i | 0 <= i < |legs| ensures Shrunk(legs[i], fitted[i], factor) {
        if i > 0 { assert legs[i] == legs[1..][i - 1] && fitted[i] == FitAll(legs[1..], factor)[i - 1]; }
      }
    }
  }

  lemma {:induction false} ShrunkAskLess(legs: seq<PlannedLeg>, fitted: seq<PlannedLeg>, factor: real)
    requires AllSendable(legs) && |fitted| == |legs|
    requires forall i :: 0 <= i < |legs| ==> Shrunk(legs[i], fitted[i], factor)
    ensures Asked(fitted) <= if factor >= 0.0 then Portion(Asked(legs), factor) else 0.0
  {
    hide Portion;
    PortionAdds(0.0, 0.0, factor);
    if legs != [] {
      ShrunkAskLess(legs[1..], fitted[1..], factor);
      assert Shrunk(legs[0], fitted[0], factor);
      PortionAdds(if legs[0].skipped then 0.0 else legs[0].amount, Asked(legs[1..]), factor);
      if !legs[0].skipped { PortionSign(legs[0].amount, factor); }
    }
  }

  /** What is left to send never asks for more than the budget, every buy shrinks by the one factor
      that spends it, and buys that already fit are left alone. */
  lemma WithinFits(buys: seq<PlannedLeg>, budget: real)
    requires AllSendable(buys) && Within(buys, budget).Some?
    ensures
      var fitted := Within(buys, budget).value;
      && |fitted| == |buys|
      && Asked(fitted) <= Positive(budget)
      && (Asked(buys) <= budget ==> fitted == buys)
      && (Asked(buys) > budget ==> forall i :: 0 <= i < |buys| ==> Shrunk(buys[i], fitted[i], budget / Asked(buys)))
  {
    hide Portion, Shrunk, FitAll;
    AskedNonNegative(buys);
    if Asked(buys) > budget {
      var factor := budget / Asked(buys);
      FitAllShrinks(buys, factor);
      ShrunkAskLess(buys, FitAll(buys, factor), factor);
      PortionSpends(Asked(buys), budget);
      Share(budget, Asked(buys));
    }
  }

  lemma Share(budget: real, asked: real)
    requires asked > 0.0
    ensures budget / asked >= 0.0 <==> budget >= 0.0
  {
    assert budget / asked * asked == budget;
  }
}
