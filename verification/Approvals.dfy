/** What an approval asks of Kraken (core/rebalance.py `approve`, core/execution.py `evaluate`). */
module Approvals {
  import opened Wrappers
  import opened Reconcile
  import opened Planning
  import opened Plans
  import opened CashFloor
  import opened Execution
  import P = Proposals

  /** The leg as a document has it. */
  function DocOf(leg: PlannedLeg): P.DocLeg {
    P.DocLeg(leg.asset, leg.side, leg.amount, leg.minimum, leg.skipped)
  }

  lemma {:induction false} DocumentHasLeg(legs: seq<PlannedLeg>, j: nat)
    requires OneEach(legs) && j < |legs| && !legs[j].skipped
    ensures
      var key := (legs[j].asset, legs[j].side);
      var sent := P.ToSend(P.PlanDocument(legs));
      key in sent && sent[key] == DocOf(legs[j])
  {
    var last := |legs| - 1;
    assert P.PlanDocument(legs)[..last] == P.PlanDocument(legs[..last]);
    if j < last { DocumentHasLeg(legs[..last], j); }
  }

  lemma ReadyIsPriced(legs: seq<PlannedLeg>)
    requires AllReady(legs)
    ensures P.Priced(P.PlanDocument(legs))
  {
    var document := P.PlanDocument(legs);
    P.ToSendOf(document);
    forall key | key in P.ToSend(document) ensures P.ToSend(document)[key].minimum.Some? {
      var i :| 0 <= i < |document| && document[i] == P.ToSend(document)[key];
      assert Ready(legs[i]);
    }
  }

  /** The decision `approve` hands to the evaluation: send today's plan for the live version named, if it is no
      material change. */
  function DecisionOn(d: P.Desk, version: nat, planned: Planned): Option<EvaluationStatus> {
    var document := P.PlanDocument(planned.legs);
    if P.IsLive(d.slot) && d.slot.value.version == version && P.HasOrders(document)
      && P.Priced(document) && !P.IsMaterial(d.slot.value.plan, document)
    then None else Some(SUPERSEDED)
  }

  /** The orders are the document's: each for a leg of it that would be sent, a buy for no more than the leg's
      amount, and no leg twice. */
  ghost predicate OrdersOf(document: P.Document, asks: Asks) {
    && (forall k :: 0 <= k < |asks| ==>
          var key := (asks[k].1.asset, asks[k].1.side);
          key in P.ToSend(document) && (asks[k].1.side == BUY ==> asks[k].1.quantity <= P.ToSend(document)[key].amount))
    && (forall k, l :: 0 <= k < l < |asks| ==> asks[k].1.asset != asks[l].1.asset)
  }

  /** An approval of a version records today's plan under it and asks Kraken for its legs only, whether the run
      ends, raises or dies: the planned sells, and buys no larger than the document's. The document follows the
      plan first published as that version. */
  lemma ApprovalAsksItsDocument(
    d: P.Desk, version: nat, setup: Setup, got: Reads, planned: Planned, results: seq<LegResult>, rows: Rows)
    requires P.Inv(d) && setup.floor >= 0.0 && IsPlanned(setup, got, planned) && DecisionOn(d, version, planned).None?
    requires OfThePlan(planned, results, rows) && NothingNegative(got)
    ensures
      var document := P.PlanDocument(planned.legs);
      && P.CanTake(d, P.Decide(version, document))
      && var after := P.Take(d, P.Decide(version, document));
         && after.sent == d.sent + [P.Order(version, document)]
         && after.slot == Some(P.Slot(version, P.EXECUTING, d.slot.value.trigger, document))
         && version in after.published && P.Follows(after.published[version], document)
    ensures OrdersOf(P.PlanDocument(planned.legs), AsksOf(results))
    ensures InsideThePlan(planned, AsksOf(results), got.view.value, setup.floor)
  {
    hide OfThePlan, AsksOf, AllReady, SizeAll, IsPlanOf, ValueOf, P.ToSend, P.HasOrders, P.Priced;
    var document, asks := P.PlanDocument(planned.legs), AsksOf(results);
    RunStaysInsideThePlan(setup, got, planned, results, rows);
    PlannedIsReady(setup, got, planned);
    PlanHasOneEach(setup, got, planned);
    P.MaterialExactlyWhen(d.slot.value.plan, document);
    forall k | 0 <= k < |asks|
      ensures
        var key := (asks[k].1.asset, asks[k].1.side);
        key in P.ToSend(document) && (asks[k].1.side == BUY ==> asks[k].1.quantity <= P.ToSend(document)[key].amount)
    {
      assert ForALeg(planned, asks[k].1, got.view.value, setup.floor);
      var j :| 0 <= j < |planned.legs| && AskedFor(asks[k].1, planned.legs[j]);
      DocumentHasLeg(planned.legs, j);
    }
  }

  /** No plan of the planner is refused for want of a minimum: the decision is the slot's alone. */
  lemma DecisionIsTheSlots(d: P.Desk, version: nat, setup: Setup, got: Reads, planned: Planned)
    requires setup.floor >= 0.0 && IsPlanned(setup, got, planned)
    ensures P.Priced(P.PlanDocument(planned.legs))
    ensures
      var document := P.PlanDocument(planned.legs);
      DecisionOn(d, version, planned).None? <==>
        P.Take(d, P.Decide(version, document)).sent == d.sent + [P.Order(version, document)]
  {
    hide IsPlanned, P.ToSend, P.HasOrders, P.Priced, P.IsMaterial;
    PlannedIsReady(setup, got, planned);
    ReadyIsPriced(planned.legs);
  }
}
