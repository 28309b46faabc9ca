/** Placing orders (core/execution.py, core/settlement.py, the lookups of exchange/orders.py).

    Every method here is a run of the protocol: the trace it leaves is a run of `Protocol` that ends
    in the present state, whatever Kraken and the clock did in between and wherever the process died.
    And every method only extends the trace. So what `Protocol` proves of runs holds at every point of this
    code and, as `Protocol.ResolvedSince` does, across every call. */
module Execution {
  import opened Wrappers
  import opened Sequences
  import opened KrakenOrders
  import opened Protocol
  import opened LedgerDb
  import opened Sums
  import opened Precision
  import opened Valuation
  import opened Allocation
  import opened Reconcile
  import opened Planning
  import opened Money
  import opened Plans
  import opened CashFloor

  datatype EvaluationStatus =
    | DONE | NOTHING_TO_DO | STOPPED | UNRESOLVED | KRAKEN_UNAVAILABLE | ERROR | PARTIAL | PROPOSED | SUPERSEDED

  /** How an evaluation ended for its caller: refused the lock, finished, or its process died. */
  datatype Ending = Busy | Ended(status: EvaluationStatus) | Died

  datatype LegStatus = FILLED | FAILED | PENDING | SKIPPED

  /** A leg as it ended: the planned leg, and what the order's row says. */
  datatype LegResult = LegResult(
    leg: PlannedLeg, status: LegStatus, clOrdId: Option<ClOrdId>, txid: Option<Txid>, executed: Option<Execution>)

  function LegsOf(results: seq<LegResult>): seq<PlannedLeg> {
    seq(|results|, i requires 0 <= i < |results| => results[i].leg)
  }

  /** The answer to this order was lost: its row is open and Kraken never named it. */
  predicate IsUnknown(r: LegResult) {
    r.status == LegStatus.PENDING && r.txid.None?
  }

  /** A result as the ledger's row reports it. */
  function FromRow(leg: PlannedLeg, id: ClOrdId, row: Row): LegResult {
    LegResult(
      leg,
      match row.status {
        case PENDING => LegStatus.PENDING
        case FILLED => LegStatus.FILLED
        case FAILED => LegStatus.FAILED
      },
      Some(id), row.txid, row.executed)
  }

  /** The order behind a result, if one was asked of Kraken. */
  function AskedBy(r: LegResult): Asks {
    if r.clOrdId.Some? && Askable(r.leg) then [(r.clOrdId.value, AskOf(r.leg))] else []
  }

  function AsksOf(results: seq<LegResult>): Asks {
    if results == [] then [] else AsksOf(results[..|results| - 1]) + AskedBy(results[|results| - 1])
  }

  function Ids(asks: Asks): set<ClOrdId> {
    set i | 0 <= i < |asks| :: asks[i].0
  }

  lemma IdsGrow(asks: Asks, order: (ClOrdId, Ask))
    ensures Ids(asks + [order]) == Ids(asks) + {order.0}
  {
    var all := asks + [order];
    assert all[|asks|] == order;
    forall id | id in Ids(asks) ensures id in Ids(all) {
      var i :| 0 <= i < |asks| && asks[i].0 == id;
      assert all[i].0 == id;
    }
  }

  lemma NoResults()
    ensures AsksOf([]) == [] && LegsOf([]) == []
  {
  }

  function CostOf(r: LegResult): real {
    if r.executed.Some? then r.executed.value.cost else 0.0
  }

  function FeeOf(r: LegResult): real {
    if r.executed.Some? then r.executed.value.fee else 0.0
  }

  /** One result was skipped, or it reports its row. */
  ghost predicate IsReport(r: LegResult, rows: Rows) {
    if r.clOrdId.None? then r.status == SKIPPED
    else r.clOrdId.value in rows && r == FromRow(r.leg, r.clOrdId.value, rows[r.clOrdId.value])
  }

  ghost predicate Reported(results: seq<LegResult>, rows: Rows) {
    forall i :: 0 <= i < |results| ==> IsReport(results[i], rows)
  }

  ghost predicate Grown(before: Rows, after: Rows) {
    forall id :: id in before ==> id in after && after[id] == before[id]
  }

  lemma GrownStays(rows: Rows)
    ensures Grown(rows, rows)
  {
  }

  lemma GrownKeys(before: Rows, after: Rows)
    requires Grown(before, after)
    ensures before.Keys <= after.Keys
  {
  }

  lemma GrownAgain(before: Rows, between: Rows, after: Rows)
    requires Grown(before, between) && Grown(between, after)
    ensures Grown(before, after) && before.Keys <= after.Keys
  {
  }

  lemma StillReported(results: seq<LegResult>, r: LegResult, before: Rows, after: Rows)
    requires Reported(results, before) && Grown(before, after) && IsReport(r, after)
    ensures Reported(results + [r], after)
  {
    hide FromRow;
  }

  /** The process died while this leg was being sent. With an id, its order was asked of Kraken. */
  function Interrupted(leg: PlannedLeg, id: Option<ClOrdId>): LegResult {
    LegResult(leg, LegStatus.PENDING, id, None, None)
  }

  /** Nothing is sent after an unknown answer. */
  ghost predicate NothingAfterUnknown(results: seq<LegResult>) {
    forall i, j :: 0 <= i < j < |results| && IsUnknown(results[i]) ==> results[j].status == SKIPPED
  }

  ghost predicate AnyUnknown(results: seq<LegResult>) {
    exists i :: 0 <= i < |results| && IsUnknown(results[i])
  }

  /** Nothing after an unknown answer; nothing that planning skipped was sent, and all else unless one came. */
  ghost predicate Tidy(results: seq<LegResult>, stopped: bool) {
    && NothingAfterUnknown(results)
    && (forall i :: 0 <= i < |results| && results[i].clOrdId.Some? ==> !results[i].leg.skipped)
    && (stopped <==> AnyUnknown(results))
    && (!stopped ==> forall i :: 0 <= i < |results| ==> (results[i].status == SKIPPED <==> results[i].leg.skipped))
  }

  /** Orders of one run: each with a row the run wrote, no id twice, and none but the last unknown. */
  ghost predicate Accounted(asks: Asks, before: set<ClOrdId>, rows: Rows) {
    && AllWellformed(asks, rows)
    && (forall i :: 0 <= i < |asks| ==> asks[i].0 !in before)
    && (forall i, j :: 0 <= i < j < |asks| ==> asks[i].0 != asks[j].0)
    && (forall i :: 0 <= i < |asks| - 1 ==> !Unnamed(rows, asks[i].0))
  }

  datatype Sent = AllSent(stopped: bool) | Raised | Perished

  /** The free cash, and what the run's filled sells are credited with. */
  ghost function Budget(planned: Planned, asks: Asks, rows: Rows): real {
    planned.freeCash + Credits(asks, rows, planned.fiatPlaces)
  }

  /** What a run asked of Kraken: buys of no more fiat than its budget, and nothing after an unknown answer. */
  ghost predicate SentWithin(planned: Planned, asks: Asks, before: set<ClOrdId>, rows: Rows) {
    Accounted(asks, before, rows) && BuysAsked(asks) <= Positive(Budget(planned, asks, rows))
  }

  /** What a finished run carried out: the plan's sells, then its buys fitted into the budget. */
  ghost predicate Carried(planned: Planned, results: seq<LegResult>, rows: Rows) {
    var budget := Budget(planned, AsksOf(results), rows);
    && AllSendable(OnSide(planned.legs, BUY))
    && Within(OnSide(planned.legs, BUY), budget).Some?
    && LegsOf(results) == OnSide(planned.legs, SELL) + Within(OnSide(planned.legs, BUY), budget).value
  }

  /** However a run ended, its results go through the plan's sells in order and then, once it got that far,
      through its fitted buys: each leg once at most, and none besides. */
  ghost predicate OfThePlan(planned: Planned, results: seq<LegResult>, rows: Rows) {
    var sells, buys := OnSide(planned.legs, SELL), OnSide(planned.legs, BUY);
    var budget := Budget(planned, AsksOf(results), rows);
    && AllSendable(buys)
    && (|| LegsOf(results) <= sells
        || (Within(buys, budget).Some? && LegsOf(results) <= sells + Within(buys, budget).value))
    && exists stopped :: Tidy(results, stopped)
  }

  /** Rows that were resolved are as they were. */
  ghost predicate ResolvedKept(before: Rows, after: Rows) {
    forall id :: id in before && before[id].status != RowStatus.PENDING ==> id in after && after[id] == before[id]
  }

  lemma KeptStays(rows: Rows)
    ensures ResolvedKept(rows, rows)
  {
  }

  lemma KeptThenGrown(before: Rows, between: Rows, after: Rows)
    requires ResolvedKept(before, between) && Grown(between, after)
    ensures ResolvedKept(before, after)
  {
  }

  /** How an evaluation ends without a plan: a row is still open, a read was not answered, or a sell could not
      be sized; in that order. */
  ghost predicate EndsUnplanned(status: EvaluationStatus, setup: Setup, got: Reads, rows: Rows) {
    if !NothingOpen(rows) then status == UNRESOLVED
    else if !Complete(setup, got) then status == KRAKEN_UNAVAILABLE
    else
      && status == ERROR
      && exists legs :: IsPlanOf(setup, got, legs) && SizeAll(legs, AccountOf(setup, got)).None?
  }

  /** The status of an evaluation that sent its plan. */
  function StatusOf(results: seq<LegResult>, stopped: bool): EvaluationStatus {
    if stopped then STOPPED
    else if exists i :: 0 <= i < |results| && results[i].status == LegStatus.FAILED then PARTIAL
    else if exists i :: 0 <= i < |results| && results[i].status != SKIPPED then DONE
    else NOTHING_TO_DO
  }

  lemma NothingYet(before: set<ClOrdId>, rows: Rows)
    ensures Tidy([], false) && Reported([], rows) && Accounted([], before, rows)
    ensures BuysAsked([]) == 0.0 && forall places :: Credits([], rows, places) == 0.0
  {
  }

  lemma Appended(results: seq<LegResult>, r: LegResult, stopped: bool, nowStopped: bool)
    requires Tidy(results, stopped) && nowStopped == (stopped || IsUnknown(r))
    requires (r.leg.skipped || stopped <==> r.status == SKIPPED) && (r.clOrdId.Some? ==> !r.leg.skipped)
    ensures Tidy(results + [r], nowStopped)
    ensures LegsOf(results + [r]) == LegsOf(results) + [r.leg] && AsksOf(results + [r]) == AsksOf(results) + AskedBy(r)
  {
    hide AskedBy;
    var all := results + [r];
    assert all[..|results|] == results;
    if stopped {
      var i :| 0 <= i < |results| && IsUnknown(results[i]);
      assert IsUnknown(all[i]);
    } else if IsUnknown(r) {
      assert IsUnknown(all[|results|]);
    }
  }

  lemma {:induction false} CreditsKept(asks: Asks, before: Rows, after: Rows, places: nat)
    requires AllIn(asks, before) && Grown(before, after)
    ensures Credits(asks, after, places) == Credits(asks, before, places)
  {
    hide Credit;
    if asks != [] { CreditsKept(asks[..|asks| - 1], before, after, places); }
  }

  lemma AccountedIn(asks: Asks, known: set<ClOrdId>, rows: Rows)
    requires Accounted(asks, known, rows)
    ensures AllIn(asks, rows)
  {
  }

  lemma AccountedKept(asks: Asks, known: set<ClOrdId>, before: Rows, after: Rows)
    requires Accounted(asks, known, before) && Grown(before, after)
    ensures Accounted(asks, known, after)
  {
    hide OnGrid;
    forall i | 0 <= i < |asks| ensures Wellformed(asks[i].1, after[asks[i].0]) {
      assert Wellformed(asks[i].1, before[asks[i].0]);
    }
  }

  /** One more order accounted for, sent when nothing was unknown. */
  lemma OneMoreOrder(
      asks: Asks, id: ClOrdId, leg: PlannedLeg, known: set<ClOrdId>, before: Rows, after: Rows, places: nat)
    requires Accounted(asks, known, before) && known <= before.Keys && Grown(before, after)
    requires id !in before && id in after && (forall other :: !Unnamed(before, other))
    requires Ready(leg) && !leg.skipped && Belongs(AskOf(leg), after[id])
    ensures Askable(leg)
    ensures
      var all := asks + [(id, AskOf(leg))];
      && Accounted(all, known, after)
      && Credits(all, after, places) == Credits(asks, before, places) + Credit(AskOf(leg), after[id], places)
      && BuysAsked(all) == BuysAsked(asks) + if leg.side == BUY then leg.amount else 0.0
  {
    hide Credit, OnGrid;
    var all := asks + [(id, AskOf(leg))];
    assert all[..|asks|] == asks;
    CreditsKept(asks, before, after, places);
    forall i | 0 <= i < |asks|
      ensures Wellformed(all[i].1, after[all[i].0]) && !Unnamed(after, all[i].0) && all[i].0 != id
    {
      assert Wellformed(asks[i].1, before[asks[i].0]) && !Unnamed(before, asks[i].0);
    }
  }

  /** One more result, sent or not. */
  lemma OneMoreResult(
    results: seq<LegResult>, r: LegResult, known: set<ClOrdId>, before: Rows, after: Rows, places: nat)
    requires Accounted(AsksOf(results), known, before) && known <= before.Keys && Grown(before, after) && Ready(r.leg)
    requires r.clOrdId.Some? ==>
      var id := r.clOrdId.value;
      && !r.leg.skipped && id !in before && id in after && Belongs(AskOf(r.leg), after[id])
      && forall other :: !Unnamed(before, other)
    ensures Accounted(AsksOf(results) + AskedBy(r), known, after)
    ensures r.clOrdId.Some? ==> Askable(r.leg)
    ensures Credits(AsksOf(results) + AskedBy(r), after, places) == Credits(AsksOf(results), before, places)
      + if r.clOrdId.Some? then Credit(AskOf(r.leg), after[r.clOrdId.value], places) else 0.0
    ensures BuysAsked(AsksOf(results) + AskedBy(r)) == BuysAsked(AsksOf(results))
      + if r.clOrdId.Some? && r.leg.side == BUY then r.leg.amount else 0.0
  {
    hide Accounted, Ready, AsksOf, Credits, BuysAsked, Unnamed, Grown;
    if r.clOrdId.None? {
      assert AsksOf(results) + AskedBy(r) == AsksOf(results);
      AccountedKept(AsksOf(results), known, before, after);
      assert AllIn(AsksOf(results), before) by { AccountedIn(AsksOf(results), known, before); }
      CreditsKept(AsksOf(results), before, after, places);
    } else {
      OneMoreOrder(AsksOf(results), r.clOrdId.value, r.leg, known, before, after, places);
    }
  }

  lemma {:induction false} OnSideIsReady(legs: seq<PlannedLeg>, side: Side)
    requires AllReady(legs)
    ensures AllReady(OnSide(legs, side)) && AllSendable(OnSide(legs, side))
    ensures forall i :: 0 <= i < |OnSide(legs, side)| ==> OnSide(legs, side)[i].side == side
  {
    if legs != [] { OnSideIsReady(legs[..|legs| - 1], side); }
  }

  lemma AskedOne(legs: seq<PlannedLeg>)
    requires legs != [] && Ready(legs[0])
    ensures Asked(legs) == (if legs[0].skipped then 0.0 else legs[0].amount) + Asked(legs[1..])
    ensures legs[0].skipped || legs[0].amount >= 0.0
  {
  }

  lemma {:induction false} AskedOfReady(legs: seq<PlannedLeg>)
    requires AllReady(legs)
    ensures Asked(legs) >= 0.0
  {
    if legs != [] { AskedOfReady(legs[1..]); }
  }

  /** Fitted buys are still buys a pair accepts, and together they stay inside the budget. */
  lemma FittedIsReady(buys: seq<PlannedLeg>, budget: real)
    requires AllReady(buys) && AllSendable(buys) && Within(buys, budget).Some?
    ensures AllReady(Within(buys, budget).value) && Asked(Within(buys, budget).value) <= Positive(budget)
    ensures forall i :: 0 <= i < |buys| && i < |Within(buys, budget).value| ==>
      Within(buys, budget).value[i].side == buys[i].side
    ensures |Within(buys, budget).value| == |buys|
  {
    hide Within, Asked, OnGrid, Portion, Quantum;
    WithinFits(buys, budget);
    WithinRaisesExactlyWhen(buys, budget);
    AskedNonNegative(buys);
    var fitted := Within(buys, budget).value;
    if Asked(buys) > budget {
      forall i | 0 <= i < |buys| ensures Ready(fitted[i]) && fitted[i].side == buys[i].side {
        assert Ready(buys[i]) && Shrunk(buys[i], fitted[i], budget / Asked(buys));
        if !fitted[i].skipped { ZeroOnGrid(fitted[i].meta.value.costDecimals); }
      }
    }
  }

  lemma ZeroOnGrid(places: nat)
    ensures OnGrid(0.0, places)
  {
    assert Units(0, places) == 0.0;
  }

  lemma Extend(trace: seq<Event>, w: World, e: Event, w': World)
    requires Run(Start, trace) == Some(w) && Enabled(w, e) && w' == Apply(w, e)
    ensures Run(Start, trace + [e]) == Some(w') && Inv(w')
  {
    RunExtends(Start, trace, e);
    Safety(trace + [e]);
  }

  /** What two answers say of an id: the order that echoes it, an open one before a closed one; `Absent` only
      when both came back empty; and otherwise nothing. */
  function Verdict(id: ClOrdId, open: Option<seq<Listing>>, closed: Option<seq<Listing>>): Option<Lookup> {
    if open.Some? && Match(open.value, id).Some? then Match(open.value, id)
    else if closed.Some? && Match(closed.value, id).Some? then Match(closed.value, id)
    else if open == Some([]) && closed == Some([]) then Some(Absent)
    else None
  }

  /** The row after one lookup of `resolve_pending`. */
  function Judged(asOf: int, row: Row, answer: Option<Lookup>): Row {
    if TooSoon(asOf, row, answer) then row else SettledRow(row, answer)
  }

  /** What finished business leaves: the row of an order that executed has its execution, and that of one which did
      not, or of no order at all, has failed. */
  ghost predicate Resolves(order: Option<Listing>, row: Row) {
    if order.Some? && order.value.executed.volume > 0.0
    then row.status == RowStatus.FILLED && row.txid == Some(order.value.txid)
      && row.executed == Some(order.value.executed)
    else row.status == RowStatus.FAILED
  }

  function InTheBook(book: map<ClOrdId, Listing>, id: ClOrdId): Option<Listing> {
    if id in book then Some(book[id]) else None
  }

  /** What became of one order asked: `placed` is how its answer was read, and `fill` what was read back of an order
      Kraken named. Only a lost answer leaves it unnamed; a refused one has failed and is nowhere; a named one has
      what it executed once it is read as finished, and until then is open under its txid. */
  ghost predicate EndsAs(
    placed: Placement, fill: Option<Lookup>, id: ClOrdId, row: Row, book: map<ClOrdId, Listing>)
  {
    match placed
    case Lost => row.status == RowStatus.PENDING && row.txid.None?
    case Refused => row.status == RowStatus.FAILED && id !in book
    case Sent(txid) =>
      && id in book && book[id].txid == txid
      && if fill.Some? && fill.value.Found? && Finished(fill.value.status)
         then Done(book[id]) && Resolves(Some(book[id]), row)
         else row.status == RowStatus.PENDING && row.txid == Some(txid)
  }

  /** The lookup was answered about finished business: an order off the book, or none although its grace has passed.
      Within the grace only an order that was found counts. */
  ghost predicate Decisive(asOf: int, id: ClOrdId, row: Row, book: map<ClOrdId, Listing>, answer: Option<Lookup>) {
    && answer.Some? && (id in book ==> Done(book[id]))
    && (row.attemptedAt + ABSENCE_GRACE <= asOf || (id in book && answer != Some(Absent)))
  }

  ghost predicate AllDecisive(
    asOf: int, pending: seq<ClOrdId>, answers: seq<Option<Lookup>>, before: Rows, book: map<ClOrdId, Listing>)
  {
    && |answers| == |pending|
    && forall i :: 0 <= i < |answers| ==>
         pending[i] in before && Decisive(asOf, pending[i], before[pending[i]], book, answers[i])
  }

  /** Every row whose lookup was decisive reads what Kraken's order book held of it. */
  ghost predicate ReadsTheBook(
    asOf: int, pending: seq<ClOrdId>, answers: seq<Option<Lookup>>, before: Rows, book: map<ClOrdId, Listing>,
    after: Rows)
  {
    |answers| <= |pending|
    && forall i :: 0 <= i < |answers| ==>
         && pending[i] in before && pending[i] in after
         && (Decisive(asOf, pending[i], before[pending[i]], book, answers[i]) ==>
               Resolves(InTheBook(book, pending[i]), after[pending[i]]))
  }

  /** What the answers so far make of their rows, whatever else was judged. */
  ghost predicate AnswersTell(
    asOf: int, pending: seq<ClOrdId>, answers: seq<Option<Lookup>>, before: Rows, book: map<ClOrdId, Listing>)
  {
    |answers| <= |pending|
    && forall i :: 0 <= i < |answers| && pending[i] in before ==>
         (Decisive(asOf, pending[i], before[pending[i]], book, answers[i]) ==>
            Resolves(InTheBook(book, pending[i]), Judged(asOf, before[pending[i]], answers[i])))
  }

  lemma NothingToTell(asOf: int, pending: seq<ClOrdId>, before: Rows, book: map<ClOrdId, Listing>)
    ensures AnswersTell(asOf, pending, [], before, book)
  {
  }

  lemma OneMoreTells(
      asOf: int, pending: seq<ClOrdId>, answers: seq<Option<Lookup>>, before: Rows, book: map<ClOrdId, Listing>,
      answer: Option<Lookup>)
    requires AnswersTell(asOf, pending, answers, before, book) && |answers| < |pending|
    requires
      var id := pending[|answers|];
      id in before && (Decisive(asOf, id, before[id], book, answer) ==>
        Resolves(InTheBook(book, id), Judged(asOf, before[id], answer)))
    ensures AnswersTell(asOf, pending, answers + [answer], before, book)
  {
    hide Judged, Decisive, Resolves;
  }

  lemma ToldIsRead(
      asOf: int, pending: seq<ClOrdId>, answers: seq<Option<Lookup>>, before: Rows, book: map<ClOrdId, Listing>,
      after: Rows)
    requires AnswersTell(asOf, pending, answers, before, book) && ResolvedSoFar(asOf, pending, answers, before, after)
    ensures ReadsTheBook(asOf, pending, answers, before, book, after)
  {
    hide Judged, Decisive, Resolves;
  }

  /** A reading of the order itself, or an absence where there is none, writes down what the book says. */
  lemma JudgedAsRead(asOf: int, row: Row, order: Option<Listing>, answer: Lookup)
    requires order.Some? ==> Done(order.value)
    requires answer == if order.Some? then KrakenOrders.Read(order.value) else Absent
    requires answer == Absent ==> row.attemptedAt + ABSENCE_GRACE <= asOf
    ensures Resolves(order, Judged(asOf, row, Some(answer)))
  {
  }

  /** What was decisive about an earlier book is decisive about a later one, which holds the same of it. */
  lemma StillDecisive(asOf: int, id: ClOrdId, w: World, w': World, answer: Option<Lookup>)
    requires id in w.rows && Later(w, w', id) && asOf <= w.now
    requires Decisive(asOf, id, w.rows[id], w.book, answer)
    ensures id in w'.rows && Decisive(asOf, id, w'.rows[id], w'.book, answer)
    ensures InTheBook(w'.book, id) == InTheBook(w.book, id)
  {
  }

  /** What holds of one row since the resolution began, once its lookup came. */
  lemma LookupTells(
      w: World, between: World, asOf: int, id: ClOrdId, lookup: Option<Lookup>, row: Row)
    requires id in w.rows && id in between.rows && between.rows[id] == w.rows[id] && asOf <= w.now
    requires Later(w, between, id)
    requires Decisive(asOf, id, between.rows[id], between.book, lookup) ==> Resolves(InTheBook(between.book, id), row)
    ensures Decisive(asOf, id, w.rows[id], w.book, lookup) ==> Resolves(InTheBook(w.book, id), row)
  {
    hide Resolves;
    if Decisive(asOf, id, w.rows[id], w.book, lookup) { StillDecisive(asOf, id, w, between, lookup); }
  }

  /** With every lookup answered, every order off the book and every attempt past its grace, all of them were, and
      each row has exactly what its order executed, or has failed. */
  lemma FinishedBookIsDecisive(
      asOf: int, pending: seq<ClOrdId>, answers: seq<Option<Lookup>>, before: Rows, book: map<ClOrdId, Listing>,
      after: Rows)
    requires |answers| == |pending| && None !in answers && forall id :: id in book ==> Done(book[id])
    requires forall id :: id in pending ==> id in before && before[id].attemptedAt + ABSENCE_GRACE <= asOf
    requires ReadsTheBook(asOf, pending, answers, before, book, after)
    ensures AllDecisive(asOf, pending, answers, before, book)
    ensures forall id :: id in pending ==> id in after && Resolves(InTheBook(book, id), after[id])
  {
    hide Done, Resolves;
    forall i | 0 <= i < |pending|
      ensures pending[i] in before && Decisive(asOf, pending[i], before[pending[i]], book, answers[i])
    {
      assert pending[i] in pending && answers[i] in answers;
    }
  }

  /** When every lookup was decisive nothing is open any more. */
  lemma DecisiveIsClear(
      asOf: int, pending: seq<ClOrdId>, answers: seq<Option<Lookup>>, before: Rows, book: map<ClOrdId, Listing>,
      after: Rows)
    requires AllDecisive(asOf, pending, answers, before, book)
    requires ReadsTheBook(asOf, pending, answers, before, book, after)
    requires PendingIds(before) == (set id | id in pending) && ResolvedSoFar(asOf, pending, answers, before, after)
    ensures NothingOpen(after)
  {
    hide Judged, Decisive;
    assert pending[..|pending|] == pending;
    forall id | id in after ensures after[id].status != RowStatus.PENDING {
      if id in pending {
        var i :| 0 <= i < |pending| && pending[i] == id;
        assert Resolves(InTheBook(book, pending[i]), after[pending[i]]);
      } else {
        assert id !in PendingIds(before);
      }
    }
  }

  /** The first open attempts read what their answers say, and every other row is as it was. */
  ghost predicate ResolvedSoFar(
    asOf: int, pending: seq<ClOrdId>, answers: seq<Option<Lookup>>, before: Rows, after: Rows)
  {
    && after.Keys == before.Keys && |answers| <= |pending|
    && (forall i :: 0 <= i < |answers| ==>
          pending[i] in before && after[pending[i]] == Judged(asOf, before[pending[i]], answers[i]))
    && (forall id :: id in after && id !in pending[..|answers|] ==> after[id] == before[id])
  }

  ghost predicate NothingOpen(rows: Rows) {
    forall id :: id in rows ==> rows[id].status != RowStatus.PENDING
  }

  ghost predicate NoneOpen(ids: seq<ClOrdId>, rows: Rows) {
    forall i :: 0 <= i < |ids| && ids[i] in rows ==> rows[ids[i]].status != RowStatus.PENDING
  }

  lemma OthersKept(asOf: int, pending: seq<ClOrdId>, answers: seq<Option<Lookup>>, before: Rows, after: Rows)
    requires ResolvedSoFar(asOf, pending, answers, before, after) && PendingIds(before) == set id | id in pending
    ensures ResolvedKept(before, after)
  {
    hide Judged;
    forall id | id in before && before[id].status != RowStatus.PENDING ensures id !in pending[..|answers|] {
      assert id !in PendingIds(before);
    }
  }

  lemma NoneOfNone(rows: Rows)
    ensures NoneOpen([], rows)
  {
  }

  lemma NothingResolved(asOf: int, pending: seq<ClOrdId>, rows: Rows)
    ensures ResolvedSoFar(asOf, pending, [], rows, rows)
  {
  }

  lemma OneMoreResolved(
    asOf: int, pending: seq<ClOrdId>, answers: seq<Option<Lookup>>, before: Rows, rows: Rows, answer: Option<Lookup>)
    requires NoRepeats(pending) && |answers| < |pending| && ResolvedSoFar(asOf, pending, answers, before, rows)
    requires pending[|answers|] in before
    ensures
      var id := pending[|answers|];
      rows[id] == before[id]
      && ResolvedSoFar(asOf, pending, answers + [answer], before, rows[id := Judged(asOf, rows[id], answer)])
  {
    hide Judged;
    var n, id := |answers|, pending[|answers|];
    assert pending[..n + 1] == pending[..n] + [id];
    assert id !in pending[..n];
    forall i | 0 <= i < n ensures pending[i] != id {}
  }

  lemma OneMoreClosed(pending: seq<ClOrdId>, n: nat, rows: Rows, row: Row)
    requires NoRepeats(pending) && n < |pending|
    ensures NoneOpen(pending[..n + 1], rows[pending[n] := row]) <==>
      NoneOpen(pending[..n], rows) && row.status != RowStatus.PENDING
  {
    var after := rows[pending[n] := row];
    forall i | 0 <= i < n ensures pending[..n + 1][i] == pending[..n][i] == pending[i] != pending[n] {}
    assert pending[..n + 1][n] == pending[n];
    if NoneOpen(pending[..n + 1], after) {
      forall i | 0 <= i < n && pending[..n][i] in rows ensures rows[pending[..n][i]].status != RowStatus.PENDING {
        assert pending[..n + 1][i] in after;
      }
    }
  }

  lemma AllResolved(asOf: int, pending: seq<ClOrdId>, answers: seq<Option<Lookup>>, before: Rows, after: Rows)
    requires ResolvedSoFar(asOf, pending, answers, before, after) && |answers| == |pending|
    requires PendingIds(before) == set id | id in pending
    ensures NoneOpen(pending, after) <==> forall id :: id in after ==> after[id].status != RowStatus.PENDING
  {
    hide Judged;
    assert pending[..|pending|] == pending;
    forall id | id in after && id !in pending ensures after[id].status != RowStatus.PENDING {
      assert id !in PendingIds(before);
    }
    assert forall i :: 0 <= i < |pending| ==> pending[i] in pending && pending[i] in PendingIds(before);
  }

  /** Settling an order Kraken named never leaves it unnamed. */
  lemma SettledIsNamed(row: Row, answer: Option<Lookup>)
    requires row.txid.Some?
    ensures SettledRow(row, answer).limit == row.limit
    ensures SettledRow(row, answer).status == RowStatus.PENDING ==> SettledRow(row, answer).txid.Some?
  {
  }

  /** core/settlement.py `settle`: the open row becomes `SettledRow` of the answer, no other row changes, and the
      status is the new row's. */
  method Settle(ledger: Ledger, id: ClOrdId, lookup: Option<Lookup>) returns (status: RowStatus)
    requires ledger.Valid() && id in ledger.rows && ledger.rows[id].status == RowStatus.PENDING
    modifies ledger`rows
    ensures ledger.Valid() && ledger.rows == old(ledger.rows)[id := SettledRow(old(ledger.rows)[id], lookup)]
    ensures status == ledger.rows[id].status
    ensures lookup.None? ==> ledger.rows == old(ledger.rows)
    ensures lookup == Some(Absent) ==> status == RowStatus.FAILED
    ensures lookup.Some? && lookup.value.Found? ==>
      var row, txid, executed := ledger.rows[id], lookup.value.txid, lookup.value.executed;
      if !Finished(lookup.value.status) then status == RowStatus.PENDING && row.txid == Some(txid)
      else if executed.volume <= 0.0 then status == RowStatus.FAILED
      else status == RowStatus.FILLED && row.txid == Some(txid) && row.executed == Some(executed)
  {
    status := RowStatus.PENDING;
    match lookup
    case None =>
      assert ledger.rows == ledger.rows[id := ledger.rows[id]];
    case Some(Absent) =>
      ledger.MarkFailed(id);
      status := RowStatus.FAILED;
    case Some(Found(txid, word, executed)) =>
      if Finished(word) {
        if executed.volume > 0.0 {
          ledger.MarkFilled(id, txid, executed);
          status := RowStatus.FILLED;
        } else {
          ledger.MarkFailed(id);
          status := RowStatus.FAILED;
        }
      } else {
        ledger.MarkSent(id, txid);
      }
  }

  lemma NoListIsTruthful(w: World, id: ClOrdId, closed: bool)
    ensures TruthfulList(w, id, closed, None)
  {
  }

  lemma NoQueryIsTruthful(w: World, txid: Txid)
    ensures TruthfulQuery(w, txid, None) && FindByTxid(None, txid).None?
  {
  }

  class Executor {
    const ledger: Ledger
    var locked: bool
    var session: nat
    // Kraken and the clock.
    var now: int
    var inFlight: set<ClOrdId>
    var book: map<ClOrdId, Listing>
    var asked: Asks
    // Where the evaluation is in the protocol, and the steps taken since the beginning.
    ghost var phase: Phase
    ghost var trace: seq<Event>

    ghost function State(): World
      reads this, ledger
    {
      World(now, ledger.rows, inFlight, book, session, phase)
    }

    ghost predicate Valid()
      reads this, ledger
    {
      && ledger.Valid() && Run(Start, trace) == Some(State()) && Inv(State()) && (phase != Idle ==> locked)
      // Kraken has no order, judged or not, that was not asked for.
      && inFlight + book.Keys <= Ids(asked)
    }

    constructor ()
      ensures Valid() && !locked && fresh(ledger)
    {
      ledger := new Ledger();
      locked, session, now, inFlight, book, asked := false, 0, 0, {}, map[], [];
      phase, trace := Idle, [];
    }

    /** What holds of an attempt since an earlier point of this run. */
    lemma SinceThen(before: seq<Event>, w: World, id: ClOrdId)
      requires Valid() && before <= trace && Run(Start, before) == Some(w) && id in w.rows
      ensures Later(w, State(), id)
    {
      LaterSince(before, trace, id);
    }

    lemma FinishedSince(before: seq<Event>, w: World, id: ClOrdId)
      requires Valid() && before <= trace && Run(Start, before) == Some(w) && id in w.rows
      ensures id in w.book && Done(w.book[id]) ==> id in book && book[id] == w.book[id]
    {
      SinceThen(before, w, id);
    }

    /** A truthful list shows an order finished before then on the side it is on, as it is, or not at all. */
    lemma ListTells(before: seq<Event>, w: World, id: ClOrdId, closed: bool, orders: Option<seq<Listing>>)
      requires Valid() && before <= trace && Run(Start, before) == Some(w) && id in w.rows
      requires TruthfulList(View(), id, closed, orders)
      ensures TruthfulList(State(), id, closed, orders)
      ensures orders.Some? && id in w.book && Done(w.book[id]) ==>
        Match(orders.value, id) in (if closed then {None, Some(KrakenOrders.Read(w.book[id]))} else {None})
    {
      hide Run, Inv, Ids;
      FinishedSince(before, w, id);
      if orders.Some? && Match(orders.value, id).Some? { ListedIsTheOrder(View(), id, closed, orders.value); }
    }

    /** And so does a truthful answer about a row's txid. */
    lemma QueryTells(before: seq<Event>, w: World, id: ClOrdId, txid: Txid, named: Option<map<Txid, Listing>>)
      requires Valid() && before <= trace && Run(Start, before) == Some(w) && id in w.rows
      requires id in ledger.rows && ledger.rows[id].txid == Some(txid) && TruthfulQuery(View(), txid, named)
      ensures TruthfulQuery(State(), txid, named) && FindByTxid(named, txid) != Some(Absent)
      ensures FindByTxid(named, txid).Some? && id in w.book && Done(w.book[id]) ==>
        FindByTxid(named, txid) == Some(KrakenOrders.Read(w.book[id]))
    {
      hide Run, Ids, Done;
      FinishedSince(before, w, id);
      if FindByTxid(named, txid).Some? { NamedIsTheOrder(State(), id, txid, named); }
    }

    // ----- The world outside -----------------------------------------------------------

    function View(): World
      reads this, ledger
    {
      World(now, ledger.rows, inFlight, book, 0, Idle)
    }

    /** Whatever Kraken and the clock may do while this process is not looking. */
    method Meanwhile()
      requires Valid()
      modifies `now, `inFlight, `book, `trace
      ensures old(trace) <= trace
      ensures Valid() && old(now) <= now
    {
      hide Run, Inv, Ids;
      var steps: int := *;
      while steps > 0
        invariant Valid() && old(now) <= now && old(trace) <= trace
      {
        steps := steps - 1;
        var e: Outside := *;
        if CanHappen(View(), e) {
          Undergo(e);
        }
      }
    }

    method Undergo(e: Outside)
      requires Valid() && CanHappen(View(), e)
      modifies `now, `inFlight, `book, `trace
      ensures old(trace) <= trace
      ensures Valid() && old(now) <= now
    {
      hide Run, Inv, Ids, Done, Counted;
      ghost var w := State();
      var next := Happen(View(), e);
      now, inFlight, book := next.now, next.inFlight, next.book;
      Extend(trace, w, Out(e), State());
      trace := trace + [Out(e)];
    }

    /** Time passes, and the process may die: the lock goes with it, and nothing else changes. */
    method Pause() returns (alive: bool)
      requires Valid() && locked
      modifies `now, `inFlight, `book, `trace, `phase, `locked
      ensures old(trace) <= trace
      ensures Valid() && old(now) <= now
      ensures if alive then locked && phase == old(phase) else !locked && phase == Idle
    {
      hide Run, Inv, Ids;
      Meanwhile();
      alive := *;
      if !alive {
        LetGo();
      }
    }

    /** The end of an evaluation. */
    method LetGo()
      requires Valid()
      modifies `phase, `locked, `trace
      ensures old(trace) <= trace
      ensures Valid() && !locked && phase == Idle
    {
      hide Run, Inv, Ids;
      ghost var w := State();
      phase := Idle;
      locked := false;
      Extend(trace, w, Release, State());
      trace := trace + [Release];
    }

    method OpenOrders(id: ClOrdId) returns (orders: Option<seq<Listing>>, alive: bool)
      requires Valid() && locked && phase.Resolving? && phase.todo != [] && phase.todo[0] == id
      requires Unnamed(ledger.rows, id)
      modifies `now, `inFlight, `book, `trace, `phase, `locked
      ensures old(trace) <= trace
      ensures Valid()
      ensures if alive then locked && phase == AfterOpen(old(phase).asOf, old(phase).todo, old(phase).clear, orders)
        else !locked
      ensures orders.Some? && id in old(book) && Done(old(book)[id]) ==> Match(orders.value, id).None?
    {
      hide Run, Inv, Ids, TruthfulList, Done, Match;
      orders := None;
      alive := Pause();
      if alive {
        var answer: Option<seq<Listing>> := *;
        NoListIsTruthful(State(), id, false);
        if TruthfulList(View(), id, false, answer) {
          orders := answer;
          ListTells(old(trace), old(State()), id, false, orders);
        }
        ghost var w := State();
        phase := AfterOpen(phase.asOf, phase.todo, phase.clear, orders);
        Extend(trace, w, Resolve(AskOpen(orders)), State());
        trace := trace + [Resolve(AskOpen(orders))];
      }
    }

    method ClosedOrders(id: ClOrdId) returns (orders: Option<seq<Listing>>, alive: bool)
      requires Valid() && locked && phase.OpenAsked? && phase.todo != [] && phase.todo[0] == id
      requires id in ledger.rows
      modifies `now, `inFlight, `book, `trace, `phase, `locked
      ensures old(trace) <= trace
      ensures Valid()
      ensures if alive
        then locked
          && phase == Judging(old(phase).asOf, old(phase).todo, old(phase).clear,
            AfterClosed(id, old(phase).unresolved, orders))
        else !locked
      ensures orders.Some? && id in old(book) && Done(old(book)[id]) ==>
        Match(orders.value, id) in {None, Some(KrakenOrders.Read(old(book)[id]))}
    {
      hide Run, Inv, Ids, TruthfulList, Done, Match;
      orders := None;
      alive := Pause();
      if alive {
        var answer: Option<seq<Listing>> := *;
        NoListIsTruthful(State(), id, true);
        if TruthfulList(View(), id, true, answer) {
          orders := answer;
          ListTells(old(trace), old(State()), id, true, orders);
        }
        ghost var w := State();
        phase := Judging(phase.asOf, phase.todo, phase.clear, AfterClosed(id, phase.unresolved, orders));
        Extend(trace, w, Resolve(AskClosed(orders)), State());
        trace := trace + [Resolve(AskClosed(orders))];
      }
    }

    /** `find_order_by_txid`, before planning or right after sending. */
    method FindOrderByTxid(id: ClOrdId, txid: Txid)
      returns (lookup: Option<Lookup>, alive: bool, ghost named: Option<map<Txid, Listing>>)
      requires Valid() && locked && id in ledger.rows && ledger.rows[id].txid == Some(txid)
      requires (phase.Resolving? && phase.todo != [] && phase.todo[0] == id) || phase == Reading(id)
      modifies `now, `inFlight, `book, `trace, `phase, `locked
      ensures old(trace) <= trace
      ensures Valid() && lookup != Some(Absent)
      ensures lookup.Some? <==> named.Some? && txid in named.value
      ensures if !alive then !locked
        else if old(phase).Resolving?
          then locked && phase == Judging(old(phase).asOf, old(phase).todo, old(phase).clear, lookup)
        else locked && phase == Settling(id, lookup)
      ensures lookup.Some? && id in old(book) && Done(old(book)[id]) ==>
        lookup == Some(KrakenOrders.Read(old(book)[id]))
    {
      hide Run, Inv, Ids, TruthfulQuery, FindByTxid, Done;
      lookup, named := None, None;
      alive := Pause();
      if alive {
        var orders: Option<map<Txid, Listing>> := None;
        var answer: Option<map<Txid, Listing>> := *;
        NoQueryIsTruthful(State(), txid);
        if TruthfulQuery(View(), txid, answer) {
          orders := answer;
          QueryTells(old(trace), old(State()), id, txid, orders);
        }
        lookup, named := FindByTxid(orders, txid), orders;
        ghost var w := State();
        ghost var e := if phase.Resolving? then Resolve(AskTxid(orders)) else Deliver(ReadBack(orders));
        phase := if phase.Resolving? then Judging(phase.asOf, phase.todo, phase.clear, lookup)
          else Settling(id, lookup);
        Extend(trace, w, e, State());
        trace := trace + [e];
      }
    }

    /** `find_order_by_cl_ord_id`, with the answers it read. Closed orders are asked only if no open one is it. */
    method FindOrderByClOrdId(id: ClOrdId)
      returns (lookup: Option<Lookup>, alive: bool, ghost open: Option<seq<Listing>>,
        ghost closed: Option<seq<Listing>>)
      requires Valid() && locked && phase.Resolving? && phase.todo != [] && phase.todo[0] == id
      requires Unnamed(ledger.rows, id)
      modifies `now, `inFlight, `book, `trace, `phase, `locked
      ensures old(trace) <= trace
      ensures Valid()
      ensures if alive then locked && phase == Judging(old(phase).asOf, old(phase).todo, old(phase).clear, lookup)
        else !locked
      ensures alive ==> lookup == Verdict(id, open, closed)
      ensures lookup.Some? && id in old(book) && Done(old(book)[id]) ==>
        lookup in {Some(Absent), Some(KrakenOrders.Read(old(book)[id]))}
    {
      hide Run, Inv, Ids, Later;
      ghost var start := phase;
      var unresolved := false;
      alive, open, closed := true, None, None;
      for i := 0 to 2
        invariant Valid() && locked && old(trace) <= trace
        invariant i == 0 ==> phase == start && !unresolved
        invariant i == 1 ==> phase == OpenAsked(start.asOf, start.todo, start.clear, unresolved)
        invariant closed.Some? ==> i == 2
        invariant open.Some? ==> Match(open.value, id).None?
        invariant closed.Some? ==> Match(closed.value, id).None?
        invariant i == 1 ==> (unresolved <==> open != Some([]))
        invariant i == 2 ==> (unresolved <==> open != Some([]) || closed != Some([]))
        invariant i == 2 ==>
          phase == Judging(start.asOf, start.todo, start.clear, if unresolved then None else Some(Absent))
      {
        var orders;
        FinishedSince(old(trace), old(State()), id);
        if i == 0 {
          orders, alive := OpenOrders(id);
          open := orders;
        } else {
          orders, alive := ClosedOrders(id);
          closed := orders;
        }
        if !alive {
          return None, false, open, closed;
        }
        if orders.None? {
          unresolved := true;
        } else if orders.value != [] {
          var found := Match(orders.value, id);
          if found.Some? {
            return found, true, open, closed;
          }
          unresolved := true;
        }
      }
      return (if unresolved then None else Some(Absent)), true, open, closed;
    }

    /** One lookup written down, in a transaction of its own. */
    method CommitSettle(id: ClOrdId, lookup: Option<Lookup>) returns (status: RowStatus)
      requires Valid() && locked && id in ledger.rows && ledger.rows[id].status == RowStatus.PENDING
      requires
        || (phase.Judging? && phase.todo != [] && phase.todo[0] == id && phase.answer == lookup
            && !TooSoon(phase.asOf, ledger.rows[id], lookup))
        || phase == Settling(id, lookup)
      modifies `trace, `phase, ledger`rows
      ensures old(trace) <= trace
      ensures Valid() && locked
      ensures ledger.rows == old(ledger.rows)[id := SettledRow(old(ledger.rows)[id], lookup)]
      ensures status == ledger.rows[id].status
      ensures phase == if old(phase).Judging?
        then Resolving(old(phase).asOf, old(phase).todo[1..], old(phase).clear && status != RowStatus.PENDING)
        else Sending(false)
    {
      hide Run, Inv, Ids, SettledRow;
      ghost var w := State();
      ghost var e := if phase.Judging? then Resolve(Judge) else Deliver(MarkSettled);
      status := Settle(ledger, id, lookup);
      phase := if phase.Judging?
        then Resolving(phase.asOf, phase.todo[1..], phase.clear && status != RowStatus.PENDING)
        else Sending(false);
      Extend(trace, w, e, State());
      trace := trace + [e];
    }

    /** The step of an absence within the grace: the row stays open, and the evaluation will not plan. */
    ghost method Disbelieve(id: ClOrdId)
      requires Valid() && locked && id in ledger.rows
      requires phase.Judging? && phase.todo != [] && phase.todo[0] == id
      requires TooSoon(phase.asOf, ledger.rows[id], phase.answer)
      modifies `trace, `phase
      ensures old(trace) <= trace
      ensures Valid() && phase == Resolving(old(phase).asOf, old(phase).todo[1..], false)
    {
      hide Run, Inv, Ids;
      var w := State();
      phase := Resolving(phase.asOf, phase.todo[1..], false);
      Extend(trace, w, Resolve(Judge), State());
      trace := trace + [Resolve(Judge)];
    }

    method Begin(asOf: int) returns (pending: seq<ClOrdId>)
      requires Valid() && locked && phase == Idle && asOf <= now
      modifies `session, `phase, `trace
      ensures old(trace) <= trace
      ensures Valid() && session == old(session) + 1 && phase == Resolving(asOf, pending, true)
      ensures pending == OpenOf(ledger.rows, ledger.log) && NoRepeats(pending)
      ensures PendingIds(ledger.rows) == set id | id in pending
    {
      hide Run, Inv, Ids;
      pending := ledger.PendingOrders();
      ghost var w := State();
      session := session + 1;
      phase := Resolving(asOf, pending, true);
      Extend(trace, w, Resolve(Resolution.Begin(asOf, pending)), State());
      trace := trace + [Resolve(Resolution.Begin(asOf, pending))];
    }

    /** Every attempt looked up. */
    ghost method Finish()
      requires Valid() && locked && phase.Resolving? && phase.todo == []
      modifies `phase, `trace
      ensures old(trace) <= trace
      ensures Valid() && phase == (if old(phase).clear then Planning else Idle)
    {
      hide Run, Inv, Ids;
      var w := State();
      phase := if phase.clear then Planning else Idle;
      Extend(trace, w, Resolve(Resolved), State());
      trace := trace + [Resolve(Resolved)];
    }

    lemma HeadIsPending(asOf: int, todo: seq<ClOrdId>, clear: bool)
      requires Valid() && phase == Resolving(asOf, todo, clear) && todo != []
      ensures todo[0] in ledger.rows && ledger.rows[todo[0]].status == RowStatus.PENDING
    {
      assert todo[0] in todo;
    }

    /** What a decisive lookup said is what the order book held when it began. */
    lemma DecisiveIsRead(before: seq<Event>, w: World, id: ClOrdId, asOf: int, lookup: Option<Lookup>)
      requires Valid() && before <= trace && Run(Start, before) == Some(w)
      requires w.phase.Resolving? && w.phase.asOf == asOf && id in w.rows
      requires phase.Judging? && phase.asOf == asOf && phase.todo != [] && phase.todo[0] == id && phase.answer == lookup
      requires ledger.rows == w.rows && Decisive(asOf, id, w.rows[id], w.book, lookup)
      requires lookup.Some? && id in w.book && Done(w.book[id]) ==>
        lookup in {Some(Absent), Some(KrakenOrders.Read(w.book[id]))}
      ensures Resolves(InTheBook(w.book, id), Judged(asOf, w.rows[id], lookup))
    {
      hide Run, Ids, Resolves, Judged, Done;
      SinceThen(before, w, id);
      assert asOf <= w.now by { Safety(before); }
      if id in w.book {
        assert lookup != Some(Absent);
      } else {
        assert id !in book;
      }
      JudgedAsRead(asOf, w.rows[id], InTheBook(w.book, id), lookup.value);
    }

    /** One open attempt looked up and judged. A decisive lookup leaves the row as the order book has it. */
    method ResolveOne(id: ClOrdId, asOf: int) returns (lookup: Option<Lookup>, status: RowStatus, alive: bool)
      requires Valid() && locked && phase.Resolving? && phase.asOf == asOf && phase.todo != [] && phase.todo[0] == id
      requires id in ledger.rows && ledger.rows[id].status == RowStatus.PENDING
      modifies `now, `inFlight, `book, `trace, `phase, `locked, ledger`rows
      ensures old(trace) <= trace
      ensures Valid()
      ensures if alive
        then locked && phase == Resolving(asOf, old(phase).todo[1..], old(phase).clear && status != RowStatus.PENDING)
          && ledger.rows == old(ledger.rows)[id := Judged(asOf, old(ledger.rows)[id], lookup)]
          && status == ledger.rows[id].status
        else !locked && ledger.rows == old(ledger.rows)
      ensures alive && Decisive(asOf, id, old(ledger.rows)[id], old(book), lookup) ==>
        Resolves(InTheBook(old(book), id), ledger.rows[id])
    {
      hide Run, Inv, Ids, Judged, Decisive, Resolves, InTheBook, Done;
      status := RowStatus.PENDING;
      if ledger.rows[id].txid.Some? {
        ghost var named;
        lookup, alive, named := FindOrderByTxid(id, ledger.rows[id].txid.value);
      } else {
        ghost var open, closed;
        lookup, alive, open, closed := FindOrderByClOrdId(id);
      }
      if !alive {
        return;
      }
      if Decisive(asOf, id, old(ledger.rows)[id], old(book), lookup) {
        DecisiveIsRead(old(trace), old(State()), id, asOf, lookup);
      }
      alive := Pause();
      if !alive {
        return;
      }
      status := JudgeOne(id, asOf, lookup);
    }

    /** The lookup written down, unless it is an absence too soon to be believed. */
    method JudgeOne(id: ClOrdId, asOf: int, lookup: Option<Lookup>) returns (status: RowStatus)
      requires Valid() && locked && phase.Judging? && phase.asOf == asOf && phase.todo != [] && phase.todo[0] == id
      requires phase.answer == lookup && id in ledger.rows && ledger.rows[id].status == RowStatus.PENDING
      modifies `trace, `phase, ledger`rows
      ensures old(trace) <= trace
      ensures Valid() && status == ledger.rows[id].status
      ensures phase == Resolving(asOf, old(phase).todo[1..], old(phase).clear && status != RowStatus.PENDING)
      ensures ledger.rows == old(ledger.rows)[id := Judged(asOf, old(ledger.rows)[id], lookup)]
    {
      hide Run, Inv, Ids, SettledRow;
      status := RowStatus.PENDING;
      if TooSoon(asOf, ledger.rows[id], lookup) {
        Disbelieve(id);
        assert ledger.rows == ledger.rows[id := ledger.rows[id]];
      } else {
        status := CommitSettle(id, lookup);
      }
    }

    /** Where planning begins, the ledger holds what Kraken executed. */
    lemma ClearIsExact()
      requires Valid() && phase == Planning
      ensures ExecutedInLedger(State()) == ExecutedAtKraken(State())
    {
      PlanSeesEverything(trace);
    }

    /** `resolve_pending`: every open attempt of the user is looked up, and its row becomes what the answer
        says. `clear` means none is open any more; `lookupFailed`, that Kraken did not answer for one. Whatever the
        lookups were decisive about is resolved as the order book has it, and if that is all of them, all is clear. */
    method ResolvePending(asOf: int)
      returns (clear: bool, lookupFailed: bool, alive: bool, ghost answers: seq<Option<Lookup>>)
      requires Valid() && locked && phase == Idle && asOf <= now
      modifies `now, `inFlight, `book, `trace, `phase, `locked, `session, ledger`rows
      ensures old(trace) <= trace
      ensures Valid()
      ensures if alive then locked && phase == (if clear then Planning else Idle) else !locked
      ensures ResolvedSoFar(asOf, OpenOf(old(ledger.rows), ledger.log), answers, old(ledger.rows), ledger.rows)
      ensures ResolvedKept(old(ledger.rows), ledger.rows)
      ensures alive ==> |answers| == |OpenOf(old(ledger.rows), ledger.log)|
      ensures alive ==> (clear <==> NothingOpen(ledger.rows))
      ensures alive ==> (lookupFailed <==> None in answers)
      ensures
        ReadsTheBook(asOf, OpenOf(old(ledger.rows), ledger.log), answers, old(ledger.rows), old(book), ledger.rows)
      ensures alive && AllDecisive(asOf, OpenOf(old(ledger.rows), ledger.log), answers, old(ledger.rows), old(book)) ==>
        clear
      ensures alive && clear ==> ExecutedInLedger(State()) == ExecutedAtKraken(State())
    {
      hide Run, Inv, Ids, Judged, ResolvedSoFar, ResolvedKept, OpenOf, NoneOpen, NoRepeats;
      hide AnswersTell, ReadsTheBook, AllDecisive, Decisive, Resolves, InTheBook, Later, Done, PendingIds;
      hide ExecutedInLedger, ExecutedAtKraken;
      var pending := Begin(asOf);
      clear, lookupFailed, alive, answers := true, false, true, [];
      NothingResolved(asOf, pending, ledger.rows);
      OthersKept(asOf, pending, [], ledger.rows, ledger.rows);
      NothingToTell(asOf, pending, ledger.rows, book);
      ToldIsRead(asOf, pending, [], ledger.rows, book, ledger.rows);
      assert pending[0..] == pending;
      assert NoneOpen(pending[..0], ledger.rows) by { NoneOfNone(ledger.rows); }
      for i := 0 to |pending|
        invariant Valid() && locked && phase == Resolving(asOf, pending[i..], clear) && |answers| == i
        invariant old(trace) <= trace
        invariant ResolvedKept(old(ledger.rows), ledger.rows)
        invariant ResolvedSoFar(asOf, pending, answers, old(ledger.rows), ledger.rows)
        invariant ledger.rows.Keys == old(ledger.rows).Keys
        invariant AnswersTell(asOf, pending, answers, old(ledger.rows), old(book))
        invariant ReadsTheBook(asOf, pending, answers, old(ledger.rows), old(book), ledger.rows)
        invariant clear <==> NoneOpen(pending[..i], ledger.rows)
        invariant lookupFailed <==> None in answers
      {
        var id := pending[i];
        HeadIsPending(asOf, pending[i..], clear);
        assert pending[i..][1..] == pending[i + 1..];
        ghost var rows, between := ledger.rows, State();
        SinceThen(old(trace), old(State()), id);
        var lookup, status;
        lookup, status, alive := ResolveOne(id, asOf);
        if !alive {
          return;
        }
        if lookup.None? {
          lookupFailed := true;
        }
        if status == RowStatus.PENDING {
          clear := false;
        }
        OneMoreResolved(asOf, pending, answers, old(ledger.rows), rows, lookup);
        OneMoreClosed(pending, i, rows, ledger.rows[id]);
        LookupTells(old(State()), between, asOf, id, lookup, ledger.rows[id]);
        OneMoreTells(asOf, pending, answers, old(ledger.rows), old(book), lookup);
        answers := answers + [lookup];
        OthersKept(asOf, pending, answers, old(ledger.rows), ledger.rows);
        ToldIsRead(asOf, pending, answers, old(ledger.rows), old(book), ledger.rows);
      }
      assert pending[..|pending|] == pending;
      AllResolved(asOf, pending, answers, old(ledger.rows), ledger.rows);
      if AllDecisive(asOf, pending, answers, old(ledger.rows), old(book)) {
        DecisiveIsClear(asOf, pending, answers, old(ledger.rows), old(book), ledger.rows);
      }
      Finish();
      if clear { ClearIsExact(); }
    }

    // ----- Sending -----------------------------------------------------------------------

    method CommitAttempt(id: ClOrdId, limit: Option<real>)
      requires Valid() && locked && phase == Sending(false) && id !in ledger.rows
      modifies `phase, `trace, ledger
      ensures old(trace) <= trace
      ensures Valid() && phase == Recorded(id)
      ensures ledger.log == old(ledger.log) + [id]
      ensures ledger.rows == old(ledger.rows)[id := Row(RowStatus.PENDING, None, now, session, limit, None)]
    {
      hide Run, Inv, Ids;
      ghost var w := State();
      ledger.RecordAttempt(id, now, session, limit);
      phase := Recorded(id);
      Extend(trace, w, Deliver(Record(id, now, limit)), State());
      trace := trace + [Deliver(Record(id, now, limit))];
    }

    /** The request leaves. */
    method Issue(id: ClOrdId, leg: PlannedLeg)
      requires Valid() && locked && phase == Recorded(id) && Askable(leg)
      modifies `inFlight, `trace, `phase, `asked
      ensures old(trace) <= trace
      ensures Valid() && phase == Requested(id) && asked == old(asked) + [(id, AskOf(leg))]
    {
      hide Run, Inv, Ids, AskOf;
      ghost var w := State();
      inFlight := inFlight + {id};
      IdsGrow(asked, (id, AskOf(leg)));
      asked := asked + [(id, AskOf(leg))];
      phase := Requested(id);
      Extend(trace, w, Deliver(Request), State());
      trace := trace + [Deliver(Request)];
    }

    /** The answer, as far as it can be read. */
    method Listen(id: ClOrdId) returns (answer: Answer)
      requires Valid() && locked && phase == Requested(id)
      modifies `trace, `phase
      ensures old(trace) <= trace
      ensures Valid()
      ensures phase == match Outcome(answer)
        case Sent(txid) => Named(id, txid)
        case Refused => Rejected(id)
        case Lost => Sending(true)
    {
      hide Run, Inv, Ids;
      answer := NothingReadable;
      var candidate: Answer := *;
      if TruthfulAnswer(View(), id, candidate) {
        answer := candidate;
      }
      ghost var w := State();
      phase := match Outcome(answer)
        case Sent(txid) => Named(id, txid)
        case Refused => Rejected(id)
        case Lost => Sending(true);
      Extend(trace, w, Deliver(Hear(answer)), State());
      trace := trace + [Deliver(Hear(answer))];
    }

    /** Kraken's `AddOrder`: from the moment it is issued the order may exist, answered or not. */
    method AddOrder(id: ClOrdId, leg: PlannedLeg) returns (answer: Answer, alive: bool)
      requires Valid() && locked && phase == Recorded(id) && Askable(leg)
      modifies `now, `inFlight, `book, `trace, `phase, `locked, `asked
      ensures old(trace) <= trace
      ensures Valid()
      ensures asked == old(asked) + [(id, AskOf(leg))] || (!alive && asked == old(asked))
      ensures AskOf(leg) ==
        if leg.side == BUY then Ask(leg.asset, leg.meta.value, BUY, leg.amount, true)
        else Ask(leg.asset, leg.meta.value, SELL, leg.volume.value, false)
      ensures if !alive then !locked
        else locked && match Outcome(answer)
          case Sent(txid) => phase == Named(id, txid)
          case Refused => phase == Rejected(id)
          case Lost => phase == Sending(true)
    {
      hide Run, Inv, Ids;
      answer := NothingReadable;
      alive := Pause();
      if !alive {
        return;
      }
      Issue(id, leg);
      alive := Pause();
      if !alive {
        return;
      }
      answer := Listen(id);
    }

    method CommitSent(id: ClOrdId, txid: Txid)
      requires Valid() && locked && phase == Named(id, txid) && id in ledger.rows
      modifies `phase, `trace, ledger`rows
      ensures old(trace) <= trace
      ensures Valid() && phase == Reading(id)
      ensures ledger.rows == old(ledger.rows)[id := old(ledger.rows)[id].(txid := Some(txid))]
    {
      hide Run, Inv, Ids;
      ghost var w := State();
      ledger.MarkSent(id, txid);
      phase := Reading(id);
      Extend(trace, w, Deliver(Delivery.MarkSent), State());
      trace := trace + [Deliver(Delivery.MarkSent)];
    }

    method CommitFailed(id: ClOrdId)
      requires Valid() && locked && phase == Rejected(id) && id in ledger.rows
      modifies `phase, `trace, ledger`rows
      ensures old(trace) <= trace
      ensures Valid() && phase == Sending(false)
      ensures ledger.rows == old(ledger.rows)[id := old(ledger.rows)[id].(status := RowStatus.FAILED)]
    {
      hide Run, Inv, Ids;
      ghost var w := State();
      ledger.MarkFailed(id);
      phase := Sending(false);
      Extend(trace, w, Deliver(Delivery.MarkFailed), State());
      trace := trace + [Deliver(Delivery.MarkFailed)];
    }

    /** A result reports what its row holds, and Kraken reports nothing negative. */
    lemma RowsAreCounted(id: ClOrdId)
      requires Valid() && id in ledger.rows
      ensures
        var row := ledger.rows[id];
        && (row.status == RowStatus.FILLED ==> row.executed.Some?)
        && (row.executed.Some? ==>
              && row.executed.value.cost >= 0.0 && row.executed.value.fee >= 0.0
              && (row.limit.Some? ==> row.executed.value.cost <= row.limit.value))
    {
      hide Run;
      assert RowTrue(State(), id);
    }

    /** So the row of an order, recorded with its limit, belongs to it. */
    lemma RowBelongs(id: ClOrdId, ask: Ask)
      requires Valid() && id in ledger.rows && ledger.rows[id].limit == LimitOf(ask)
      ensures Belongs(ask, ledger.rows[id])
    {
      hide Run, Inv, Ids;
      RowsAreCounted(id);
    }

    /** Nothing Kraken refused is in its book. */
    lemma RefusedIsNowhere(id: ClOrdId)
      requires Valid() && phase == Rejected(id)
      ensures id !in book
    {
      hide Run, Ids;
    }

    /** A finished fill, read back and written down, is the book's. */
    lemma FillIsTheBooks(id: ClOrdId, txid: Txid, fill: Option<Lookup>)
      requires Valid() && phase == Settling(id, fill) && id in ledger.rows && ledger.rows[id].txid == Some(txid)
      requires ledger.rows[id].status == RowStatus.PENDING
      ensures EndsAs(Placement.Sent(txid), fill, id, SettledRow(ledger.rows[id], fill), book)
    {
      hide Run, Ids, OneUnnamed, OnlyNamed, Counted;
      assert RowTrue(State(), id);
    }

    /** The order of a committed attempt is sent, and its answer written down. */
    method Place(id: ClOrdId, leg: PlannedLeg)
      returns (alive: bool, ghost placed: Placement, ghost fill: Option<Lookup>)
      requires Valid() && locked && phase == Recorded(id) && Unnamed(ledger.rows, id) && Askable(leg)
      modifies `now, `inFlight, `book, `trace, `phase, `locked, `asked, ledger`rows
      ensures old(trace) <= trace
      ensures asked == old(asked) + [(id, AskOf(leg))] || (!alive && asked == old(asked))
      ensures Valid()
      ensures if alive then locked && id in ledger.rows && phase == Sending(Unnamed(ledger.rows, id)) else !locked
      ensures id in ledger.rows && ledger.rows == old(ledger.rows)[id := ledger.rows[id]]
      ensures ledger.rows[id].limit == old(ledger.rows[id].limit)
      ensures alive ==> EndsAs(placed, fill, id, ledger.rows[id], book)
    {
      hide Run, Inv, Ids, Finished, Resolves;
      var answer;
      answer, alive := AddOrder(id, leg);
      placed, fill := Outcome(answer), None;
      if !alive || Outcome(answer) == Lost {
        return;
      }
      alive := Pause();
      if !alive {
        return;
      }
      if Outcome(answer) == Refused {
        RefusedIsNowhere(id);
        CommitFailed(id);
      } else {
        alive, fill := NoteAndRead(id, Outcome(answer).txid);
      }
    }

    /** Kraken named the order: its txid is noted before its fill is read. */
    method NoteAndRead(id: ClOrdId, txid: Txid) returns (alive: bool, ghost fill: Option<Lookup>)
      requires Valid() && locked && phase == Named(id, txid) && Unnamed(ledger.rows, id)
      modifies `now, `inFlight, `book, `trace, `phase, `locked, ledger`rows
      ensures old(trace) <= trace
      ensures Valid()
      ensures if alive then locked && id in ledger.rows && phase == Sending(Unnamed(ledger.rows, id)) else !locked
      ensures id in ledger.rows && ledger.rows == old(ledger.rows)[id := ledger.rows[id]]
      ensures ledger.rows[id].limit == old(ledger.rows[id].limit)
      ensures alive ==> EndsAs(Placement.Sent(txid), fill, id, ledger.rows[id], book)
    {
      hide Run, Inv, Ids, EndsAs, Done, NoRepeats;
      CommitSent(id, txid);
      alive, fill := ReadFill(id, txid);
    }

    /** The fill of an order Kraken named is read back and settled. */
    method ReadFill(id: ClOrdId, txid: Txid) returns (alive: bool, ghost fill: Option<Lookup>)
      requires Valid() && locked && phase == Reading(id)
      requires id in ledger.rows && ledger.rows[id].txid == Some(txid) && ledger.rows[id].status == RowStatus.PENDING
      modifies `now, `inFlight, `book, `trace, `phase, `locked, ledger`rows
      ensures old(trace) <= trace
      ensures Valid()
      ensures if alive then locked && id in ledger.rows && phase == Sending(Unnamed(ledger.rows, id)) else !locked
      ensures id in ledger.rows && ledger.rows == old(ledger.rows)[id := ledger.rows[id]]
      ensures ledger.rows[id].limit == old(ledger.rows[id].limit)
      ensures alive ==> EndsAs(Placement.Sent(txid), fill, id, ledger.rows[id], book)
      ensures fill.Some? && id in old(book) && Done(old(book)[id]) ==> fill == Some(KrakenOrders.Read(old(book)[id]))
    {
      hide Run, Inv, Ids, EndsAs, Done, Finished, KrakenOrders.Read, NoRepeats;
      var lookup;
      ghost var named;
      lookup, alive, named := FindOrderByTxid(id, txid);
      fill := lookup;
      if alive {
        alive := Pause();
      }
      if alive {
        CommitFill(id, txid, lookup);
      }
    }

    /** The fill, written down. */
    method CommitFill(id: ClOrdId, txid: Txid, lookup: Option<Lookup>)
      requires Valid() && locked && phase == Settling(id, lookup)
      requires id in ledger.rows && ledger.rows[id].txid == Some(txid) && ledger.rows[id].status == RowStatus.PENDING
      modifies `trace, `phase, ledger`rows
      ensures old(trace) <= trace
      ensures Valid() && id in ledger.rows && phase == Sending(false) && !Unnamed(ledger.rows, id)
      ensures ledger.rows == old(ledger.rows)[id := ledger.rows[id]]
      ensures ledger.rows[id].limit == old(ledger.rows[id].limit)
      ensures EndsAs(Placement.Sent(txid), lookup, id, ledger.rows[id], book)
    {
      hide Run, Inv, Ids, SettledRow, EndsAs;
      SettledIsNamed(ledger.rows[id], lookup);
      FillIsTheBooks(id, txid, lookup);
      var status := CommitSettle(id, lookup);
    }

    /** One leg: the attempt is committed, then its order is asked once. One row is written, and it is unknown
        afterwards exactly when the answer was lost; a fill read back as finished is in it as the book has it. A
        crash leaves the row or not, and asked or not. */
    method Send(leg: PlannedLeg)
      returns (result: LegResult, alive: bool, ghost placed: Placement, ghost fill: Option<Lookup>)
      requires Valid() && locked && phase == Sending(false) && Askable(leg)
      modifies `now, `inFlight, `book, `trace, `phase, `locked, `asked, ledger
      ensures old(trace) <= trace
      ensures Valid()
      ensures if alive then locked && phase == Sending(IsUnknown(result)) else !locked
      ensures result.leg == leg && asked == old(asked) + AskedBy(result) && Grown(old(ledger.rows), ledger.rows)
      ensures result.clOrdId.Some? ==>
        var id := result.clOrdId.value;
        id !in old(ledger.rows) && id in ledger.rows && Belongs(AskOf(leg), ledger.rows[id])
      ensures if alive
        then
          && result.clOrdId.Some? && result.status != SKIPPED && IsReport(result, ledger.rows)
          && ledger.log == old(ledger.log) + [result.clOrdId.value]
          && EndsAs(placed, fill, result.clOrdId.value, ledger.rows[result.clOrdId.value], book)
        else
          && result == Interrupted(leg, result.clOrdId)
          && old(ledger.log) <= ledger.log && |ledger.log| <= |old(ledger.log)| + 1
    {
      hide Run, Inv, Ids, AskOf, Askable, NoRepeats, Belongs, LimitOf, EndsAs;
      result, placed, fill := Interrupted(leg, None), Lost, None;
      var sofar := |asked|;
      alive := Pause();
      if !alive {
        return;
      }
      var id := ledger.NewClOrdId();
      CommitAttempt(id, LimitOf(AskOf(leg)));
      alive, placed, fill := Place(id, leg);
      RowBelongs(id, AskOf(leg));
      if alive {
        result := FromRow(leg, id, ledger.rows[id]);
      } else if |asked| > sofar {
        result := Interrupted(leg, Some(id));
      }
    }

    /** One leg of the loop: what is asked is exactly the order the result carries, and that is none for a leg
        planning skipped and for every leg after a lost answer. */
    method Attempt(leg: PlannedLeg, stopped: bool) returns (result: LegResult, nowStopped: bool, alive: bool)
      requires Valid() && locked && phase == Sending(stopped) && Ready(leg)
      modifies `now, `inFlight, `book, `trace, `phase, `locked, `asked, ledger
      ensures old(trace) <= trace
      ensures Valid()
      ensures if alive then locked && phase == Sending(nowStopped) else !locked
      ensures result.leg == leg && asked == old(asked) + AskedBy(result) && Grown(old(ledger.rows), ledger.rows)
      ensures result.clOrdId.Some? ==>
        var id := result.clOrdId.value;
        && !leg.skipped && !stopped && id !in old(ledger.rows) && id in ledger.rows
        && Belongs(AskOf(leg), ledger.rows[id])
      ensures leg.skipped || stopped ==>
        alive && result == LegResult(leg, SKIPPED, None, None, None) && asked == old(asked)
          && ledger.log == old(ledger.log)
      ensures alive ==>
        && IsReport(result, ledger.rows) && nowStopped == (stopped || IsUnknown(result))
        && (leg.skipped || stopped <==> result.status == SKIPPED)
      ensures !alive ==> !leg.skipped && !stopped && nowStopped && result == Interrupted(leg, result.clOrdId)
    {
      hide Run, Inv, Ids, AskOf;
      nowStopped, alive := stopped, true;
      result := LegResult(leg, SKIPPED, None, None, None);
      if leg.skipped || stopped {
        return;
      }
      ghost var placed, fill;
      result, alive, placed, fill := Send(leg);
      nowStopped := IsUnknown(result);
    }

    ghost method GoAhead()
      requires Valid() && locked && phase == Planning
      modifies `phase, `trace
      ensures old(trace) <= trace
      ensures Valid() && phase == Sending(false)
    {
      hide Run, Inv;
      var w := State();
      phase := Sending(false);
      Extend(trace, w, Deliver(Proceed), State());
      trace := trace + [Deliver(Proceed)];
    }

    /** One leg more: its result joins the others, and its order, if one was asked, joins theirs. A sell adds its
        credit to the budget and no fiat asked for; a buy adds no credit, and its amount unless it was skipped. */
    method AttemptNext(
        done: seq<LegResult>, leg: PlannedLeg, stopped: bool, ghost known: set<ClOrdId>, ghost start: Asks,
          ghost places: nat)
      returns (results: seq<LegResult>, result: LegResult, nowStopped: bool, alive: bool)
      requires Valid() && locked && phase == Sending(stopped) && Ready(leg)
      requires Tidy(done, stopped) && Reported(done, ledger.rows)
      requires asked == start + AsksOf(done) && Accounted(AsksOf(done), known, ledger.rows) && known <= ledger.rows.Keys
      modifies `now, `inFlight, `book, `trace, `phase, `locked, `asked, ledger
      ensures old(trace) <= trace
      ensures Valid()
      ensures if alive then locked && phase == Sending(nowStopped) else !locked
      ensures results == done + [result] && Tidy(results, nowStopped) && LegsOf(results) == LegsOf(done) + [leg]
      ensures asked == start + AsksOf(results) && Accounted(AsksOf(results), known, ledger.rows)
      ensures known <= ledger.rows.Keys && Grown(old(ledger.rows), ledger.rows)
      ensures alive ==> Reported(results, ledger.rows)
      ensures
        var before, after := AsksOf(done), AsksOf(results);
        if leg.side == SELL
        then
          && BuysAsked(after) == BuysAsked(before)
          && (alive ==>
                var credit := if result.status == LegStatus.FILLED
                  then Credited(CostOf(result), FeeOf(result), places) else 0.0;
                Credits(after, ledger.rows, places) == Credits(before, old(ledger.rows), places) + credit)
        else
          && BuysAsked(after) <= BuysAsked(before) + (if leg.skipped then 0.0 else leg.amount)
          && Credits(after, ledger.rows, places) == Credits(before, old(ledger.rows), places)
    {
      hide Run, Inv, Ids, Tidy, Credited, Reported, Grown, Accounted, AsksOf, BuysAsked, Credits, AskedBy;
      StoppedMeansUnnamed(stopped);
      ghost var rows := ledger.rows;
      result, nowStopped, alive := Attempt(leg, stopped);
      Appended(done, result, stopped, nowStopped);
      OneMoreResult(done, result, known, rows, ledger.rows, places);
      GrownKeys(rows, ledger.rows);
      if alive { StillReported(done, result, rows, ledger.rows); }
      results := done + [result];
    }

    /** The sells, in the plan's order, each filled one credited to the budget. The orders asked are the
        results', the one a crash interrupted included if it was asked. */
    method SendSells(planned: Planned) returns (results: seq<LegResult>, budget: real, stopped: bool, alive: bool)
      requires Valid() && locked && phase == Sending(false) && AllReady(planned.legs)
      modifies `now, `inFlight, `book, `trace, `phase, `locked, `asked, ledger
      ensures old(trace) <= trace
      ensures Valid()
      ensures if alive then locked && phase == Sending(stopped) else !locked
      ensures Tidy(results, stopped) && Grown(old(ledger.rows), ledger.rows)
      ensures asked == old(asked) + AsksOf(results) && BuysAsked(AsksOf(results)) == 0.0
      ensures Accounted(AsksOf(results), old(ledger.rows.Keys), ledger.rows)
      ensures LegsOf(results) <= OnSide(planned.legs, SELL)
      ensures alive ==>
        && LegsOf(results) == OnSide(planned.legs, SELL) && Reported(results, ledger.rows)
        && budget == Budget(planned, AsksOf(results), ledger.rows)
    {
      hide Run, Inv, Ids, Tidy, Ready, Credited, Reported, Grown, Accounted, AsksOf, BuysAsked, Credits;
      results, budget, stopped, alive := [], planned.freeCash, false, true;
      NothingYet(ledger.rows.Keys, ledger.rows);
      assert AsksOf([]) == [] && LegsOf([]) == [] by { NoResults(); }
      assert Grown(ledger.rows, ledger.rows) by { GrownStays(ledger.rows); }
      for i := 0 to |planned.legs|
        invariant Valid() && locked && phase == Sending(stopped) && old(trace) <= trace
        invariant Tidy(results, stopped) && LegsOf(results) == OnSide(planned.legs[..i], SELL)
        invariant asked == old(asked) + AsksOf(results) && BuysAsked(AsksOf(results)) == 0.0
        invariant Accounted(AsksOf(results), old(ledger.rows.Keys), ledger.rows)
        invariant old(ledger.rows.Keys) <= ledger.rows.Keys
        invariant budget == Budget(planned, AsksOf(results), ledger.rows)
        invariant Reported(results, ledger.rows) && Grown(old(ledger.rows), ledger.rows)
      {
        var leg := planned.legs[i];
        assert planned.legs[..i + 1][..i] == planned.legs[..i];
        OnSideGrows(planned.legs, SELL, i + 1);
        if leg.side == SELL {
          ghost var rows := ledger.rows;
          var result;
          results, result, stopped, alive :=
            AttemptNext(results, leg, stopped, old(ledger.rows.Keys), old(asked), planned.fiatPlaces);
          GrownAgain(old(ledger.rows), rows, ledger.rows);
          if !alive {
            return;
          }
          if result.status == LegStatus.FILLED {
            budget := budget + Credited(CostOf(result), FeeOf(result), planned.fiatPlaces);
          }
        }
      }
      assert planned.legs[..|planned.legs|] == planned.legs;
    }

    /** The buys, as they were fitted into the budget: together they ask for no more than they were fitted to. */
    method SendBuys(
        sold: seq<LegResult>, buys: seq<PlannedLeg>, sofar: bool, ghost known: set<ClOrdId>, ghost start: Asks,
          ghost places: nat)
      returns (results: seq<LegResult>, stopped: bool, alive: bool)
      requires Valid() && locked && phase == Sending(sofar)
      requires Tidy(sold, sofar) && Reported(sold, ledger.rows)
      requires AllReady(buys) && forall i :: 0 <= i < |buys| ==> buys[i].side == BUY
      requires asked == start + AsksOf(sold) && Accounted(AsksOf(sold), known, ledger.rows) && known <= ledger.rows.Keys
      modifies `now, `inFlight, `book, `trace, `phase, `locked, `asked, ledger
      ensures old(trace) <= trace
      ensures Valid()
      ensures if alive then locked && phase == Sending(stopped) else !locked
      ensures Tidy(results, stopped) && Grown(old(ledger.rows), ledger.rows)
      ensures asked == start + AsksOf(results) && Accounted(AsksOf(results), known, ledger.rows)
      ensures Credits(AsksOf(results), ledger.rows, places) == Credits(AsksOf(sold), old(ledger.rows), places)
      ensures BuysAsked(AsksOf(results)) <= BuysAsked(AsksOf(sold)) + Asked(buys)
      ensures LegsOf(results) <= LegsOf(sold) + buys
      ensures alive ==> LegsOf(results) == LegsOf(sold) + buys && Reported(results, ledger.rows)
    {
      hide Run, Inv, Ids, Tidy, Ready, Credited, Reported, Grown, Accounted, AsksOf, BuysAsked, Credits;
      results, stopped, alive := sold, sofar, true;
      assert buys[0..] == buys;
      assert Grown(ledger.rows, ledger.rows) by { GrownStays(ledger.rows); }
      for i := 0 to |buys|
        invariant Valid() && locked && phase == Sending(stopped) && old(trace) <= trace
        invariant Tidy(results, stopped) && LegsOf(results) == LegsOf(sold) + buys[..i]
        invariant asked == start + AsksOf(results) && Accounted(AsksOf(results), known, ledger.rows)
        invariant known <= ledger.rows.Keys && Reported(results, ledger.rows) && Grown(old(ledger.rows), ledger.rows)
        invariant Credits(AsksOf(results), ledger.rows, places) == Credits(AsksOf(sold), old(ledger.rows), places)
        invariant BuysAsked(AsksOf(results)) + Asked(buys[i..]) <= BuysAsked(AsksOf(sold)) + Asked(buys)
      {
        ghost var rows := ledger.rows;
        var result;
        results, result, stopped, alive := AttemptNext(results, buys[i], stopped, known, start, places);
        assert buys[i..][1..] == buys[i + 1..];
        assert buys[..i + 1] == buys[..i] + [buys[i]];
        AskedOne(buys[i..]);
        AskedOfReady(buys[i + 1..]);
        GrownAgain(old(ledger.rows), rows, ledger.rows);
        if !alive {
          return;
        }
      }
    }

    /** `_send_all`. On every ending the orders asked are the results', in the plan's order, and within the budget. */
    method SendAll(planned: Planned) returns (results: seq<LegResult>, sent: Sent)
      requires Valid() && locked && phase == Sending(false) && AllReady(planned.legs)
      modifies `now, `inFlight, `book, `trace, `phase, `locked, `asked, ledger
      ensures old(trace) <= trace
      ensures Valid()
      ensures asked == old(asked) + AsksOf(results) && Grown(old(ledger.rows), ledger.rows)
      ensures SentWithin(planned, AsksOf(results), old(ledger.rows.Keys), ledger.rows)
      ensures OfThePlan(planned, results, ledger.rows)
      ensures match sent
        case Perished => !locked
        case Raised =>
          && locked && AllSendable(OnSide(planned.legs, BUY))
          && Within(OnSide(planned.legs, BUY), Budget(planned, AsksOf(results), ledger.rows)).None?
        case AllSent(stopped) =>
          && locked && phase == Sending(stopped) && Tidy(results, stopped)
          && Carried(planned, results, ledger.rows) && Reported(results, ledger.rows)
    {
      hide Run, Inv, Ids, Ready, Within, Asked, Reported, Tidy, Accounted, AsksOf, BuysAsked, Credits, Grown;
      var buys := OnSide(planned.legs, BUY);
      OnSideIsReady(planned.legs, BUY);
      var budget, stopped, alive;
      results, budget, stopped, alive := SendSells(planned);
      if !alive {
        return results, Perished;
      }
      var fitted := ShrinkWithin(buys, budget);
      if fitted.None? {
        return results, Raised;
      }
      FittedIsReady(buys, budget);
      var sold := results;
      ghost var rows := ledger.rows;
      assert old(ledger.rows.Keys) <= rows.Keys by { GrownKeys(old(ledger.rows), rows); }
      results, stopped, alive :=
        SendBuys(sold, fitted.value, stopped, old(ledger.rows.Keys), old(asked), planned.fiatPlaces);
      GrownAgain(old(ledger.rows), rows, ledger.rows);
      if !alive {
        return results, Perished;
      }
      return results, AllSent(stopped);
    }

    /** Where sending ended, the ledger agrees: an attempt Kraken never named is open exactly when the
        run was stopped. */
    lemma StoppedMeansUnnamed(stopped: bool)
      requires Valid() && phase == Sending(stopped)
      ensures stopped <==> exists id :: Unnamed(ledger.rows, id)
    {
      hide Run, Ids;
    }

    /** The plan goes out, and the lock is released. */
    method CarryOut(planned: Planned) returns (ending: Ending, results: seq<LegResult>)
      requires Valid() && locked && phase == Planning && AllReady(planned.legs)
      modifies `now, `inFlight, `book, `trace, `phase, `locked, `asked, ledger
      ensures old(trace) <= trace
      ensures Valid() && !locked && ending != Busy && Grown(old(ledger.rows), ledger.rows)
      ensures asked == old(asked) + AsksOf(results)
      ensures SentWithin(planned, asked[|old(asked)|..], old(ledger.rows.Keys), ledger.rows)
      ensures OfThePlan(planned, results, ledger.rows)
      ensures ending == Ended(ERROR) ==>
        && AllSendable(OnSide(planned.legs, BUY))
        && Within(OnSide(planned.legs, BUY), Budget(planned, asked[|old(asked)|..], ledger.rows)).None?
      ensures ending.Ended? && ending.status != ERROR ==>
        && Carried(planned, results, ledger.rows) && Reported(results, ledger.rows)
        && Tidy(results, AnyUnknown(results))
        && ending.status == StatusOf(results, AnyUnknown(results))
        && (AnyUnknown(results) <==> exists id :: Unnamed(ledger.rows, id))
    {
      hide Run, Inv, Ids, AllReady, SentWithin, OfThePlan, Carried, Within, Reported, AsksOf, Budget, Grown;
      GoAhead();
      var sent;
      results, sent := SendAll(planned);
      assert asked[|old(asked)|..] == AsksOf(results);
      match sent
      case Perished =>
        ending := Died;
      case Raised =>
        LetGo();
        ending := Ended(ERROR);
      case AllSent(stopped) =>
        StoppedMeansUnnamed(stopped);
        ending := Ended(StatusOf(results, stopped));
        LetGo();
    }

    /** The lock taken and every open attempt looked up: the evaluation is over, or may plan. It is over as
        unresolved exactly when a row is still open, and says so exactly when some lookup had no answer. */
    method Prepare() returns (over: Option<Ending>, lookupFailed: bool, ghost answers: seq<Option<Lookup>>)
      requires Valid() && !locked
      modifies `now, `inFlight, `book, `trace, `phase, `locked, `session, ledger`rows
      ensures old(trace) <= trace
      ensures Valid() && ResolvedKept(old(ledger.rows), ledger.rows) && ledger.rows.Keys == old(ledger.rows.Keys)
      ensures if over.None? then locked && phase == Planning
        else over in [Some(Died), Some(Ended(UNRESOLVED))] && !locked
      ensures ResolvedSoFar(old(now), OpenOf(old(ledger.rows), ledger.log), answers, old(ledger.rows), ledger.rows)
      ensures over != Some(Died) ==>
        && |answers| == |OpenOf(old(ledger.rows), ledger.log)|
        && (over.None? <==> NothingOpen(ledger.rows))
        && (lookupFailed <==> None in answers)
      ensures
        ReadsTheBook(old(now), OpenOf(old(ledger.rows), ledger.log), answers, old(ledger.rows), old(book), ledger.rows)
      ensures over == Some(Ended(UNRESOLVED)) ==>
        !AllDecisive(old(now), OpenOf(old(ledger.rows), ledger.log), answers, old(ledger.rows), old(book))
      ensures over.None? ==> ExecutedInLedger(State()) == ExecutedAtKraken(State())
    {
      hide Run, Inv, Ids, ResolvedKept, OpenOf, Judged, ReadsTheBook, AllDecisive, ResolvedSoFar;
      hide ExecutedInLedger, ExecutedAtKraken;
      locked := true;
      var clear, alive;
      clear, lookupFailed, alive, answers := ResolvePending(now);
      if !alive {
        return Some(Died), lookupFailed, answers;
      }
      if !clear {
        LetGo();
        return Some(Ended(UNRESOLVED)), lookupFailed, answers;
      }
      alive := Pause();
      if alive { ClearIsExact(); }
      return if alive then None else Some(Died), lookupFailed, answers;
    }

    /** One evaluation of the user: lock, resolve, plan, let the caller decide, and send. `got` is what
        Kraken would answer to the account's reads. */
    method Evaluate(setup: Setup, got: Reads, decide: Planned -> Option<EvaluationStatus>)
      returns (ending: Ending, planned: Option<Planned>, results: seq<LegResult>, lookupFailed: bool,
        ghost answers: seq<Option<Lookup>>)
      requires Valid() && WellFormed(setup.targets) && setup.floor >= 0.0
      modifies `now, `inFlight, `book, `trace, `phase, `locked, `session, `asked, ledger
      ensures old(trace) <= trace
      ensures Valid()
      ensures if old(locked) then ending == Busy && locked && trace == old(trace) && ledger.rows == old(ledger.rows)
        else ending != Busy && !locked
      ensures ResolvedKept(old(ledger.rows), ledger.rows)
      ensures asked == old(asked) + AsksOf(results)
      ensures planned.Some? ==> IsPlanned(setup, got, planned.value)
      // How it ends before anything is sent.
      ensures ending.Ended? ==> (lookupFailed <==> planned.None? && ending.status == UNRESOLVED && None in answers)
      ensures ending.Ended? && planned.None? ==>
        && ResolvedSoFar(old(now), OpenOf(old(ledger.rows), ledger.log), answers, old(ledger.rows), ledger.rows)
        && |answers| == |OpenOf(old(ledger.rows), ledger.log)|
        && EndsUnplanned(ending.status, setup, got, ledger.rows)
      ensures ending == Ended(UNRESOLVED) && planned.None? ==>
        !AllDecisive(old(now), OpenOf(old(ledger.rows), ledger.log), answers, old(ledger.rows), old(book))
      ensures planned.None? && !old(locked) ==>
        ReadsTheBook(old(now), OpenOf(old(ledger.rows), ledger.log), answers, old(ledger.rows), old(book), ledger.rows)
      ensures ending.Ended? && planned.Some? && decide(planned.value).Some? ==>
        ending.status == decide(planned.value).value
      // And what was asked.
      ensures !(planned.Some? && decide(planned.value).None?) ==>
        results == [] && asked == old(asked) && ledger.log == old(ledger.log)
          && ledger.rows.Keys == old(ledger.rows.Keys)
      ensures planned.Some? && decide(planned.value).None? ==>
        && SentWithin(planned.value, asked[|old(asked)|..], old(ledger.rows.Keys), ledger.rows)
        && OfThePlan(planned.value, results, ledger.rows)
        && (NothingNegative(got) ==> InsideThePlan(planned.value, asked[|old(asked)|..], got.view.value, setup.floor))
      ensures ending.Ended? && ending.status != ERROR && planned.Some? && decide(planned.value).None? ==>
        && Carried(planned.value, results, ledger.rows) && Reported(results, ledger.rows)
        && Tidy(results, AnyUnknown(results))
        && ending.status == StatusOf(results, AnyUnknown(results))
        && (AnyUnknown(results) <==> exists id :: Unnamed(ledger.rows, id))
    {
      hide Run, Inv, Ids, AllReady, SentWithin, OfThePlan, Carried, Within, IsPlanned, Reported, Tidy, StatusOf, AsksOf;
      hide ReadsTheBook, AllDecisive, ExecutedInLedger, ExecutedAtKraken;
      hide ResolvedKept, ResolvedSoFar, NothingOpen, IsPlanOf, SizeAll, OpenOf, InsideThePlan, NothingNegative;
      planned, results, lookupFailed, answers := None, [], false, [];
      assert AsksOf([]) == [] by { NoResults(); }
      assert ResolvedKept(ledger.rows, ledger.rows) by { KeptStays(ledger.rows); }
      if locked {
        return Busy, planned, results, lookupFailed, answers;
      }
      var over;
      over, lookupFailed, answers := Prepare();
      ghost var rows := ledger.rows;
      if over.Some? {
        return over.value, planned, results, lookupFailed, answers;
      }
      // Only an unresolved evaluation reports a failed lookup.
      lookupFailed := false;
      var reading := MakePlan(setup, got);
      if reading.Unavailable? {
        LetGo();
        return Ended(KRAKEN_UNAVAILABLE), planned, results, lookupFailed, answers;
      }
      if reading.Unsized? {
        LetGo();
        return Ended(ERROR), planned, results, lookupFailed, answers;
      }
      planned := Some(reading.planned);
      PlannedIsReady(setup, got, reading.planned);
      var verdict := decide(reading.planned);
      if verdict.Some? {
        LetGo();
        return Ended(verdict.value), planned, results, lookupFailed, answers;
      }
      ending, results := CarryOut(reading.planned);
      KeptThenGrown(old(ledger.rows), rows, ledger.rows);
      assert asked[|old(asked)|..] == AsksOf(results);
      if NothingNegative(got) { RunStaysInsideThePlan(setup, got, planned.value, results, ledger.rows); }
    }
  }

  // ----- What an evaluation achieves ---------------------------------------------------------

  /** From the account as read to Kraken's ledger: whatever of the orders it asked is filled, refused, left
      open or lost, and wherever it died, the cash ends at the cash target at least, or where it was if that
      is less, short of it only by fees that took the budget below zero, by pairs finer than the ledger, and
      by a quantum for each sell not known to be finished. */
  lemma EvaluationKeepsTheFloor(
    setup: Setup, got: Reads, planned: Planned, asks: Asks, before: set<ClOrdId>, rows: Rows, moves: seq<Move>)
    requires IsPlanned(setup, got, planned) && SentWithin(planned, asks, before, rows)
    requires AllPlausible(asks, rows, moves, planned.fiatPlaces)
    ensures CashAfter(got.view.value.cash, asks, moves, planned.fiatPlaces) >=
      Floor(ValueOf(setup, got.view.value), setup.targets) + Min(0.0, Budget(planned, asks, rows))
        - Overcharges(asks, planned.fiatPlaces) - Unfinished(asks, rows, planned.fiatPlaces)
  {
    hide Wellformed, Plausible, CashAfter, Floor, Overcharges, Unfinished, Credits, BuysAsked;
    hide SizeAll, AssetValues, Sum, Unpriced, InvestableCash;
    RunKeepsTheFloor(ValueOf(setup, got.view.value), setup.targets, asks, rows, moves, planned.fiatPlaces);
  }

  /** The same of what Kraken really did, at the end of the evaluation or at any later moment of its history:
      the cash its ledger holds after the orders asked, each entered rounded either way, keeps the floor. */
  lemma CashAtKrakenKeepsTheFloor(
    setup: Setup, got: Reads, planned: Planned, asks: Asks, before: set<ClOrdId>,
    es: seq<Event>, later: seq<Event>, moves: seq<Move>)
    requires es <= later && Run(Start, es).Some? && Run(Start, later).Some?
    requires IsPlanned(setup, got, planned) && SentWithin(planned, asks, before, Run(Start, es).value.rows)
    requires |moves| == |asks|
    requires forall i :: 0 <= i < |asks| ==>
      IsEntryOf(InBook(Run(Start, later).value, asks[i].0), asks[i].1.side, moves[i], planned.fiatPlaces)
    ensures
      var rows, places := Run(Start, es).value.rows, planned.fiatPlaces;
      CashAfter(got.view.value.cash, asks, moves, places) >=
        Floor(ValueOf(setup, got.view.value), setup.targets) + Min(0.0, Budget(planned, asks, rows))
          - Overcharges(asks, places) - Unfinished(asks, rows, places)
  {
    hide Run, IsPlanned, Plausible, CashAfter, Floor, Overcharges, Unfinished, BuysAsked, Budget, IsEntryOf, OnGrid;
    var rows, w := Run(Start, es).value.rows, Run(Start, later).value;
    Safety(later);
    forall i | 0 <= i < |asks| ensures Plausible(asks[i].1, rows[asks[i].0], moves[i], planned.fiatPlaces) {
      var id := asks[i].0;
      assert Wellformed(asks[i].1, rows[id]);
      LimitSince(es, later, id);
      if rows[id].status != RowStatus.PENDING { ResolvedSince(es, later, id); }
      TheBookIsPlausible(w, id, asks[i].1, rows[id], moves[i], planned.fiatPlaces);
    }
    EvaluationKeepsTheFloor(setup, got, planned, asks, before, rows, moves);
  }

  /** And it holds against every ledger exactly when the budget covers what the orders asked may cost at worst. */
  lemma EvaluationIsSafeExactlyWhen(
      setup: Setup, got: Reads, planned: Planned, asks: Asks, before: set<ClOrdId>, rows: Rows)
    requires IsPlanned(setup, got, planned) && SentWithin(planned, asks, before, rows)
    ensures
      var v, places := ValueOf(setup, got.view.value), planned.fiatPlaces;
      SafeFromEveryLedger(v.cash, Floor(v, setup.targets), asks, rows, places)
      <==> Committed(asks, rows, places) <= Budget(planned, asks, rows)
  {
    hide Wellformed, Floor, SizeAll, AssetValues, Sum, Unpriced, InvestableCash, Credits, BuysAsked, Committed;
    hide SafeFromEveryLedger;
    FloorHoldsExactlyWhen(ValueOf(setup, got.view.value), setup.targets, asks, rows, planned.fiatPlaces);
  }

  lemma {:induction false} BuysCreditNothing(results: seq<LegResult>, rows: Rows, places: nat)
    requires forall i :: 0 <= i < |results| ==> results[i].leg.side == BUY
    ensures Credits(AsksOf(results), rows, places) == 0.0
  {
    if results != [] {
      var front, last := results[..|results| - 1], results[|results| - 1];
      BuysCreditNothing(front, rows, places);
      var asks := AsksOf(results);
      if AskedBy(last) != [] { assert asks[..|asks| - 1] == AsksOf(front); } else { assert asks == AsksOf(front); }
    }
  }

  /** The orders a plan's legs ask for. */
  function Wanted(legs: seq<PlannedLeg>): seq<Ask> {
    if legs == [] then []
    else
      var last := legs[|legs| - 1];
      Wanted(legs[..|legs| - 1]) + if !last.skipped && Askable(last) then [AskOf(last)] else []
  }

  function Orders(asks: Asks): seq<Ask> {
    seq(|asks|, i requires 0 <= i < |asks| => asks[i].1)
  }

  lemma OrdersJoin(asks: Asks, more: Asks)
    ensures Orders(asks + more) == Orders(asks) + Orders(more)
  {
  }

  lemma OneAskedAsWanted(r: LegResult, rows: Rows)
    requires IsReport(r, rows) && Ready(r.leg) && (r.status == SKIPPED <==> r.leg.skipped)
    ensures Orders(AskedBy(r)) == if !r.leg.skipped && Askable(r.leg) then [AskOf(r.leg)] else []
  {
    hide OnGrid;
  }

  /** With no answer lost, what was asked is exactly what the legs want, each once and in their order. */
  lemma {:induction false} AskedAsWanted(results: seq<LegResult>, rows: Rows)
    requires Reported(results, rows) && AllReady(LegsOf(results))
    requires forall i :: 0 <= i < |results| ==> (results[i].status == SKIPPED <==> results[i].leg.skipped)
    ensures Orders(AsksOf(results)) == Wanted(LegsOf(results))
  {
    hide IsReport, Ready, Orders, AskedBy, Askable, AskOf;
    if results == [] {
      assert Orders([]) == [] by { NoOrders(); }
    } else {
      var front, last := results[..|results| - 1], results[|results| - 1];
      var legs := LegsOf(results);
      assert legs[..|results| - 1] == LegsOf(front) && legs[|results| - 1] == last.leg;
      assert forall i :: 0 <= i < |front| ==> front[i] == results[i] && LegsOf(front)[i] == legs[i];
      AskedAsWanted(front, rows);
      OneAskedAsWanted(last, rows);
      OrdersJoin(AsksOf(front), AskedBy(last));
    }
  }

  lemma NoOrders()
    ensures Orders([]) == []
  {
  }

  /** The result behind an order: the orders are those of the results sent, each once. */
  lemma {:induction false} OrderIsOf(results: seq<LegResult>, k: nat) returns (i: nat)
    requires k < |AsksOf(results)|
    ensures i < |results| && k == |AsksOf(results[..i])|
    ensures results[i].clOrdId.Some? && Askable(results[i].leg)
    ensures AsksOf(results)[k] == (results[i].clOrdId.value, AskOf(results[i].leg))
  {
    var last := |results| - 1;
    if k < |AsksOf(results[..last])| {
      i := OrderIsOf(results[..last], k);
      assert results[..last][..i] == results[..i];
    } else {
      i := last;
    }
  }

  /** And each result sent has its order among them. */
  lemma {:induction false} ResultHasOrder(results: seq<LegResult>, i: nat) returns (k: nat)
    requires i < |results| && results[i].clOrdId.Some? && Askable(results[i].leg)
    ensures k < |AsksOf(results)| && AsksOf(results)[k] == (results[i].clOrdId.value, AskOf(results[i].leg))
  {
    var last := |results| - 1;
    if i < last { k := ResultHasOrder(results[..last], i); } else { k := |AsksOf(results[..last])|; }
  }

  lemma SentIsAskable(results: seq<LegResult>, rows: Rows, stopped: bool, i: nat)
    requires Reported(results, rows) && Tidy(results, stopped) && AllReady(LegsOf(results)) && i < |results|
    ensures results[i].clOrdId.None? <==> results[i].status == SKIPPED
    ensures results[i].clOrdId.Some? ==>
      var id := results[i].clOrdId.value;
      && Askable(results[i].leg) && id in rows
      && (results[i].status == LegStatus.FAILED <==> rows[id].status == RowStatus.FAILED)
      && (IsUnknown(results[i]) <==> Unnamed(rows, id))
  {
    hide OnGrid, NothingAfterUnknown, AnyUnknown;
    assert IsReport(results[i], rows);
    assert LegsOf(results)[i] == results[i].leg;
  }

  ghost predicate SomeUnnamed(asks: Asks, rows: Rows) {
    exists k :: 0 <= k < |asks| && Unnamed(rows, asks[k].0)
  }

  ghost predicate SomeFailed(asks: Asks, rows: Rows) {
    exists k :: 0 <= k < |asks| && asks[k].0 in rows && rows[asks[k].0].status == RowStatus.FAILED
  }

  lemma UnknownIsUnnamed(results: seq<LegResult>, rows: Rows)
    requires Reported(results, rows) && Tidy(results, AnyUnknown(results)) && AllReady(LegsOf(results))
    ensures AnyUnknown(results) <==> SomeUnnamed(AsksOf(results), rows)
  {
    hide Reported, Tidy, AllReady, AsksOf, Askable, AskOf, Unnamed, LegsOf, OnGrid;
    if AnyUnknown(results) {
      var i :| 0 <= i < |results| && IsUnknown(results[i]);
      SentIsAskable(results, rows, true, i);
      var k := ResultHasOrder(results, i);
    }
    if k :| 0 <= k < |AsksOf(results)| && Unnamed(rows, AsksOf(results)[k].0) {
      var i := OrderIsOf(results, k);
      SentIsAskable(results, rows, AnyUnknown(results), i);
    }
  }

  lemma FailedIsFailed(results: seq<LegResult>, rows: Rows)
    requires Reported(results, rows) && Tidy(results, AnyUnknown(results)) && AllReady(LegsOf(results))
    ensures SomeFailed(AsksOf(results), rows) <==>
      exists i :: 0 <= i < |results| && results[i].status == LegStatus.FAILED
    ensures AsksOf(results) != [] <==> exists i :: 0 <= i < |results| && results[i].status != SKIPPED
  {
    hide Reported, Tidy, AllReady, AsksOf, Askable, AskOf, Unnamed, LegsOf, AnyUnknown, OnGrid;
    if i :| 0 <= i < |results| && results[i].status == LegStatus.FAILED {
      SentIsAskable(results, rows, AnyUnknown(results), i);
      var k := ResultHasOrder(results, i);
    }
    if k :| 0 <= k < |AsksOf(results)| && AsksOf(results)[k].0 in rows
            && rows[AsksOf(results)[k].0].status == RowStatus.FAILED
    {
      var i := OrderIsOf(results, k);
      SentIsAskable(results, rows, AnyUnknown(results), i);
    }
    if i :| 0 <= i < |results| && results[i].status != SKIPPED {
      SentIsAskable(results, rows, AnyUnknown(results), i);
      var k := ResultHasOrder(results, i);
    }
    if AsksOf(results) != [] {
      var i := OrderIsOf(results, 0);
      SentIsAskable(results, rows, AnyUnknown(results), i);
    }
  }

  /** What the status says, in the orders asked and the rows they left: STOPPED that one was never named, PARTIAL that
      none was so and one failed, NOTHING_TO_DO that none was asked, and DONE all else. */
  lemma StatusTells(results: seq<LegResult>, rows: Rows)
    requires Reported(results, rows) && Tidy(results, AnyUnknown(results)) && AllReady(LegsOf(results))
    ensures
      var asks, status := AsksOf(results), StatusOf(results, AnyUnknown(results));
      && (status == STOPPED <==> SomeUnnamed(asks, rows))
      && (status == PARTIAL <==> !SomeUnnamed(asks, rows) && SomeFailed(asks, rows))
      && (status == NOTHING_TO_DO <==> asks == [])
      && (status == DONE <==> !SomeUnnamed(asks, rows) && !SomeFailed(asks, rows) && asks != [])
  {
    hide Reported, Tidy, AllReady, AsksOf, LegsOf, IsUnknown, SomeUnnamed, SomeFailed, AnyUnknown;
    UnknownIsUnnamed(results, rows);
    FailedIsFailed(results, rows);
    if AsksOf(results) == [] { NoneToTell(rows); }
  }

  lemma NoneToTell(rows: Rows)
    ensures !SomeUnnamed([], rows) && !SomeFailed([], rows)
  {
  }

  /** A leg that may go out for a planned one: the sell itself, or the buy with no larger amount, on its pair's
      grid and not below its minimum. */
  ghost predicate GoesOutFor(leg: PlannedLeg, planned: PlannedLeg) {
    && (planned.skipped ==> leg.skipped)
    && (planned.side == SELL ==> leg == planned)
    && (planned.side == BUY ==>
          && leg == planned.(amount := leg.amount, skipped := leg.skipped)
          && (!leg.skipped ==>
                && planned.minimum.Some? && planned.minimum.value <= leg.amount <= planned.amount
                && planned.meta.Some? && OnGrid(leg.amount, planned.meta.value.costDecimals)))
  }

  lemma PortionOfLess(amount: real, budget: real, asked: real)
    requires amount >= 0.0 && asked > 0.0 && budget < asked
    ensures Portion(amount, budget / asked) <= amount
  {
    assert budget / asked * asked == budget;
    assert budget / asked < 1.0;
    assert amount * (1.0 - budget / asked) >= 0.0;
  }

  lemma FittedGoesOut(buys: seq<PlannedLeg>, budget: real, i: nat)
    requires AllReady(buys) && AllSendable(buys) && Within(buys, budget).Some?
    requires i < |buys| && buys[i].side == BUY
    ensures |Within(buys, budget).value| == |buys| && GoesOutFor(Within(buys, budget).value[i], buys[i])
  {
    hide Within, Asked, OnGrid, Portion, Quantum;
    WithinFits(buys, budget);
    AskedNonNegative(buys);
    WithinRaisesExactlyWhen(buys, budget);
    assert Ready(buys[i]);
    if Asked(buys) > budget {
      var leg := Within(buys, budget).value[i];
      FittedIsReady(buys, budget);
      assert Ready(leg) && Shrunk(buys[i], leg, budget / Asked(buys));
      if !buys[i].skipped && Asked(buys) > 0.0 { PortionOfLess(buys[i].amount, budget, Asked(buys)); }
    }
  }

  /** The planned leg behind the i-th result, told apart by its side and its place among that side's legs. */
  lemma ResultIsOf(planned: Planned, results: seq<LegResult>, rows: Rows, i: nat) returns (j: nat)
    requires AllReady(planned.legs) && OfThePlan(planned, results, rows) && i < |results|
    ensures j < |planned.legs| && GoesOutFor(results[i].leg, planned.legs[j])
    ensures
      var sells := |OnSide(planned.legs, SELL)|;
      if i < sells then planned.legs[j].side == SELL && i == |OnSide(planned.legs[..j], SELL)|
      else planned.legs[j].side == BUY && i == sells + |OnSide(planned.legs[..j], BUY)|
  {
    hide Within, Tidy, OnSide, Budget, Ready, AsksOf, GoesOutFor;
    var sells, buys := OnSide(planned.legs, SELL), OnSide(planned.legs, BUY);
    assert results[i].leg == LegsOf(results)[i];
    if i < |sells| {
      assert results[i].leg == sells[i];
      j := OnSideIsOf(planned.legs, SELL, i);
      SellGoesOut(planned.legs[j]);
    } else {
      var budget := Budget(planned, AsksOf(results), rows);
      OnSideIsReady(planned.legs, BUY);
      FittedIsReady(buys, budget);
      assert results[i].leg == Within(buys, budget).value[i - |sells|];
      FittedGoesOut(buys, budget, i - |sells|);
      j := OnSideIsOf(planned.legs, BUY, i - |sells|);
    }
  }

  lemma SellGoesOut(leg: PlannedLeg)
    requires leg.side == SELL
    ensures GoesOutFor(leg, leg)
  {
  }

  /** An order asked for a planned leg: that sell's volume, or a buy of no more fiat and no less than the
      leg's minimum. */
  ghost predicate AskedFor(ask: Ask, leg: PlannedLeg) {
    && !leg.skipped && Askable(leg)
    && (leg.side == SELL ==> ask == AskOf(leg))
    && (leg.side == BUY ==>
          && ask == AskOf(leg).(quantity := ask.quantity) && OnGrid(ask.quantity, ask.pair.costDecimals)
          && leg.minimum.Some? && leg.minimum.value <= ask.quantity <= leg.amount)
  }

  /** However a run ended, every order it asked was for an unskipped leg of its plan. */
  lemma OrderIsForALeg(planned: Planned, results: seq<LegResult>, rows: Rows, k: nat) returns (i: nat, j: nat)
    requires AllReady(planned.legs) && OfThePlan(planned, results, rows) && k < |AsksOf(results)|
    ensures i < |results| && k == |AsksOf(results[..i])|
    ensures j < |planned.legs| && AskedFor(AsksOf(results)[k].1, planned.legs[j])
    ensures
      var sells := |OnSide(planned.legs, SELL)|;
      if i < sells then planned.legs[j].side == SELL && i == |OnSide(planned.legs[..j], SELL)|
      else planned.legs[j].side == BUY && i == sells + |OnSide(planned.legs[..j], BUY)|
  {
    hide Within, OnSide, Budget, AsksOf, OnGrid;
    i := OrderIsOf(results, k);
    j := ResultIsOf(planned, results, rows, i);
    assert !results[i].leg.skipped;
    assert Ready(planned.legs[j]);
  }

  /** Enough for Kraken at the price read, and for the user. */
  ghost predicate Enough(amount: real, ask: Ask, view: View, floor: real) {
    !TooSmall(amount, ask.pair, Get(view.prices, ask.asset), floor)
  }

  ghost predicate ForALeg(planned: Planned, ask: Ask, view: View, floor: real) {
    && (exists j :: 0 <= j < |planned.legs|
          && AskedFor(ask, planned.legs[j]) && Enough(planned.legs[j].amount, ask, view, floor))
    && (ask.side == BUY ==> Enough(ask.quantity, ask, view, floor) && OnGrid(ask.quantity, ask.pair.costDecimals))
    && (ask.side == SELL ==>
          ask.quantity <= Get(view.holdings, ask.asset) && OnGrid(ask.quantity, ask.pair.volumeDecimals))
  }

  /** No holding read is negative. */
  ghost predicate NothingNegative(got: Reads)
    requires got.view.Some?
  {
    forall a :: Get(got.view.value.holdings, a) >= 0.0
  }

  /** What was asked stays inside the plan: each order is for an unskipped leg of it, on its pair's grid, and no leg
      is asked twice; no buy, shrunk or not, is too small for Kraken or for the user; and no sell asks for more than
      was held. */
  ghost predicate InsideThePlan(planned: Planned, asks: Asks, view: View, floor: real) {
    && (forall k :: 0 <= k < |asks| ==> ForALeg(planned, asks[k].1, view, floor))
    && (forall k, l :: 0 <= k < l < |asks| ==> asks[k].1.asset != asks[l].1.asset)
  }

  lemma AskedForIsEnough(setup: Setup, got: Reads, planned: Planned, ask: Ask, j: nat)
    requires setup.floor >= 0.0 && IsPlanned(setup, got, planned) && NothingNegative(got)
    requires j < |planned.legs| && AskedFor(ask, planned.legs[j])
    ensures ForALeg(planned, ask, got.view.value, setup.floor)
  {
    hide IsPlanned, OnGrid, TooSmall;
    PlannedIsReady(setup, got, planned);
    assert Ready(planned.legs[j]);
    MinimumIsKrakens(setup, got, planned, j);
    if planned.legs[j].side == SELL { SellsAreHeld(setup, got, planned, j); }
  }

  /** Whether a run ended, raised or died, what it asked of Kraken stayed inside its plan. */
  lemma RunStaysInsideThePlan(setup: Setup, got: Reads, planned: Planned, results: seq<LegResult>, rows: Rows)
    requires setup.floor >= 0.0 && IsPlanned(setup, got, planned) && OfThePlan(planned, results, rows)
    requires NothingNegative(got)
    ensures InsideThePlan(planned, AsksOf(results), got.view.value, setup.floor)
  {
    hide OfThePlan, AsksOf, OnSide, AllReady, SizeAll, IsPlanOf, ValueOf, Unpriced, InvestableCash, ForALeg, OnGrid;
    var asks := AsksOf(results);
    PlannedIsReady(setup, got, planned);
    PlanHasOneEach(setup, got, planned);
    forall k | 0 <= k < |asks| ensures ForALeg(planned, asks[k].1, got.view.value, setup.floor) {
      var i, j := OrderIsForALeg(planned, results, rows, k);
      AskedForIsEnough(setup, got, planned, asks[k].1, j);
    }
    forall k, l | 0 <= k < l < |asks| ensures asks[k].1.asset != asks[l].1.asset {
      var i, j := OrderIsForALeg(planned, results, rows, k);
      var i', j' := OrderIsForALeg(planned, results, rows, l);
      assert i != i';
      assert j != j';
    }
  }

  lemma SkippedAsPlanned(results: seq<LegResult>)
    requires Tidy(results, false)
    ensures forall i :: 0 <= i < |results| ==> (results[i].status == SKIPPED <==> results[i].leg.skipped)
  {
  }

  /** An investment that ran to its end carried out its plan leg by leg, amounts as planned; and unless an
      answer was lost, Kraken was asked for exactly its orders. */
  lemma InvestmentCarriesThePlan(setup: Setup, got: Reads, planned: Planned, results: seq<LegResult>, rows: Rows)
    requires setup.floor >= 0.0 && IsPlanned(setup, got, planned) && Carried(planned, results, rows)
    requires Reported(results, rows)
    requires WellFormed(setup.targets) && NonNegativeTargets(setup.targets)
    requires Sum(setup.targets.assets, setup.targets.pct) > 0.0
    requires !setup.policy.allowSells && setup.policy.minOrderFiat == 0.0
    requires forall a :: Get(got.view.value.holdings, a) >= 0.0
    ensures LegsOf(results) == planned.legs
    ensures Tidy(results, false) ==> Orders(AsksOf(results)) == Wanted(planned.legs)
  {
    hide SizeAll, AssetValues, Sum, Unpriced, InvestableCash, Credits, OnSide, Within, OnGrid, Asked;
    hide NonNegativeTargets;
    hide Tidy, Reported, AsksOf, Wanted;
    PlannedIsReady(setup, got, planned);
    InvestmentIsSentWhole(setup, got, planned);
    FittedIsReady(planned.legs, Budget(planned, AsksOf(results), rows));
    OnSideIsReady(planned.legs, BUY);
    forall i | 0 <= i < |results| ensures results[i].leg.side == BUY {
      assert LegsOf(results)[i] == results[i].leg;
    }
    BuysCreditNothing(results, rows, planned.fiatPlaces);
    if Tidy(results, false) {
      SkippedAsPlanned(results);
      AskedAsWanted(results, rows);
    }
  }
}
