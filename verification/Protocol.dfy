/** The order protocol as a state machine over its atomic steps: the transactions the evaluation
    commits, the calls it makes to Kraken, what Kraken and the clock do in between, and a crash
    anywhere. One user; the user lock is the phase being other than `Idle`.

    What is assumed of Kraken is said once, in `CanHappen` and the three `Truthful` predicates:
    an order is accepted only before `attempted_at + ABSENCE_GRACE`, its txid is its own, it executes
    nothing negative, a buy spends no more than it asks for and a sell pays no fee above what it raises,
    a finished order never changes, a definitive refusal is of an order never accepted, and an answered
    lookup is truthful and, once the grace has passed, complete. */
module Protocol {
  import opened Wrappers
  import opened Sequences
  import opened KrakenOrders

  // Time in microseconds.
  const ABSENCE_GRACE: int := 120_000_000

  datatype RowStatus = PENDING | FILLED | FAILED

  /** A row of the order ledger. `session` is the evaluation that placed it, and `limit` the fiat a buy asks
      for; a sell has none. */
  datatype Row = Row(
    status: RowStatus, txid: Option<Txid>, attemptedAt: int, session: nat, limit: Option<real>,
    executed: Option<Execution>)

  /** Where the evaluation holding the user lock is. */
  datatype Phase =
    | Idle
    | Resolving(asOf: int, todo: seq<ClOrdId>, clear: bool)
    | OpenAsked(asOf: int, todo: seq<ClOrdId>, clear: bool, unresolved: bool)
    | Judging(asOf: int, todo: seq<ClOrdId>, clear: bool, answer: Option<Lookup>)
    | Planning
    | Sending(stopped: bool)
    | Recorded(id: ClOrdId)
    | Requested(id: ClOrdId)
    | Named(id: ClOrdId, txid: Txid)
    | Reading(id: ClOrdId)
    | Settling(id: ClOrdId, answer: Option<Lookup>)
    | Rejected(id: ClOrdId)

  /** `inFlight` are the requests Kraken has not judged yet; `book` is every order it accepted. */
  datatype World = World(
    now: int,
    rows: map<ClOrdId, Row>,
    inFlight: set<ClOrdId>,
    book: map<ClOrdId, Listing>,
    session: nat,
    phase: Phase)

  const Start: World := World(0, map[], {}, map[], 0, Idle)

  /** The clock and Kraken. */
  datatype Outside =
    | Elapse(to: int)
    | Accept(id: ClOrdId, order: Listing)
    | Reject(id: ClOrdId)
    | Trade(id: ClOrdId, order: Listing)

  /** core/settlement.py `resolve_pending`. */
  datatype Resolution =
    | Begin(asOf: int, pending: seq<ClOrdId>)
    | AskOpen(orders: Option<seq<Listing>>)
    | AskClosed(orders: Option<seq<Listing>>)
    | AskTxid(named: Option<map<Txid, Listing>>)
    | Judge
    | Resolved

  /** core/execution.py `_send`, one leg after another. */
  datatype Delivery =
    | Proceed
    | Record(id: ClOrdId, at: int, limit: Option<real>)
    | Request
    | Hear(answer: Answer)
    | MarkSent
    | ReadBack(named: Option<map<Txid, Listing>>)
    | MarkSettled
    | MarkFailed

  /** `Release`: the evaluation ends, or its process dies, and the lock goes with it. */
  datatype Event = Out(outside: Outside) | Resolve(resolution: Resolution) | Deliver(delivery: Delivery) | Release

  /** An attempt whose outcome is unknown and which Kraken never named. */
  predicate Unnamed(rows: map<ClOrdId, Row>, id: ClOrdId) {
    id in rows && rows[id].status == PENDING && rows[id].txid.None?
  }

  ghost function PendingIds(rows: map<ClOrdId, Row>): set<ClOrdId> {
    set id | id in rows && rows[id].status == PENDING
  }

  predicate Done(order: Listing) {
    Finished(MapOrderStatus(order.word))
  }

  /** What an order may have executed: nothing negative, and nothing for nothing; a buy no more than it asked
      for; and a sell for no fee above what it raised. */
  predicate Counted(order: Listing, limit: Option<real>) {
    var x := order.executed;
    && x.volume >= 0.0 && x.cost >= 0.0 && x.fee >= 0.0
    && (x.volume == 0.0 ==> x.cost == 0.0 && x.fee == 0.0)
    && (if limit.Some? then x.cost <= limit.value else x.fee <= x.cost)
  }

  /** An order Kraken accepted, past its grace. */
  predicate IsListed(w: World, id: ClOrdId) {
    id in w.rows && w.rows[id].attemptedAt + ABSENCE_GRACE <= w.now && id in w.book
  }

  /** One of the two endpoints answered about `id`, at this moment. */
  predicate TruthfulList(w: World, id: ClOrdId, closed: bool, orders: Option<seq<Listing>>) {
    orders.Some? ==>
      && (forall order :: order in orders.value && order.clOrdId == Some(id) ==>
            id in w.book && w.book[id] == order && Done(order) == closed)
      && (IsListed(w, id) && Done(w.book[id]) == closed ==> w.book[id] in orders.value)
  }

  predicate TruthfulQuery(w: World, txid: Txid, named: Option<map<Txid, Listing>>) {
    named.Some? && txid in named.value ==>
      exists id :: id in w.book && w.book[id].txid == txid && w.book[id] == named.value[txid]
  }

  predicate TruthfulAnswer(w: World, id: ClOrdId, answer: Answer) {
    match Outcome(answer)
    case Sent(txid) => id in w.book && w.book[id].txid == txid
    case Refused => id !in w.book && id !in w.inFlight
    case Lost => true
  }

  predicate CanHappen(w: World, e: Outside) {
    match e
    case Elapse(to) => w.now <= to
    case Accept(id, order) =>
      && id in w.inFlight && id in w.rows && w.now < w.rows[id].attemptedAt + ABSENCE_GRACE
      && order.clOrdId == Some(id) && !Done(order) && Counted(order, w.rows[id].limit)
      && forall other :: other in w.book ==> w.book[other].txid != order.txid
    case Reject(id) => id in w.inFlight
    case Trade(id, order) =>
      && id in w.book && !Done(w.book[id]) && id in w.rows
      && order.txid == w.book[id].txid && order.clOrdId == Some(id) && Counted(order, w.rows[id].limit)
  }

  ghost predicate CanResolve(w: World, e: Resolution) {
    match e
    case Begin(asOf, pending) =>
      w.phase.Idle? && asOf <= w.now && NoRepeats(pending) && PendingIds(w.rows) == set id | id in pending
    case AskOpen(orders) =>
      && w.phase.Resolving? && w.phase.todo != []
      && w.phase.todo[0] in w.rows && w.rows[w.phase.todo[0]].txid.None?
      && TruthfulList(w, w.phase.todo[0], false, orders)
    case AskClosed(orders) =>
      w.phase.OpenAsked? && w.phase.todo != [] && TruthfulList(w, w.phase.todo[0], true, orders)
    case AskTxid(named) =>
      && w.phase.Resolving? && w.phase.todo != []
      && w.phase.todo[0] in w.rows && w.rows[w.phase.todo[0]].txid.Some?
      && TruthfulQuery(w, w.rows[w.phase.todo[0]].txid.value, named)
    case Judge => w.phase.Judging? && w.phase.todo != [] && w.phase.todo[0] in w.rows
    case Resolved => w.phase.Resolving? && w.phase.todo == []
  }

  ghost predicate CanDeliver(w: World, e: Delivery) {
    match e
    case Proceed => w.phase.Planning?
    case Record(id, at, _) => w.phase == Sending(false) && id !in w.rows && at <= w.now
    case Request => w.phase.Recorded?
    case Hear(answer) => w.phase.Requested? && TruthfulAnswer(w, w.phase.id, answer)
    case MarkSent => w.phase.Named? && w.phase.id in w.rows
    case ReadBack(named) =>
      && w.phase.Reading? && w.phase.id in w.rows && w.rows[w.phase.id].txid.Some?
      && TruthfulQuery(w, w.rows[w.phase.id].txid.value, named)
    case MarkSettled => w.phase.Settling? && w.phase.id in w.rows
    case MarkFailed => w.phase.Rejected? && w.phase.id in w.rows
  }

  ghost predicate Enabled(w: World, e: Event) {
    match e
    case Out(outside) => CanHappen(w, outside)
    case Resolve(resolution) => CanResolve(w, resolution)
    case Deliver(delivery) => CanDeliver(w, delivery)
    case Release => true
  }

  /** The first endpoint's answer about the head of `todo`. */
  function AfterOpen(asOf: int, todo: seq<ClOrdId>, clear: bool, orders: Option<seq<Listing>>): Phase
    requires todo != []
  {
    if orders.None? then OpenAsked(asOf, todo, clear, true)
    else if orders.value == [] then OpenAsked(asOf, todo, clear, false)
    else
      var found := Match(orders.value, todo[0]);
      if found.Some? then Judging(asOf, todo, clear, found) else OpenAsked(asOf, todo, clear, true)
  }

  /** The second endpoint's answer, given what the first left open. */
  function AfterClosed(id: ClOrdId, unresolved: bool, orders: Option<seq<Listing>>): Option<Lookup> {
    if orders.None? then None
    else if orders.value == [] then (if unresolved then None else Some(Absent))
    else Match(orders.value, id)
  }

  /** core/settlement.py `settle`: the row after Kraken's answer is written down. */
  function SettledRow(row: Row, answer: Option<Lookup>): Row {
    match answer
    case None => row
    case Some(Absent) => row.(status := FAILED)
    case Some(Found(txid, status, executed)) =>
      if Finished(status) then
        if executed.volume > 0.0
        then row.(status := FILLED, txid := Some(txid), executed := Some(executed))
        else row.(status := FAILED)
      else row.(txid := Some(txid))
  }

  /** An absence read sooner than the grace after the attempt is not believed. */
  predicate TooSoon(asOf: int, row: Row, answer: Option<Lookup>) {
    answer == Some(Absent) && asOf - row.attemptedAt < ABSENCE_GRACE
  }

  function Happen(w: World, e: Outside): World
    requires CanHappen(w, e)
  {
    match e
    case Elapse(to) => w.(now := to)
    case Accept(id, order) => w.(inFlight := w.inFlight - {id}, book := w.book[id := order])
    case Reject(id) => w.(inFlight := w.inFlight - {id})
    case Trade(id, order) => w.(book := w.book[id := order])
  }

  ghost function ResolveStep(w: World, e: Resolution): World
    requires CanResolve(w, e)
  {
    match e
    case Begin(asOf, pending) => w.(session := w.session + 1, phase := Resolving(asOf, pending, true))
    case AskOpen(orders) => w.(phase := AfterOpen(w.phase.asOf, w.phase.todo, w.phase.clear, orders))
    case AskClosed(orders) =>
      w.(phase := Judging(w.phase.asOf, w.phase.todo, w.phase.clear,
        AfterClosed(w.phase.todo[0], w.phase.unresolved, orders)))
    case AskTxid(named) =>
      w.(phase := Judging(w.phase.asOf, w.phase.todo, w.phase.clear,
        FindByTxid(named, w.rows[w.phase.todo[0]].txid.value)))
    case Judge =>
      var id := w.phase.todo[0];
      if TooSoon(w.phase.asOf, w.rows[id], w.phase.answer)
      then w.(phase := Resolving(w.phase.asOf, w.phase.todo[1..], false))
      else
        var row := SettledRow(w.rows[id], w.phase.answer);
        w.(rows := w.rows[id := row],
           phase := Resolving(w.phase.asOf, w.phase.todo[1..], w.phase.clear && row.status != PENDING))
    case Resolved => w.(phase := if w.phase.clear then Planning else Idle)
  }

  ghost function DeliverStep(w: World, e: Delivery): World
    requires CanDeliver(w, e)
  {
    match e
    case Proceed => w.(phase := Sending(false))
    case Record(id, at, limit) =>
      w.(rows := w.rows[id := Row(PENDING, None, at, w.session, limit, None)], phase := Recorded(id))
    case Request => w.(inFlight := w.inFlight + {w.phase.id}, phase := Requested(w.phase.id))
    case Hear(answer) =>
      (match Outcome(answer)
       case Sent(txid) => w.(phase := Named(w.phase.id, txid))
       case Refused => w.(phase := Rejected(w.phase.id))
       case Lost => w.(phase := Sending(true)))
    case MarkSent =>
      w.(rows := w.rows[w.phase.id := w.rows[w.phase.id].(txid := Some(w.phase.txid))], phase := Reading(w.phase.id))
    case ReadBack(named) =>
      w.(phase := Settling(w.phase.id, FindByTxid(named, w.rows[w.phase.id].txid.value)))
    case MarkSettled =>
      w.(rows := w.rows[w.phase.id := SettledRow(w.rows[w.phase.id], w.phase.answer)], phase := Sending(false))
    case MarkFailed =>
      w.(rows := w.rows[w.phase.id := w.rows[w.phase.id].(status := FAILED)], phase := Sending(false))
  }

  ghost function Apply(w: World, e: Event): World
    requires Enabled(w, e)
  {
    match e
    case Out(outside) => Happen(w, outside)
    case Resolve(resolution) => ResolveStep(w, resolution)
    case Deliver(delivery) => DeliverStep(w, delivery)
    case Release => w.(phase := Idle)
  }

  // ----- The invariant --------------------------------------------------------

  /** Nothing this order will ever do is unknown: it never executed, and it never will. */
  predicate Dead(w: World, id: ClOrdId)
    requires id in w.rows
  {
    if id in w.book then Done(w.book[id]) && w.book[id].executed.volume <= 0.0
    else id !in w.inFlight || w.rows[id].attemptedAt + ABSENCE_GRACE <= w.now
  }

  ghost predicate RowTrue(w: World, id: ClOrdId)
    requires id in w.rows
  {
    var row := w.rows[id];
    && row.attemptedAt <= w.now
    && row.session <= w.session
    && (row.txid.Some? ==> id in w.book && w.book[id].txid == row.txid.value)
    && (row.status == FILLED ==>
          && id in w.book && Done(w.book[id]) && w.book[id].executed.volume > 0.0
          && row.txid == Some(w.book[id].txid) && row.executed == Some(w.book[id].executed))
    && (row.status == FAILED ==> Dead(w, id))
    && (row.status != FILLED ==> row.executed.None?)
  }

  ghost predicate Faithful(w: World) {
    && w.book.Keys <= w.rows.Keys
    && w.inFlight <= w.rows.Keys
    && w.inFlight !! w.book.Keys
    && (forall id :: id in w.book ==> w.book[id].clOrdId == Some(id) && Counted(w.book[id], w.rows[id].limit))
    && (forall i, j :: i in w.book && j in w.book && w.book[i].txid == w.book[j].txid ==> i == j)
    && (forall id :: id in w.rows ==> RowTrue(w, id))
  }

  ghost predicate OneUnnamed(rows: map<ClOrdId, Row>) {
    forall i, j :: Unnamed(rows, i) && Unnamed(rows, j) ==> i == j
  }

  /** Every attempt still open was made by this evaluation and, but for `except`, has its txid. */
  ghost predicate OnlyNamed(w: World, except: set<ClOrdId>) {
    forall id :: id in w.rows && w.rows[id].status == PENDING ==>
      w.rows[id].session == w.session && (w.rows[id].txid.Some? || id in except)
  }

  ghost predicate TodoTrue(w: World, asOf: int, todo: seq<ClOrdId>, clear: bool) {
    && asOf <= w.now
    && NoRepeats(todo)
    && (forall id :: id in todo ==> id in w.rows && w.rows[id].status == PENDING)
    && (clear ==> forall id :: id in w.rows && w.rows[id].status == PENDING ==> id in todo)
  }

  /** What an answered lookup of `id` is worth. */
  ghost predicate LookupTrue(w: World, id: ClOrdId, answer: Option<Lookup>)
    requires id in w.rows
  {
    match answer
    case None => true
    case Some(Absent) => false
    case Some(Found(txid, status, executed)) =>
      && id in w.book && w.book[id].txid == txid
      && (Finished(status) ==> Done(w.book[id]) && w.book[id].executed == executed)
  }

  ghost predicate PhaseTrue(w: World) {
    match w.phase
    case Idle => true
    case Resolving(asOf, todo, clear) => TodoTrue(w, asOf, todo, clear)
    case OpenAsked(asOf, todo, clear, unresolved) =>
      && TodoTrue(w, asOf, todo, clear) && todo != [] && w.rows[todo[0]].txid.None?
      && (!unresolved && w.rows[todo[0]].attemptedAt + ABSENCE_GRACE <= asOf && todo[0] in w.book ==>
          Done(w.book[todo[0]]))
    case Judging(asOf, todo, clear, answer) =>
      && TodoTrue(w, asOf, todo, clear) && todo != []
      && (if answer == Some(Absent)
          then
            && w.rows[todo[0]].txid.None?
            && (w.rows[todo[0]].attemptedAt + ABSENCE_GRACE <= asOf ==> todo[0] !in w.book)
          else LookupTrue(w, todo[0], answer))
    case Planning => forall id :: id in w.rows ==> w.rows[id].status != PENDING
    case Sending(stopped) =>
      if stopped then (exists id :: Unnamed(w.rows, id) && OnlyNamed(w, {id})) else OnlyNamed(w, {})
    case Recorded(id) => Unnamed(w.rows, id) && OnlyNamed(w, {id}) && id !in w.book && id !in w.inFlight
    case Requested(id) => Unnamed(w.rows, id) && OnlyNamed(w, {id})
    case Named(id, txid) => Unnamed(w.rows, id) && OnlyNamed(w, {id}) && id in w.book && w.book[id].txid == txid
    case Rejected(id) => Unnamed(w.rows, id) && OnlyNamed(w, {id}) && id !in w.book && id !in w.inFlight
    case Reading(id) => id in w.rows && w.rows[id].status == PENDING && w.rows[id].txid.Some? && OnlyNamed(w, {})
    case Settling(id, answer) =>
      && id in w.rows && w.rows[id].status == PENDING && w.rows[id].txid.Some? && OnlyNamed(w, {})
      && LookupTrue(w, id, answer)
  }

  ghost predicate Inv(w: World) {
    Faithful(w) && OneUnnamed(w.rows) && PhaseTrue(w)
  }

  lemma OutsideKeepsRow(w: World, e: Outside, id: ClOrdId)
    requires Faithful(w) && CanHappen(w, e) && id in w.rows
    ensures RowTrue(Happen(w, e), id)
  {
    assert RowTrue(w, id);
  }

  lemma OutsideKeepsFaith(w: World, e: Outside)
    requires Inv(w) && CanHappen(w, e)
    ensures Faithful(Happen(w, e))
  {
    hide RowTrue, PhaseTrue, MapOrderStatus, OneUnnamed;
    forall id | id in w.rows ensures RowTrue(Happen(w, e), id) { OutsideKeepsRow(w, e, id); }
  }

  lemma OutsideKeepsPhase(w: World, e: Outside)
    requires Inv(w) && CanHappen(w, e)
    ensures PhaseTrue(Happen(w, e))
  {
  }

  /** Rewriting one open row with a true one, whatever the phase becomes. */
  lemma RowUpdateKeeps(w: World, w': World, id: ClOrdId, row: Row)
    requires Faithful(w) && OneUnnamed(w.rows) && id in w.rows
    requires w' == w.(rows := w.rows[id := row], phase := w'.phase)
    requires row.limit == w.rows[id].limit && (Unnamed(w'.rows, id) ==> Unnamed(w.rows, id))
    requires RowTrue(w', id)
    ensures Faithful(w') && OneUnnamed(w'.rows)
  {
    forall other | other in w'.rows ensures RowTrue(w', other) {
      assert other != id ==> RowTrue(w, other);
    }
    assert forall other :: Unnamed(w'.rows, other) ==> Unnamed(w.rows, other);
  }

  lemma ResolutionKeepsFaith(w: World, e: Resolution)
    requires Inv(w) && CanResolve(w, e)
    ensures Faithful(ResolveStep(w, e)) && OneUnnamed(ResolveStep(w, e).rows)
  {
    if e.Judge? && !TooSoon(w.phase.asOf, w.rows[w.phase.todo[0]], w.phase.answer) {
      var id := w.phase.todo[0];
      assert RowTrue(w, id);
      RowUpdateKeeps(w, ResolveStep(w, e), id, SettledRow(w.rows[id], w.phase.answer));
    }
  }

  lemma JudgeKeepsPhase(w: World)
    requires Inv(w) && CanResolve(w, Judge)
    ensures PhaseTrue(ResolveStep(w, Judge))
  {
    var todo := w.phase.todo;
    assert forall id :: id in todo <==> id == todo[0] || id in todo[1..];
  }

  lemma BeginKeepsPhase(w: World, asOf: int, pending: seq<ClOrdId>)
    requires Inv(w) && CanResolve(w, Begin(asOf, pending))
    ensures PhaseTrue(ResolveStep(w, Begin(asOf, pending)))
  {
    hide RowTrue, NoRepeats;
    assert forall id :: id in pending <==> id in PendingIds(w.rows);
  }

  lemma AskOpenKeepsPhase(w: World, orders: Option<seq<Listing>>)
    requires Inv(w) && CanResolve(w, AskOpen(orders))
    ensures PhaseTrue(ResolveStep(w, AskOpen(orders)))
  {
    hide NoRepeats, MapOrderStatus;
  }

  lemma AskClosedKeepsPhase(w: World, orders: Option<seq<Listing>>)
    requires Inv(w) && CanResolve(w, AskClosed(orders))
    ensures PhaseTrue(ResolveStep(w, AskClosed(orders)))
  {
    hide NoRepeats, MapOrderStatus;
  }

  lemma AskTxidKeepsPhase(w: World, named: Option<map<Txid, Listing>>)
    requires Inv(w) && CanResolve(w, AskTxid(named))
    ensures PhaseTrue(ResolveStep(w, AskTxid(named)))
  {
    hide NoRepeats, MapOrderStatus;
    assert RowTrue(w, w.phase.todo[0]);
  }

  lemma ResolutionKeepsPhase(w: World, e: Resolution)
    requires Inv(w) && CanResolve(w, e)
    ensures PhaseTrue(ResolveStep(w, e))
  {
    match e
    case Begin(asOf, pending) => BeginKeepsPhase(w, asOf, pending);
    case Judge => JudgeKeepsPhase(w);
    case AskOpen(orders) => AskOpenKeepsPhase(w, orders);
    case AskClosed(orders) => AskClosedKeepsPhase(w, orders);
    case AskTxid(named) => AskTxidKeepsPhase(w, named);
    case Resolved =>
  }

  lemma RecordKeepsFaith(w: World, e: Delivery)
    requires Inv(w) && CanDeliver(w, e) && e.Record?
    ensures Faithful(DeliverStep(w, e)) && OneUnnamed(DeliverStep(w, e).rows)
  {
  }

  lemma MarkKeepsFaith(w: World, e: Delivery)
    requires Inv(w) && CanDeliver(w, e) && (e.MarkSent? || e.MarkSettled? || e.MarkFailed?)
    ensures Faithful(DeliverStep(w, e)) && OneUnnamed(DeliverStep(w, e).rows)
  {
    var w' := DeliverStep(w, e);
    assert RowTrue(w, w.phase.id);
    RowUpdateKeeps(w, w', w.phase.id, w'.rows[w.phase.id]);
  }

  lemma PhaseAloneKeepsFaith(w: World, phase: Phase)
    requires Faithful(w)
    ensures Faithful(w.(phase := phase))
  {
    forall id | id in w.rows ensures RowTrue(w.(phase := phase), id) { assert RowTrue(w, id); }
  }

  lemma RequestKeepsFaith(w: World)
    requires Inv(w) && CanDeliver(w, Request)
    ensures Faithful(DeliverStep(w, Request))
  {
    hide OneUnnamed, OnlyNamed, Counted;
    forall id | id in w.rows ensures RowTrue(DeliverStep(w, Request), id) { assert RowTrue(w, id); }
  }

  lemma DeliveryKeepsFaith(w: World, e: Delivery)
    requires Inv(w) && CanDeliver(w, e)
    ensures Faithful(DeliverStep(w, e)) && OneUnnamed(DeliverStep(w, e).rows)
  {
    hide Faithful, OneUnnamed, PhaseTrue;
    match e
    case Record(_, _, _) => RecordKeepsFaith(w, e);
    case Request => RequestKeepsFaith(w);
    case MarkSent => MarkKeepsFaith(w, e);
    case MarkSettled => MarkKeepsFaith(w, e);
    case MarkFailed => MarkKeepsFaith(w, e);
    case _ => PhaseAloneKeepsFaith(w, DeliverStep(w, e).phase);
  }

  lemma DeliveryKeepsPhase(w: World, e: Delivery)
    requires Inv(w) && CanDeliver(w, e)
    ensures PhaseTrue(DeliverStep(w, e))
  {
  }

  lemma StepKeeps(w: World, e: Event)
    requires Inv(w) && Enabled(w, e)
    ensures Inv(Apply(w, e))
  {
    match e
    case Out(outside) => OutsideKeepsFaith(w, outside); OutsideKeepsPhase(w, outside);
    case Resolve(resolution) => ResolutionKeepsFaith(w, resolution); ResolutionKeepsPhase(w, resolution);
    case Deliver(delivery) => DeliveryKeepsFaith(w, delivery); DeliveryKeepsPhase(w, delivery);
    case Release =>
  }

  // ----- Runs -----------------------------------------------------------------

  /** Where the events lead, when each is enabled in its turn. */
  ghost function Run(w: World, es: seq<Event>): Option<World>
    decreases |es|
  {
    if es == [] then Some(w)
    else
      var before := Run(w, es[..|es| - 1]);
      if before.Some? && Enabled(before.value, es[|es| - 1]) then Some(Apply(before.value, es[|es| - 1])) else None
  }

  lemma RunExtends(w: World, es: seq<Event>, e: Event)
    requires Run(w, es).Some? && Enabled(Run(w, es).value, e)
    ensures Run(w, es + [e]) == Some(Apply(Run(w, es).value, e))
  {
    assert (es + [e])[..|es|] == es;
  }

  lemma {:induction false} RunKeeps(w: World, es: seq<Event>)
    requires Inv(w) && Run(w, es).Some?
    ensures Inv(Run(w, es).value)
    decreases |es|
  {
    if es != [] {
      RunKeeps(w, es[..|es| - 1]);
      StepKeeps(Run(w, es[..|es| - 1]).value, es[|es| - 1]);
    }
  }

  /** Every run, with a crash anywhere. */
  lemma Safety(es: seq<Event>)
    requires Run(Start, es).Some?
    ensures Inv(Run(Start, es).value)
  {
    RunKeeps(Start, es);
  }

  ghost function ExecutedAtKraken(w: World): map<ClOrdId, Execution> {
    map id | id in w.book && w.book[id].executed.volume > 0.0 :: w.book[id].executed
  }

  ghost function ExecutedInLedger(w: World): map<ClOrdId, Execution> {
    map id | id in w.rows && w.rows[id].status == FILLED && w.rows[id].executed.Some? :: w.rows[id].executed.value
  }

  /** What one step leaves alone about one attempt. */
  ghost predicate Steady(w: World, w': World, id: ClOrdId)
    requires id in w.rows
  {
    && id in w'.rows && w'.rows[id].attemptedAt == w.rows[id].attemptedAt && w'.rows[id].limit == w.rows[id].limit
    && (w.rows[id].status != PENDING ==> w'.rows[id] == w.rows[id])
    && w.now <= w'.now
    && (id in w.book ==> id in w'.book && (Done(w.book[id]) ==> w'.book[id] == w.book[id]))
    && (id !in w.book && id in w'.book ==> id in w.inFlight && w.now < w.rows[id].attemptedAt + ABSENCE_GRACE)
  }

  lemma ResolutionIsSteady(w: World, e: Resolution, id: ClOrdId)
    requires Inv(w) && CanResolve(w, e) && id in w.rows
    ensures Steady(w, ResolveStep(w, e), id)
  {
  }

  lemma DeliveryIsSteady(w: World, e: Delivery, id: ClOrdId)
    requires Inv(w) && CanDeliver(w, e) && id in w.rows
    ensures Steady(w, DeliverStep(w, e), id)
  {
  }

  lemma StepIsSteady(w: World, e: Event, id: ClOrdId)
    requires Inv(w) && Enabled(w, e) && id in w.rows
    ensures Steady(w, Apply(w, e), id)
  {
    match e
    case Out(outside) =>
    case Resolve(resolution) => ResolutionIsSteady(w, resolution, id);
    case Deliver(delivery) => DeliveryIsSteady(w, delivery, id);
    case Release =>
  }

  /** The ledger never claims what Kraken did not execute, and a failed attempt executed nothing. */
  lemma LedgerAgrees(es: seq<Event>)
    requires Run(Start, es).Some?
    ensures
      var w := Run(Start, es).value;
      && w.book.Keys <= w.rows.Keys
      && (forall id :: id in ExecutedInLedger(w) ==>
          id in ExecutedAtKraken(w) && ExecutedInLedger(w)[id] == ExecutedAtKraken(w)[id])
      && (forall id :: id in w.rows && w.rows[id].status == FILLED ==> id in ExecutedInLedger(w))
      && (forall id :: id in w.rows && w.rows[id].status == FAILED ==> id !in ExecutedAtKraken(w))
  {
    Safety(es);
    var w := Run(Start, es).value;
    forall id | id in w.rows ensures RowTrue(w, id) {}
  }

  /** When a plan is computed nothing is open, and the ledger holds exactly what Kraken executed. */
  lemma PlanSeesEverything(es: seq<Event>)
    requires Run(Start, es).Some? && Run(Start, es).value.phase.Planning?
    ensures
      var w := Run(Start, es).value;
      PendingIds(w.rows) == {} && ExecutedInLedger(w) == ExecutedAtKraken(w)
  {
    Safety(es);
    var w := Run(Start, es).value;
    forall id | id in w.rows ensures RowTrue(w, id) {}
  }

  ghost predicate Quiet(w: World) {
    forall id :: id in w.rows ==> w.rows[id].status != PENDING
  }

  predicate IsRecord(e: Event) {
    e.Deliver? && e.delivery.Record?
  }

  lemma OnlyRecordAddsRows(w: World, e: Event)
    requires Enabled(w, e) && !IsRecord(e)
    ensures Apply(w, e).rows.Keys == w.rows.Keys
  {
  }

  /** Steadiness of a resolved attempt, read against its row. */
  lemma ResolvedIsSteady(w: World, w': World, id: ClOrdId)
    requires id in w.rows && w.rows[id].status != PENDING && RowTrue(w, id) && Steady(w, w', id)
    ensures id in w'.rows && w'.rows[id] == w.rows[id]
    ensures id in w.book <==> id in w'.book
    ensures id in w.book ==> w'.book[id] == w.book[id]
  {
  }

  lemma QuietStep(w: World, e: Event)
    requires Inv(w) && Quiet(w) && Enabled(w, e) && !IsRecord(e)
    ensures Quiet(Apply(w, e)) && Apply(w, e).book == w.book && Apply(w, e).rows == w.rows
  {
    hide Apply, Enabled, PhaseTrue, OneUnnamed, Steady, RowTrue;
    var w' := Apply(w, e);
    assert w'.rows.Keys == w.rows.Keys by { OnlyRecordAddsRows(w, e); }
    assert w'.book.Keys <= w.rows.Keys by { StepKeeps(w, e); }
    assert w.book.Keys <= w.rows.Keys;
    forall id | id in w.rows
      ensures w'.rows[id] == w.rows[id] && (id in w.book <==> id in w'.book)
      ensures id in w.book ==> w'.book[id] == w.book[id]
    {
      StepIsSteady(w, e, id);
      assert RowTrue(w, id);
      ResolvedIsSteady(w, w', id);
    }
  }

  /** And Kraken can change nothing after that until the next attempt is recorded. */
  lemma {:induction false} QuietUntilNextAttempt(w: World, es: seq<Event>)
    requires Inv(w) && Quiet(w) && Run(w, es).Some?
    requires forall e :: e in es ==> !IsRecord(e)
    ensures Quiet(Run(w, es).value) && Run(w, es).value.book == w.book && Run(w, es).value.rows == w.rows
    decreases |es|
  {
    if es != [] {
      var before := es[..|es| - 1];
      QuietUntilNextAttempt(w, before);
      RunKeeps(w, before);
      QuietStep(Run(w, before).value, es[|es| - 1]);
    }
  }

  /** At most one attempt is unknown and unnamed. No order is sent beside it, by this evaluation or
      a later one, and none beside an attempt an earlier evaluation left open. */
  lemma NoOrderBesideTheUnknown(es: seq<Event>, e: Event)
    requires Run(Start, es + [e]).Some? && e.Deliver? && (e.delivery.Record? || e.delivery.Request?)
    ensures
      var w := Run(Start, es + [e]).value;
      && OneUnnamed(w.rows)
      && (w.phase.Recorded? || w.phase.Requested?)
      && (forall id :: Unnamed(w.rows, id) ==> id == w.phase.id)
      && (forall id :: id in w.rows && w.rows[id].status == PENDING ==> w.rows[id].session == w.session)
  {
    Safety(es + [e]);
    assert (es + [e])[..|es|] == es;
    var w := Run(Start, es + [e]).value;
    assert Inv(w) && (w.phase.Recorded? || w.phase.Requested?);
    assert OnlyNamed(w, {w.phase.id});
  }

  /** A resolved attempt is never touched again, and neither is its order at Kraken. */
  lemma {:induction false} ResolvedIsFinal(w: World, es: seq<Event>, id: ClOrdId)
    requires Inv(w) && Run(w, es).Some? && id in w.rows && w.rows[id].status != PENDING
    ensures
      var after := Run(w, es).value;
      && id in after.rows && after.rows[id] == w.rows[id]
      && (id in w.book <==> id in after.book)
      && (id in w.book ==> after.book[id] == w.book[id])
    decreases |es|
  {
    if es != [] {
      var before := es[..|es| - 1];
      ResolvedIsFinal(w, before, id);
      RunKeeps(w, before);
      StepIsSteady(Run(w, before).value, es[|es| - 1], id);
      assert RowTrue(Run(w, before).value, id);
      ResolvedIsSteady(Run(w, before).value, Run(w, es).value, id);
    }
  }

  lemma {:induction false} RunSplits(w: World, es: seq<Event>, more: seq<Event>)
    requires Run(w, es).Some?
    ensures Run(w, es + more) == Run(Run(w, es).value, more)
    decreases |more|
  {
    if more == [] {
      assert es + more == es;
    } else {
      RunSplits(w, es, more[..|more| - 1]);
      assert (es + more)[..|es + more| - 1] == es + more[..|more| - 1];
    }
  }

  /** The same between two moments of one history: a run and a continuation of it. */
  lemma ResolvedSince(es: seq<Event>, later: seq<Event>, id: ClOrdId)
    requires es <= later && Run(Start, es).Some? && Run(Start, later).Some?
    requires id in Run(Start, es).value.rows && Run(Start, es).value.rows[id].status != PENDING
    ensures
      var w, after := Run(Start, es).value, Run(Start, later).value;
      && id in after.rows && after.rows[id] == w.rows[id]
      && (id in w.book <==> id in after.book)
      && (id in w.book ==> after.book[id] == w.book[id])
  {
    var more := later[|es|..];
    assert es + more == later;
    RunSplits(Start, es, more);
    Safety(es);
    ResolvedIsFinal(Run(Start, es).value, more, id);
  }

  /** What any run leaves alone about one attempt: when it was made, what it asked for, its row once resolved and its
      order once finished; and past its grace no order of it appears. */
  ghost predicate Later(w: World, w': World, id: ClOrdId)
    requires id in w.rows
  {
    && id in w'.rows && w'.rows[id].attemptedAt == w.rows[id].attemptedAt && w'.rows[id].limit == w.rows[id].limit
    && (w.rows[id].status != PENDING ==> w'.rows[id] == w.rows[id])
    && w.now <= w'.now
    && (id in w.book ==> id in w'.book && (Done(w.book[id]) ==> w'.book[id] == w.book[id]))
    && (id !in w.book && id in w'.book ==> w.now < w.rows[id].attemptedAt + ABSENCE_GRACE)
  }

  lemma {:induction false} RunIsLater(w: World, es: seq<Event>, id: ClOrdId)
    requires Inv(w) && Run(w, es).Some? && id in w.rows
    ensures Later(w, Run(w, es).value, id)
    decreases |es|
  {
    hide Inv, Done;
    if es != [] {
      var before := es[..|es| - 1];
      RunIsLater(w, before, id);
      RunKeeps(w, before);
      StepIsSteady(Run(w, before).value, es[|es| - 1], id);
    }
  }

  /** The same between two moments of one history. */
  lemma LaterSince(es: seq<Event>, later: seq<Event>, id: ClOrdId)
    requires es <= later && Run(Start, es).Some? && Run(Start, later).Some? && id in Run(Start, es).value.rows
    ensures Later(Run(Start, es).value, Run(Start, later).value, id)
  {
    hide Later, Inv;
    assert es + later[|es|..] == later;
    RunSplits(Start, es, later[|es|..]);
    Safety(es);
    RunIsLater(Run(Start, es).value, later[|es|..], id);
  }

  /** And what a row's order asked to spend stays what it was recorded with. */
  lemma LimitSince(es: seq<Event>, later: seq<Event>, id: ClOrdId)
    requires es <= later && Run(Start, es).Some? && Run(Start, later).Some? && id in Run(Start, es).value.rows
    ensures
      var w, after := Run(Start, es).value, Run(Start, later).value;
      id in after.rows && after.rows[id].limit == w.rows[id].limit
  {
    LaterSince(es, later, id);
  }

  // ----- The two-endpoint lookup ------------------------------------------------

  /** `find_order_by_cl_ord_id` answered ABSENT and the grace has passed: there is no such order,
      and there never will be, although Kraken moved orders between the two calls. */
  lemma {:induction false} AbsenceIsEvidence(w: World, es: seq<Event>)
    requires Inv(w) && Run(w, es).Some?
    requires w.phase.Judging? && w.phase.answer == Some(Absent)
    requires !TooSoon(w.phase.asOf, w.rows[w.phase.todo[0]], w.phase.answer)
    ensures
      var id := w.phase.todo[0];
      var after := Run(w, es).value;
      id in after.rows && id !in after.book && after.rows[id].attemptedAt + ABSENCE_GRACE <= after.now
    decreases |es|
  {
    if es != [] {
      var before := es[..|es| - 1];
      AbsenceIsEvidence(w, before);
      RunKeeps(w, before);
      StepIsSteady(Run(w, before).value, es[|es| - 1], w.phase.todo[0]);
    }
  }

  /** What a truthful endpoint lists of an id is its order, on the side it is on. */
  lemma ListedIsTheOrder(w: World, id: ClOrdId, closed: bool, orders: seq<Listing>)
    requires TruthfulList(w, id, closed, Some(orders)) && Match(orders, id).Some?
    ensures id in w.book && Match(orders, id) == Some(Read(w.book[id])) && Done(w.book[id]) == closed
  {
    var i :| IsFirstMatch(orders, id, i) && Match(orders, id).value == Read(orders[i]);
  }

  /** And so is what is found under a row's txid. */
  lemma NamedIsTheOrder(w: World, id: ClOrdId, txid: Txid, named: Option<map<Txid, Listing>>)
    requires Inv(w) && id in w.rows && w.rows[id].txid == Some(txid)
    requires TruthfulQuery(w, txid, named) && FindByTxid(named, txid).Some?
    ensures id in w.book && FindByTxid(named, txid) == Some(Read(w.book[id]))
  {
    hide PhaseTrue, OneUnnamed, Counted;
    assert RowTrue(w, id);
  }

  lemma Advance(es: seq<Event>, w: World, e: Event) returns (more: seq<Event>, after: World)
    requires Run(Start, es) == Some(w) && Enabled(w, e)
    ensures more == es + [e] && after == Apply(w, e) && Run(Start, more) == Some(after)
  {
    RunExtends(Start, es, e);
    more, after := es + [e], Apply(w, e);
  }

  /** One evaluation whose only order was accepted, and whose answer was lost. */
  lemma LeavesOneResting(id: ClOrdId, resting: Listing, limit: Option<real>) returns (es: seq<Event>, w: World)
    requires resting.clOrdId == Some(id) && !Done(resting) && Counted(resting, limit)
    ensures Run(Start, es) == Some(w)
    ensures w == World(0, map[id := Row(PENDING, None, 0, 1, limit, None)], {}, map[id := resting], 1, Idle)
  {
    hide Run, MapOrderStatus, Done, Counted;
    assert Run(Start, []) == Some(Start) by { RunNothing(); }
    es, w := Advance([], Start, Resolve(Begin(0, [])));
    es, w := Advance(es, w, Resolve(Resolved));
    es, w := Advance(es, w, Deliver(Proceed));
    es, w := Advance(es, w, Deliver(Record(id, 0, limit)));
    es, w := Advance(es, w, Deliver(Request));
    es, w := Advance(es, w, Out(Accept(id, resting)));
    es, w := Advance(es, w, Deliver(Hear(NothingReadable)));
    es, w := Advance(es, w, Release);
  }

  lemma RunNothing()
    ensures Run(Start, []) == Some(Start)
  {
  }

  /** Closed orders asked first would not be evidence: an order that closes between the two calls is in neither
      answer, although it executed and its grace had long passed. `es` is the run that leads there. */
  lemma ClosedFirstWouldMiss(id: ClOrdId, txid: Txid, fill: Execution) returns (es: seq<Event>, e: Outside)
    requires fill.volume > 0.0 && fill.cost >= 0.0 && fill.fee >= 0.0
    ensures Run(Start, es).Some?
    ensures
      var w := Run(Start, es).value;
      && id in w.rows && w.rows[id].attemptedAt + ABSENCE_GRACE <= w.now
      && TruthfulList(w, id, true, Some([]))
      && CanHappen(w, e) && TruthfulList(Happen(w, e), id, false, Some([]))
      && id in ExecutedAtKraken(Happen(w, e))
  {
    hide Run;
    var resting := Listing(txid, Some(id), "open", Execution(0.0, 0.0, 0.0, 0.0));
    assert MapOrderStatus("open") == Open && MapOrderStatus("closed") == Closed;
    var w;
    es, w := LeavesOneResting(id, resting, Some(fill.cost));
    es, w := Advance(es, w, Out(Elapse(ABSENCE_GRACE)));
    e := Trade(id, Listing(txid, Some(id), "closed", fill));
    assert CanHappen(w, e);
    assert id in ExecutedAtKraken(Happen(w, e));
  }
}
