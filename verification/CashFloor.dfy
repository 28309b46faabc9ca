/** What a run asks of Kraken, what Kraken's ledger makes of it, and what that leaves in cash
    (core/execution.py `_place`, `_send_all`; exchange/precision.py `credited`). */
module CashFloor {
  import opened Wrappers
  import opened KrakenOrders
  import opened Protocol
  import opened Sums
  import opened Precision
  import opened Valuation
  import opened Reconcile
  import opened Planning

  type Rows = map<ClOrdId, Row>

  /** One order as Kraken is asked for it: `quantity` is fiat for a buy, and units of the asset for a sell. */
  datatype Ask = Ask(asset: Asset, pair: PairMeta, side: Side, quantity: real, inQuote: bool)

  /** The orders asked of Kraken, in turn. */
  type Asks = seq<(ClOrdId, Ask)>

  predicate Askable(leg: PlannedLeg) {
    leg.meta.Some? && (leg.side == SELL ==> leg.volume.Some?)
  }

  function AskOf(leg: PlannedLeg): Ask
    requires Askable(leg)
  {
    if leg.side == BUY then Ask(leg.asset, leg.meta.value, BUY, leg.amount, true)
    else Ask(leg.asset, leg.meta.value, SELL, leg.volume.value, false)
  }

  function Cost(row: Row): real {
    if row.executed.Some? then row.executed.value.cost else 0.0
  }

  function Fee(row: Row): real {
    if row.executed.Some? then row.executed.value.fee else 0.0
  }

  /** The fiat the buys ask for. */
  function BuysAsked(asks: Asks): real {
    if asks == [] then 0.0
    else
      var ask := asks[|asks| - 1].1;
      BuysAsked(asks[..|asks| - 1]) + if ask.side == BUY then ask.quantity else 0.0
  }

  /** What one order adds to the budget. */
  function Credit(ask: Ask, row: Row, places: nat): real {
    if ask.side == SELL && row.status == FILLED then Credited(Cost(row), Fee(row), places) else 0.0
  }

  predicate AllIn(asks: Asks, rows: Rows) {
    forall i :: 0 <= i < |asks| ==> asks[i].0 in rows
  }

  function Credits(asks: Asks, rows: Rows, places: nat): real {
    if asks == [] then 0.0
    else
      var last := asks[|asks| - 1];
      Credits(asks[..|asks| - 1], rows, places) + if last.0 in rows then Credit(last.1, rows[last.0], places) else 0.0
  }

  // ----- Kraken's ledger ------------------------------------------------------------

  /** What one order came to, in truth and in the ledger: the fiat it spent or raised, the fee taken of that
      in fiat, and both as entered, in units of the fiat's places. */
  datatype Move = Move(amount: real, charge: real, cost: int, fee: int)

  /** What the ledger may hold for an order. Every entry is rounded either way. A buy's fee is taken in the
      asset. A filled order came to what its row says. One not known to be finished may have executed any part
      or nothing: a buy for no more than it asked, and a sell for no fee above what it raised. */
  predicate Plausible(ask: Ask, row: Row, m: Move, places: nat) {
    && LedgerEntry(m.cost, m.amount, places) && LedgerEntry(m.fee, m.charge, places)
    && if row.status == FAILED then m.amount == 0.0 && m.charge == 0.0
       else if row.status == FILLED
         then m.amount == Cost(row) && m.charge == (if ask.side == BUY then 0.0 else Fee(row))
       else if ask.side == BUY then 0.0 <= m.amount <= ask.quantity && m.charge == 0.0
       else 0.0 <= m.charge <= m.amount
  }

  ghost predicate AllPlausible(asks: Asks, rows: Rows, moves: seq<Move>, places: nat) {
    && AllIn(asks, rows) && |moves| == |asks|
    && forall i :: 0 <= i < |asks| ==> Plausible(asks[i].1, rows[asks[i].0], moves[i], places)
  }

  function Change(ask: Ask, m: Move, places: nat): real {
    if ask.side == BUY then -Units(m.cost, places) else Units(m.cost, places) - Units(m.fee, places)
  }

  function CashAfter(cash: real, asks: Asks, moves: seq<Move>, places: nat): real
    requires |moves| == |asks|
  {
    if asks == [] then cash
    else
      var last := |asks| - 1;
      CashAfter(cash, asks[..last], moves[..last], places) + Change(asks[last].1, moves[last], places)
  }

  function LimitOf(ask: Ask): Option<real> {
    if ask.side == BUY then Some(ask.quantity) else None
  }

  /** The row is the order's: it reports nothing negative, and no buy that cost more than it asked for. */
  predicate Belongs(ask: Ask, row: Row) {
    && Cost(row) >= 0.0 && Fee(row) >= 0.0 && row.limit == LimitOf(ask)
    && (ask.side == BUY && row.status == FILLED ==> Cost(row) <= ask.quantity)
  }

  /** And a buy is on its pair's grid. */
  ghost predicate Wellformed(ask: Ask, row: Row) {
    Belongs(ask, row) && (ask.side == BUY ==> ask.quantity >= 0.0 && OnGrid(ask.quantity, ask.pair.costDecimals))
  }

  ghost predicate AllWellformed(asks: Asks, rows: Rows) {
    AllIn(asks, rows) && forall i :: 0 <= i < |asks| ==> Wellformed(asks[i].1, rows[asks[i].0])
  }

  /** What an order came to at Kraken, as the order book has it, entered in the ledger either way. */
  predicate IsEntryOf(order: Option<Listing>, side: Side, m: Move, places: nat) {
    && LedgerEntry(m.cost, m.amount, places) && LedgerEntry(m.fee, m.charge, places)
    && m.amount == (if order.Some? then order.value.executed.cost else 0.0)
    && m.charge == (if order.Some? && side == SELL then order.value.executed.fee else 0.0)
  }

  function InBook(w: World, id: ClOrdId): Option<Listing> {
    if id in w.book then Some(w.book[id]) else None
  }

  /** In every reachable state, now or later, what Kraken did with an order is plausible for its row: nothing
      else is supposed of the ledger but that it rounds. */
  lemma TheBookIsPlausible(w: World, id: ClOrdId, ask: Ask, row: Row, m: Move, places: nat)
    requires Inv(w) && id in w.rows && w.rows[id].limit == LimitOf(ask)
    requires row.status != PENDING ==> w.rows[id] == row
    requires IsEntryOf(InBook(w, id), ask.side, m, places) && (ask.side == BUY ==> ask.quantity >= 0.0)
    ensures Plausible(ask, row, m, places)
  {
    hide LedgerEntry, PhaseTrue, OneUnnamed;
    assert RowTrue(w, id);
  }

  // ----- The worst a ledger can do -------------------------------------------------------

  /** What an order may cost at worst beyond its credit: a buy what it cost, or its amount while that is not
      known, as the ledger may round it up; and a sell not known to be finished one quantum. */
  function Commitment(ask: Ask, row: Row, places: nat): real {
    if row.status == FAILED then 0.0
    else if ask.side == BUY then RoundUp(if row.status == FILLED then Cost(row) else ask.quantity, places)
    else if row.status == FILLED then 0.0
    else Quantum(places)
  }

  function Committed(asks: Asks, rows: Rows, places: nat): real
    requires AllIn(asks, rows)
  {
    if asks == [] then 0.0
    else
      var last := asks[|asks| - 1];
      Committed(asks[..|asks| - 1], rows, places) + Commitment(last.1, rows[last.0], places)
  }

  /** A ledger at its least favourable: costs down and fees up for a sell, and a buy spent in full and rounded up. */
  function Worst(ask: Ask, row: Row, places: nat): Move {
    if row.status == FAILED then Move(0.0, 0.0, 0, 0)
    else if ask.side == BUY then
      var spent := if row.status == FILLED then Cost(row) else ask.quantity;
      Move(spent, 0.0, -(-Scaled(spent, places)).Floor, 0)
    else if row.status == FILLED
      then Move(Cost(row), Fee(row), Scaled(Cost(row), places).Floor, -(-Scaled(Fee(row), places)).Floor)
    else Move(Quantum(places) / 2.0, Quantum(places) / 2.0, 0, 1)
  }

  lemma UnitsNear(places: nat)
    ensures Quantum(places) > 0.0 && Units(0, places) == 0.0 && Units(1, places) == Quantum(places)
  {
  }

  lemma ZeroEntry(units: int, places: nat)
    requires LedgerEntry(units, 0.0, places)
    ensures Units(units, places) == 0.0
  {
    hide RoundDown, RoundUp;
    EntryBounds(units, 0.0, places);
    RoundDownIsGreatest(0.0, places);
    RoundUpIsLeast(0.0, places);
    UnitsNear(places);
    assert RoundUp(0.0, places) <= Units(0, places);
  }

  /** A sell that raised no less than its fee loses one quantum at most. */
  lemma RaisedLosesAQuantum(amount: real, charge: real, cost: int, fee: int, places: nat)
    requires 0.0 <= charge <= amount && LedgerEntry(cost, amount, places) && LedgerEntry(fee, charge, places)
    ensures Units(cost, places) - Units(fee, places) >= -Quantum(places)
  {
    hide Units, Quantum;
    assert Units(cost, places) > Units(fee, places) - Quantum(places) - Quantum(places);
    NextUnit(fee, places);
    NextUnit(fee - 1, places);
    UnitsMonotone(cost, fee - 2, places);
    UnitsMonotone(fee - 1, cost, places);
  }

  lemma ChangeAtLeast(ask: Ask, row: Row, m: Move, places: nat)
    requires Wellformed(ask, row) && Plausible(ask, row, m, places)
    ensures Change(ask, m, places) >= Credit(ask, row, places) - Commitment(ask, row, places)
  {
    hide Credited, OnGrid, Quantum, RoundUp, LedgerEntry, Units;
    if row.status == FAILED {
      ZeroEntry(m.cost, places);
      ZeroEntry(m.fee, places);
    } else if ask.side == BUY {
      EntryBounds(m.cost, m.amount, places);
      RoundUpGrows(m.amount, if row.status == FILLED then Cost(row) else ask.quantity, places);
    } else if row.status == FILLED {
      CreditedIsSafe(Cost(row), Fee(row), places, m.cost, m.fee);
    } else {
      RaisedLosesAQuantum(m.amount, m.charge, m.cost, m.fee, places);
    }
  }

  lemma RoundUpGrows(x: real, y: real, places: nat)
    requires 0.0 <= x <= y
    ensures RoundUp(x, places) <= RoundUp(y, places)
  {
    hide RoundUp;
    RoundUpIsLeast(x, places);
    RoundUpIsLeast(y, places);
    var n: int :| RoundUp(y, places) == Units(n, places);
  }

  lemma WorstIsPlausible(ask: Ask, row: Row, places: nat)
    requires Wellformed(ask, row)
    ensures Plausible(ask, row, Worst(ask, row, places), places)
    ensures Change(ask, Worst(ask, row, places), places) == Credit(ask, row, places) - Commitment(ask, row, places)
  {
    hide Scaled;
    UnitsNear(places);
    if row.status != FAILED {
      if ask.side == BUY {
        var spent := if row.status == FILLED then Cost(row) else ask.quantity;
        ScaledSign(spent, places);
        RoundUpIsLeast(spent, places);
      } else if row.status == FILLED {
        ScaledSign(Cost(row), places);
        ScaledSign(Fee(row), places);
        RoundDownIsGreatest(Cost(row), places);
        RoundUpIsLeast(Fee(row), places);
      }
    }
  }

  /** Whatever the ledger made of each order, the cash is at least what the run counted on, less what its
      orders may cost at worst. */
  lemma {:induction false} CashAtLeast(cash: real, asks: Asks, rows: Rows, moves: seq<Move>, places: nat)
    requires AllWellformed(asks, rows) && AllPlausible(asks, rows, moves, places)
    ensures CashAfter(cash, asks, moves, places) >= cash + Credits(asks, rows, places) - Committed(asks, rows, places)
  {
    hide Change, Credit, Commitment, Plausible, Wellformed;
    if asks != [] {
      var last := |asks| - 1;
      CashAtLeast(cash, asks[..last], rows, moves[..last], places);
      ChangeAtLeast(asks[last].1, rows[asks[last].0], moves[last], places);
    }
  }

  function WorstMoves(asks: Asks, rows: Rows, places: nat): seq<Move>
    requires AllIn(asks, rows)
  {
    seq(|asks|, i requires 0 <= i < |asks| => Worst(asks[i].1, rows[asks[i].0], places))
  }

  lemma {:induction false} WorstCash(cash: real, asks: Asks, rows: Rows, places: nat)
    requires AllWellformed(asks, rows)
    ensures AllPlausible(asks, rows, WorstMoves(asks, rows, places), places)
    ensures CashAfter(cash, asks, WorstMoves(asks, rows, places), places) ==
      cash + Credits(asks, rows, places) - Committed(asks, rows, places)
  {
    hide Worst, Change, Credit, Commitment, Plausible, Wellformed;
    var worst := WorstMoves(asks, rows, places);
    forall i | 0 <= i < |asks| ensures Plausible(asks[i].1, rows[asks[i].0], worst[i], places) {
      WorstIsPlausible(asks[i].1, rows[asks[i].0], places);
    }
    if asks != [] {
      var last := |asks| - 1;
      WorstCash(cash, asks[..last], rows, places);
      assert worst[..last] == WorstMoves(asks[..last], rows, places);
      WorstIsPlausible(asks[last].1, rows[asks[last].0], places);
    }
  }

  // ----- The floor -----------------------------------------------------------------------

  /** The cash a run must leave: the target, or what there was when that is less. */
  function Floor(v: Valued, targets: Targets): real {
    Min(v.cash, CashTarget(v.managedValue, targets))
  }

  ghost predicate SafeFromEveryLedger(cash: real, floor: real, asks: Asks, rows: Rows, places: nat) {
    forall moves: seq<Move> :: AllPlausible(asks, rows, moves, places) ==> CashAfter(cash, asks, moves, places) >= floor
  }

  /** The floor holds against every ledger exactly when the budget covers what the orders may cost at worst:
      each buy what it cost, or its amount while that is not known, as the ledger may round it up, and a quantum
      for each sell not known finished. */
  lemma FloorHoldsExactlyWhen(v: Valued, targets: Targets, asks: Asks, rows: Rows, places: nat)
    requires AllWellformed(asks, rows)
    ensures SafeFromEveryLedger(v.cash, Floor(v, targets), asks, rows, places)
      <==> Committed(asks, rows, places) <= InvestableCash(v, targets) + Credits(asks, rows, places)
  {
    hide Credits, Committed, CashTarget, CashAfter, Plausible, Wellformed;
    if Committed(asks, rows, places) <= InvestableCash(v, targets) + Credits(asks, rows, places) {
      forall moves: seq<Move> | AllPlausible(asks, rows, moves, places)
        ensures CashAfter(v.cash, asks, moves, places) >= Floor(v, targets)
      {
        CashAtLeast(v.cash, asks, rows, moves, places);
      }
    } else {
      WorstCash(v.cash, asks, rows, places);
    }
  }

  /** What rounding adds to the buys of pairs finer than the ledger, a quantum each. */
  function Overcharges(asks: Asks, places: nat): real {
    if asks == [] then 0.0
    else
      var ask := asks[|asks| - 1].1;
      Overcharges(asks[..|asks| - 1], places) + if ask.side == BUY && ask.pair.costDecimals > places
        then Quantum(places) else 0.0
  }

  /** What rounding may take from the sells not known to be finished, a quantum each. */
  function Unfinished(asks: Asks, rows: Rows, places: nat): real
    requires AllIn(asks, rows)
  {
    if asks == [] then 0.0
    else
      var last := asks[|asks| - 1];
      Unfinished(asks[..|asks| - 1], rows, places) + if last.1.side == SELL && rows[last.0].status == PENDING
        then Quantum(places) else 0.0
  }

  /** Neither is more than a quantum for each such order, and so nothing when there is none. */
  lemma {:induction false} AQuantumEach(asks: Asks, rows: Rows, places: nat)
    requires AllIn(asks, rows)
    ensures 0.0 <= Overcharges(asks, places) + Unfinished(asks, rows, places) <= |asks| as real * Quantum(places)
    ensures (forall i :: 0 <= i < |asks| ==>
        if asks[i].1.side == BUY then asks[i].1.pair.costDecimals <= places else rows[asks[i].0].status != PENDING)
      ==> Overcharges(asks, places) == 0.0 && Unfinished(asks, rows, places) == 0.0
  {
    hide Quantum;
    UnitsNear(places);
    if asks != [] {
      var n := |asks| - 1;
      AQuantumEach(asks[..n], rows, places);
      assert |asks| as real * Quantum(places) == n as real * Quantum(places) + Quantum(places);
    }
  }

  lemma BuyCommits(ask: Ask, row: Row, places: nat)
    requires ask.side == BUY && Wellformed(ask, row)
    ensures 0.0 <= Commitment(ask, row, places)
    ensures Commitment(ask, row, places) <=
      ask.quantity + if ask.pair.costDecimals > places then Quantum(places) else 0.0
  {
    hide RoundUp, Quantum;
    UnitsNear(places);
    RoundUpIsLeast(ask.quantity, places);
    if ask.pair.costDecimals <= places {
      GridRefines(ask.quantity, ask.pair.costDecimals, places);
      var n: int :| ask.quantity == Units(n, places);
    }
    if row.status == FILLED {
      RoundUpIsLeast(Cost(row), places);
      RoundUpGrows(Cost(row), ask.quantity, places);
    }
  }

  lemma {:induction false} CommittedAtMost(asks: Asks, rows: Rows, places: nat)
    requires AllWellformed(asks, rows)
    ensures 0.0 <= Committed(asks, rows, places) <= BuysAsked(asks) + Overcharges(asks, places)
      + Unfinished(asks, rows, places)
    ensures 0.0 <= Overcharges(asks, places) && 0.0 <= Unfinished(asks, rows, places)
  {
    hide RoundUp, Quantum, OnGrid;
    UnitsNear(places);
    if asks != [] {
      var last := asks[|asks| - 1];
      CommittedAtMost(asks[..|asks| - 1], rows, places);
      assert Wellformed(last.1, rows[last.0]);
      if last.1.side == BUY { BuyCommits(last.1, rows[last.0], places); }
    }
  }

  /** No overspend: a run whose buys ask for no more than its budget leaves at least the cash target, short
      of it only by a budget the fees took below zero, by pairs finer than the ledger, and by what rounding
      may take from a sell not known to be finished. */
  lemma RunKeepsTheFloor(v: Valued, targets: Targets, asks: Asks, rows: Rows, moves: seq<Move>, places: nat)
    requires AllWellformed(asks, rows) && AllPlausible(asks, rows, moves, places)
    requires BuysAsked(asks) <= Positive(InvestableCash(v, targets) + Credits(asks, rows, places))
    ensures CashAfter(v.cash, asks, moves, places) >=
      Floor(v, targets) + Min(0.0, InvestableCash(v, targets) + Credits(asks, rows, places))
        - Overcharges(asks, places) - Unfinished(asks, rows, places)
  {
    hide Credits, BuysAsked, Overcharges, Unfinished, Committed, CashTarget, CashAfter, AllWellformed, AllPlausible;
    CashAtLeast(v.cash, asks, rows, moves, places);
    CommittedAtMost(asks, rows, places);
  }

  /** For such a run, with every sell settled and no pair finer than the ledger, the floor holds against every
      ledger exactly when the credited sells left a budget that is not negative. */
  lemma SettledFloorHoldsExactlyWhen(v: Valued, targets: Targets, asks: Asks, rows: Rows, places: nat)
    requires AllWellformed(asks, rows)
    requires Overcharges(asks, places) == 0.0 && Unfinished(asks, rows, places) == 0.0
    requires BuysAsked(asks) <= Positive(InvestableCash(v, targets) + Credits(asks, rows, places))
    ensures SafeFromEveryLedger(v.cash, Floor(v, targets), asks, rows, places)
      <==> InvestableCash(v, targets) + Credits(asks, rows, places) >= 0.0
  {
    hide Credits, BuysAsked, Overcharges, Unfinished, Committed, InvestableCash, Floor, SafeFromEveryLedger;
    hide AllWellformed;
    CommittedAtMost(asks, rows, places);
    FloorHoldsExactlyWhen(v, targets, asks, rows, places);
  }

  /** One lost answer is enough to miss the floor by a quantum, with a budget that is not negative: a sell that
      executed 0.00005 for a fee of 0.0000004, entered at four places as nothing raised and one unit of fee. */
  lemma UnfinishedSellCanMiss(cash: real, id: ClOrdId, ask: Ask, row: Row)
    requires ask.side == SELL && row.status == PENDING
    ensures
      var asks, rows, m := [(id, ask)], map[id := row], Move(0.00005, 0.0000004, 0, 1);
      && Credits(asks, rows, 4) == 0.0 && BuysAsked(asks) == 0.0
      && AllPlausible(asks, rows, [m], 4) && CashAfter(cash, asks, [m], 4) == cash - 0.0001
      && !SafeFromEveryLedger(cash, cash, asks, rows, 4)
  {
    assert Pow10(4) == 10 * Pow10(3) && Pow10(3) == 10 * Pow10(2) && Pow10(2) == 10 * Pow10(1) && Pow10(1) == 10;
    var asks, m := [(id, ask)], Move(0.00005, 0.0000004, 0, 1);
    assert asks[..0] == [] && [m][..0] == [];
    assert Units(1, 4) == 0.0001 && Units(0, 4) == 0.0;
  }
}
