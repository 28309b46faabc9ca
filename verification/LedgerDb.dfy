/** The order ledger (core/db/orders.py): a row is written before its order is sent, and only the
    `Mark` methods change it. Each method is one committed transaction. */
module LedgerDb {
  import opened Wrappers
  import opened Sequences
  import opened KrakenOrders
  import opened Protocol

  /** The ids of `log` whose rows are open, in the order they were written. */
  function OpenOf(rows: map<ClOrdId, Row>, log: seq<ClOrdId>): seq<ClOrdId> {
    if log == [] then []
    else
      var last := log[|log| - 1];
      OpenOf(rows, log[..|log| - 1]) + (if last in rows && rows[last].status == PENDING then [last] else [])
  }

  /** `a` was written before `b`. */
  ghost predicate Precedes(log: seq<ClOrdId>, a: ClOrdId, b: ClOrdId) {
    exists i, j :: 0 <= i < j < |log| && log[i] == a && log[j] == b
  }

  lemma {:induction false} OpenOfIsPending(rows: map<ClOrdId, Row>, log: seq<ClOrdId>)
    requires NoRepeats(log)
    ensures NoRepeats(OpenOf(rows, log))
    ensures forall id :: id in OpenOf(rows, log) <==> id in log && id in rows && rows[id].status == PENDING
    ensures forall i, j :: 0 <= i < j < |OpenOf(rows, log)| ==>
      Precedes(log, OpenOf(rows, log)[i], OpenOf(rows, log)[j])
  {
    if log != [] {
      var before, last := log[..|log| - 1], log[|log| - 1];
      OpenOfIsPending(rows, before);
      assert log == before + [last];
      forall i, j | 0 <= i < j < |OpenOf(rows, log)|
        ensures Precedes(log, OpenOf(rows, log)[i], OpenOf(rows, log)[j])
      {
        var a, b := OpenOf(rows, log)[i], OpenOf(rows, log)[j];
        assert a in before;
        if j < |OpenOf(rows, before)| {
          var p, q :| 0 <= p < q < |before| && before[p] == a && before[q] == b;
          assert log[p] == a && log[q] == b;
        } else {
          var p :| 0 <= p < |before| && before[p] == a;
          assert log[p] == a && log[|log| - 1] == b;
        }
      }
    }
  }

  function Above(log: seq<ClOrdId>): (id: ClOrdId)
    ensures forall other :: other in log ==> other < id
  {
    if log == [] then 0
    else
      var rest := Above(log[1..]);
      assert log == [log[0]] + log[1..];
      if log[0] < rest then rest else log[0] + 1
  }

  class Ledger {
    var rows: map<ClOrdId, Row>
    var log: seq<ClOrdId>   // every id recorded, oldest first

    ghost predicate Valid()
      reads this
    {
      NoRepeats(log) && forall id :: id in rows <==> id in log
    }

    constructor ()
      ensures Valid() && rows == map[] && log == []
    {
      rows, log := map[], [];
    }

    /** An id never used before. The source mints a random one. */
    method NewClOrdId() returns (id: ClOrdId)
      requires Valid()
      ensures id !in rows
    {
      id := Above(log);
    }

    method RecordAttempt(id: ClOrdId, attemptedAt: int, session: nat, limit: Option<real>)
      requires Valid() && id !in rows
      modifies this
      ensures Valid() && log == old(log) + [id]
      ensures rows == old(rows)[id := Row(PENDING, None, attemptedAt, session, limit, None)]
    {
      rows := rows[id := Row(PENDING, None, attemptedAt, session, limit, None)];
      log := log + [id];
    }

    method MarkSent(id: ClOrdId, txid: Txid)
      requires Valid()
      modifies `rows
      ensures Valid()
      ensures rows == if id in old(rows) then old(rows)[id := old(rows)[id].(txid := Some(txid))] else old(rows)
    {
      if id in rows {
        rows := rows[id := rows[id].(txid := Some(txid))];
      }
    }

    method MarkFilled(id: ClOrdId, txid: Txid, executed: Execution)
      requires Valid()
      modifies `rows
      ensures Valid()
      ensures rows == if id in old(rows)
        then old(rows)[id := old(rows)[id].(status := FILLED, txid := Some(txid), executed := Some(executed))]
        else old(rows)
    {
      if id in rows {
        rows := rows[id := rows[id].(status := FILLED, txid := Some(txid), executed := Some(executed))];
      }
    }

    method MarkFailed(id: ClOrdId)
      requires Valid()
      modifies `rows
      ensures Valid()
      ensures rows == if id in old(rows) then old(rows)[id := old(rows)[id].(status := FAILED)] else old(rows)
    {
      if id in rows {
        rows := rows[id := rows[id].(status := FAILED)];
      }
    }

    /** The attempts to resolve, oldest first. */
    method PendingOrders() returns (ids: seq<ClOrdId>)
      requires Valid()
      ensures ids == OpenOf(rows, log)
      ensures NoRepeats(ids) && PendingIds(rows) == set id | id in ids
    {
      ids := [];
      for i := 0 to |log|
        invariant ids == OpenOf(rows, log[..i])
      {
        assert log[..i + 1][..i] == log[..i];
        if log[i] in rows && rows[log[i]].status == PENDING {
          ids := ids + [log[i]];
        }
      }
      assert log[..|log|] == log;
      OpenOfIsPending(rows, log);
    }
  }
}
