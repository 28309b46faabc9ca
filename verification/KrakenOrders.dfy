/** Kraken's order vocabulary (exchange/orders.py): how a status word, the answer to
    `AddOrder` and the rows of a lookup are read. Identifiers are opaque numbers. */
module KrakenOrders {
  import opened Wrappers

  type ClOrdId = nat
  type Txid = nat

  datatype ExchangeStatus = Canceled | Closed | Open | Waiting | Unknown

  /** What an order has executed, as Kraken reports it. */
  datatype Execution = Execution(volume: real, price: real, fee: real, cost: real)

  /** One order as an endpoint lists it. Orders this system did not place carry other ids, or none. */
  datatype Listing = Listing(txid: Txid, clOrdId: Option<ClOrdId>, word: string, executed: Execution)

  /** A lookup that was answered. A failed one is `None` of this. */
  datatype Lookup = Absent | Found(txid: Txid, status: ExchangeStatus, executed: Execution)

  function MapOrderStatus(raw: string): ExchangeStatus {
    if raw == "pending" then Waiting
    else if raw == "open" then Open
    else if raw == "closed" then Closed
    else if raw == "canceled" || raw == "expired" then Canceled
    else Unknown
  }

  /** No longer on the book. */
  predicate Finished(status: ExchangeStatus) {
    status == Closed || status == Canceled
  }

  function Read(order: Listing): Lookup {
    Found(order.txid, MapOrderStatus(order.word), order.executed)
  }

  /** The row at `i` is the first that echoes the id. */
  predicate IsFirstMatch(orders: seq<Listing>, id: ClOrdId, i: int) {
    0 <= i < |orders| && orders[i].clOrdId == Some(id) && forall j :: 0 <= j < i ==> orders[j].clOrdId != Some(id)
  }

  /** `None` exactly when no row carries the id; else the reading of the one that comes first. */
  function Match(orders: seq<Listing>, id: ClOrdId): (found: Option<Lookup>)
    ensures found.None? <==> forall order :: order in orders ==> order.clOrdId != Some(id)
    ensures found.Some? ==> exists i :: IsFirstMatch(orders, id, i) && found.value == Read(orders[i])
  {
    if orders == [] then None
    else if orders[0].clOrdId == Some(id) then
      assert IsFirstMatch(orders, id, 0);
      Some(Read(orders[0]))
    else
      var rest := Match(orders[1..], id);
      assert rest.Some? ==> exists i :: IsFirstMatch(orders, id, i) && rest.value == Read(orders[i]) by {
        if rest.Some? {
          var i :| IsFirstMatch(orders[1..], id, i) && rest.value == Read(orders[1..][i]);
          assert forall j :: 1 <= j < i + 1 ==> orders[j] == orders[1..][j - 1];
          assert IsFirstMatch(orders, id, i + 1);
        }
      }
      rest
  }

  /** The order of a txid: `None` unless the answer has it, and so never `Absent`. */
  function FindByTxid(orders: Option<map<Txid, Listing>>, txid: Txid): (found: Option<Lookup>)
    ensures found.Some? <==> orders.Some? && txid in orders.value
    ensures found.Some? && orders.value[txid].txid == txid ==> found.value == Read(orders.value[txid])
  {
    if orders.None? || txid !in orders.value then None
    else Some(Found(txid, MapOrderStatus(orders.value[txid].word), orders.value[txid].executed))
  }

  const DEFINITIVE_REFUSALS: seq<string> := [
    "EOrder:",
    "EGeneral:Invalid arguments",
    "EGeneral:Permission denied",
    "EAPI:",
    "EService:Market in cancel_only mode",
    "EService:Market in post_only mode",
    "EService:Market in limit_only mode"
  ]

  predicate StartsWithAny(text: string, prefixes: seq<string>) {
    exists i :: 0 <= i < |prefixes| && prefixes[i] <= text
  }

  predicate IsDefinitiveRefusal(codes: seq<string>) {
    codes != [] && forall i :: 0 <= i < |codes| ==> StartsWithAny(codes[i], DEFINITIVE_REFUSALS)
  }

  /** What the transport brought back from one `AddOrder` call. */
  datatype Answer =
    | Txids(txids: seq<Txid>)
    | Errors(codes: seq<string>)
    | NothingReadable   // whatever kept an answer from arriving
    | NeverSigned       // the secret does not decode: the request was not sent

  datatype Placement = Sent(txid: Txid) | Refused | Lost

  /** The reading of exchange/client.py: in doubt, the answer is lost. */
  function Outcome(answer: Answer): Placement {
    match answer
    case Txids(txids) => if txids == [] then Lost else Sent(txids[0])
    case Errors(codes) => if IsDefinitiveRefusal(codes) then Refused else Lost
    case NothingReadable => Lost
    case NeverSigned => Refused
  }

  /** Only an order Kraken calls closed, canceled or expired is off the book. Any word not known is not. */
  lemma FinishedExactlyWhen(raw: string)
    ensures Finished(MapOrderStatus(raw)) <==> raw in ["closed", "canceled", "expired"]
  {
  }

  /** In doubt, the answer is lost: it is a refusal only if nothing was sent, or if there are codes and each
      says the order was not accepted. */
  lemma RefusedExactlyWhen(answer: Answer)
    ensures Outcome(answer) == Refused <==>
      answer.NeverSigned?
      || (&& answer.Errors? && answer.codes != []
          && forall code :: code in answer.codes ==> StartsWithAny(code, DEFINITIVE_REFUSALS))
    ensures Outcome(answer).Sent? <==> answer.Txids? && answer.txids != []
    ensures Outcome(answer).Sent? ==> Outcome(answer).txid == answer.txids[0]
  {
    hide StartsWithAny;
    if answer.Errors? {
      var codes := answer.codes;
      assert forall code :: code in codes <==> exists i :: 0 <= i < |codes| && codes[i] == code;
    }
  }

  /** The definitive codes: the order errors, the key errors, two of the general ones and the three halted modes. */
  lemma DefinitiveExactlyWhen(code: string)
    ensures StartsWithAny(code, DEFINITIVE_REFUSALS) <==>
      || "EOrder:" <= code || "EAPI:" <= code
      || "EGeneral:Invalid arguments" <= code || "EGeneral:Permission denied" <= code
      || "EService:Market in cancel_only mode" <= code || "EService:Market in post_only mode" <= code
      || "EService:Market in limit_only mode" <= code
  {
    var all := DEFINITIVE_REFUSALS;
    assert all[0] == "EOrder:" && all[1] == "EGeneral:Invalid arguments" && all[2] == "EGeneral:Permission denied";
    assert all[3] == "EAPI:" && all[4] == "EService:Market in cancel_only mode";
    assert all[5] == "EService:Market in post_only mode" && all[6] == "EService:Market in limit_only mode";
  }

  /** One code that is not a definitive refusal puts any answer in doubt. */
  lemma OneDoubtIsEnough(codes: seq<string>, doubt: string, more: seq<string>)
    requires !StartsWithAny(doubt, DEFINITIVE_REFUSALS)
    ensures Outcome(Errors(codes + [doubt] + more)) == Lost
  {
    hide StartsWithAny;
    assert (codes + [doubt] + more)[|codes|] == doubt;
  }
}
