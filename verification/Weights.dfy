/** Target weights: the order the form saves them in (web/src/lib/portfolio.ts) against the limit the server
    keeps (api/routes/assets.py). */
module Weights {
  import opened Wrappers
  import opened Sequences
  import opened Sums
  import opened Precision

  const HUNDRED: real := 100.0

  // ----- Sums over all keys -----------------------------------------------------------------

  /** The sum of a mapping's values. */
  ghost function Total(m: map<Asset, real>): real
    decreases m.Keys
  {
    if m == map[] then 0.0
    else
      var a :| a in m;
      m[a] + Total(m - {a})
  }

  lemma {:induction false} TotalWithout(m: map<Asset, real>, a: Asset)
    requires a in m
    ensures Total(m) == m[a] + Total(m - {a})
    decreases m.Keys
  {
    var b :| b in m && Total(m) == m[b] + Total(m - {b});
    if a != b {
      TotalWithout(m - {b}, a);
      TotalWithout(m - {a}, b);
      assert m - {b} - {a} == m - {a} - {b};
    }
  }

  lemma TotalUpdated(m: map<Asset, real>, a: Asset, x: real)
    ensures Total(m[a := x]) == x + Total(m - {a}) == Total(m) - Get(m, a) + x
  {
    hide Total;
    TotalWithout(m[a := x], a);
    assert m[a := x] - {a} == m - {a};
    if a in m { TotalWithout(m, a); } else { assert m - {a} == m; }
  }

  // ----- The server ----------------------------------------------------------------------

  datatype PutAnswer = Saved | InvalidTarget | OverLimit

  predicate IsTarget(x: real) {
    0.0 <= x <= HUNDRED
  }

  function Only(m: map<Asset, real>, ids: set<Asset>): map<Asset, real> {
    map a | a in m && a in ids :: m[a]
  }

  /** The loop behind a sum of rows. */
  method SumOf(m: map<Asset, real>) returns (sum: real)
    ensures sum == Total(m)
  {
    hide Total;
    sum := 0.0;
    var rest := m.Keys;
    assert Only(m, rest) == m;
    while rest != {}
      invariant rest <= m.Keys && sum + Total(Only(m, rest)) == Total(m)
      decreases rest
    {
      var a :| a in rest;
      TotalWithout(Only(m, rest), a);
      assert Only(m, rest) - {a} == Only(m, rest - {a});
      sum := sum + m[a];
      rest := rest - {a};
    }
    assert Only(m, rest) == map[];
    TotalOfNone();
  }

  lemma TotalOfNone()
    ensures Total(map[]) == 0.0
  {
  }

  class WeightTable {
    var weights: map<Asset, real>

    constructor ()
      ensures Valid() && weights == map[]
    {
      weights := map[];
    }

    ghost predicate Valid()
      reads this
    {
      (forall a :: a in weights ==> IsTarget(weights[a])) && Total(weights) <= HUNDRED
    }

    method PutAsset(code: Asset, target: real) returns (answer: PutAnswer)
      requires Valid()
      modifies this
      ensures Valid()
      ensures answer ==
        if !IsTarget(target) then InvalidTarget
        else if Total(old(weights)[code := target]) > HUNDRED then OverLimit
        else Saved
      ensures weights == if answer == Saved then old(weights)[code := target] else old(weights)
    {
      hide Total;
      if target < 0.0 || target > HUNDRED {
        return InvalidTarget;
      }
      var rows := map a | a in weights && a != code :: weights[a];
      assert rows == weights - {code};
      var others := SumOf(rows);
      TotalUpdated(weights, code, target);
      if others + target > HUNDRED {
        return OverLimit;
      }
      weights := weights[code := target];
      return Saved;
    }

    method DeleteAsset(code: Asset) returns (found: bool)
      requires Valid()
      modifies this
      ensures Valid()
      ensures found == (code in old(weights)) && weights == old(weights) - {code}
    {
      hide Total;
      if code !in weights {
        assert weights == weights - {code};
        return false;
      }
      TotalWithout(weights, code);
      weights := weights - {code};
      return true;
    }
  }

  // ----- The order of the writes --------------------------------------------------------------

  datatype Put = Put(asset: Asset, target: real, change: real)

  function PutFor(stored: map<Asset, real>, wanted: map<Asset, real>, a: Asset): Put
    requires a in wanted
  {
    Put(a, wanted[a], wanted[a] - Get(stored, a))
  }

  predicate NeedsWrite(stored: map<Asset, real>, wanted: map<Asset, real>, a: Asset)
    requires a in wanted
  {
    a !in stored || wanted[a] != stored[a]
  }

  predicate Sooner(p: Put, q: Put) {
    p.change < q.change || (p.change == q.change && p.asset < q.asset)
  }

  ghost predicate Sorted(puts: seq<Put>) {
    forall i, j :: 0 <= i < j < |puts| ==> Sooner(puts[i], puts[j])
  }

  ghost predicate OneEach(puts: seq<Put>) {
    forall i, j :: 0 <= i < j < |puts| ==> puts[i].asset != puts[j].asset
  }

  /** Deletes of what is no longer wanted, then the writes that change something, the largest decrease first. */
  ghost predicate IsSaveOrder(stored: map<Asset, real>, wanted: map<Asset, real>, deletes: seq<Asset>, puts: seq<Put>) {
    && NoRepeats(deletes) && (forall a :: a in deletes <==> a in stored && a !in wanted)
    && OneEach(puts) && Sorted(puts)
    && (forall p :: p in puts ==>
        p.asset in wanted && NeedsWrite(stored, wanted, p.asset) && p == PutFor(stored, wanted, p.asset))
    && (forall a :: a in wanted && NeedsWrite(stored, wanted, a) ==> PutFor(stored, wanted, a) in puts)
  }

  method Insert(puts: seq<Put>, p: Put) returns (inserted: seq<Put>)
    requires Sorted(puts) && forall i :: 0 <= i < |puts| ==> puts[i].asset != p.asset
    ensures Sorted(inserted)
    ensures forall x :: x in inserted <==> x in puts || x == p
  {
    var i := 0;
    while i < |puts| && Sooner(puts[i], p)
      invariant 0 <= i <= |puts|
      invariant forall j :: 0 <= j < i ==> Sooner(puts[j], p)
    {
      i := i + 1;
    }
    inserted := puts[..i] + [p] + puts[i..];
    assert puts == puts[..i] + puts[i..];
    assert forall j :: i <= j < |puts| ==> Sooner(p, puts[j]);
  }

  method SaveOrder(stored: map<Asset, real>, wanted: map<Asset, real>) returns (deletes: seq<Asset>, puts: seq<Put>)
    ensures IsSaveOrder(stored, wanted, deletes, puts)
  {
    deletes := [];
    var gone := stored.Keys - wanted.Keys;
    while gone != {}
      invariant NoRepeats(deletes) && forall a :: a in deletes ==> a !in gone
      invariant forall a :: a in deletes || a in gone <==> a in stored && a !in wanted
      decreases gone
    {
      var a :| a in gone;
      deletes := deletes + [a];
      gone := gone - {a};
    }
    puts := [];
    var rest := wanted.Keys;
    while rest != {}
      invariant rest <= wanted.Keys && Sorted(puts)
      invariant forall p :: p in puts ==>
        p.asset in wanted && p.asset !in rest && NeedsWrite(stored, wanted, p.asset)
          && p == PutFor(stored, wanted, p.asset)
      invariant forall a :: a in wanted && a !in rest && NeedsWrite(stored, wanted, a) ==>
        PutFor(stored, wanted, a) in puts
      decreases rest
    {
      var a :| a in rest;
      var change := wanted[a] - (if a in stored then stored[a] else 0.0);
      if a !in stored || change != 0.0 {
        puts := Insert(puts, Put(a, wanted[a], change));
      }
      rest := rest - {a};
    }
    forall i, j | 0 <= i < j < |puts| ensures puts[i].asset != puts[j].asset {
      assert Sooner(puts[i], puts[j]) && puts[i] in puts && puts[j] in puts;
    }
  }

  // ----- Why no write is refused ---------------------------------------------------------------

  function Changes(puts: seq<Put>): real {
    if puts == [] then 0.0 else Changes(puts[..|puts| - 1]) + puts[|puts| - 1].change
  }

  /** The weights after the writes in turn. */
  function Written(start: map<Asset, real>, puts: seq<Put>): map<Asset, real> {
    if puts == [] then start
    else Written(start, puts[..|puts| - 1])[puts[|puts| - 1].asset := puts[|puts| - 1].target]
  }

  lemma {:induction false} Falling(puts: seq<Put>)
    requires forall i :: 0 <= i < |puts| ==> puts[i].change <= 0.0
    ensures Changes(puts) <= 0.0
  {
    if puts != [] { Falling(puts[..|puts| - 1]); }
  }

  lemma {:induction false} Rising(puts: seq<Put>, k: nat)
    requires k <= |puts| && forall i :: k <= i < |puts| ==> puts[i].change >= 0.0
    ensures Changes(puts[..k]) <= Changes(puts)
  {
    if k < |puts| {
      var front := puts[..|puts| - 1];
      Rising(front, k);
      assert front[..k] == puts[..k];
    } else {
      assert puts[..k] == puts;
    }
  }

  /** Sorted by change, the sum on the way is never above both ends. */
  lemma NeverAboveBothEnds(puts: seq<Put>, k: nat)
    requires Sorted(puts) && k <= |puts|
    ensures Changes(puts[..k]) <= 0.0 || Changes(puts[..k]) <= Changes(puts)
  {
    if k > 0 && puts[k - 1].change <= 0.0 {
      Falling(puts[..k]);
    } else if k > 0 {
      Rising(puts, k);
    }
  }

  lemma {:induction false} WrittenAt(start: map<Asset, real>, puts: seq<Put>, a: Asset)
    requires OneEach(puts)
    ensures a in Written(start, puts) <==> a in start || exists i :: 0 <= i < |puts| && puts[i].asset == a
    ensures (forall i :: 0 <= i < |puts| ==> puts[i].asset != a) ==> Get(Written(start, puts), a) == Get(start, a)
    ensures forall i :: 0 <= i < |puts| && puts[i].asset == a ==> Get(Written(start, puts), a) == puts[i].target
  {
    if puts != [] { WrittenAt(start, puts[..|puts| - 1], a); }
  }

  ghost predicate ChangesFrom(start: map<Asset, real>, puts: seq<Put>) {
    forall i :: 0 <= i < |puts| ==> puts[i].change == puts[i].target - Get(start, puts[i].asset)
  }

  lemma {:induction false} WrittenTotal(start: map<Asset, real>, puts: seq<Put>)
    requires OneEach(puts) && ChangesFrom(start, puts)
    ensures Total(Written(start, puts)) == Total(start) + Changes(puts)
  {
    hide Total;
    if puts != [] {
      var front, last := puts[..|puts| - 1], puts[|puts| - 1];
      WrittenTotal(start, front);
      WrittenAt(start, front, last.asset);
      TotalUpdated(Written(start, front), last.asset, last.target);
    }
  }

  function WithoutDeleted(stored: map<Asset, real>, wanted: map<Asset, real>): map<Asset, real> {
    map a | a in stored && a in wanted :: stored[a]
  }

  /** At every step of the save the weights sum to the limit at most, and the last step leaves what was wanted. */
  lemma NoWriteIsRefused(
      stored: map<Asset, real>, wanted: map<Asset, real>, deletes: seq<Asset>, puts: seq<Put>, k: nat)
    requires IsSaveOrder(stored, wanted, deletes, puts) && k <= |puts|
    requires Total(WithoutDeleted(stored, wanted)) <= HUNDRED && Total(wanted) <= HUNDRED
    ensures Total(Written(WithoutDeleted(stored, wanted), puts[..k])) <= HUNDRED
    ensures Written(WithoutDeleted(stored, wanted), puts) == wanted
  {
    hide Total, Changes, Written;
    var start := WithoutDeleted(stored, wanted);
    assert forall i :: 0 <= i < |puts| ==> puts[i] in puts;
    forall a ensures a in Written(start, puts) <==> a in wanted
      ensures a in wanted ==> Written(start, puts)[a] == wanted[a]
    {
      WrittenAt(start, puts, a);
      if a in wanted && NeedsWrite(stored, wanted, a) {
        assert PutFor(stored, wanted, a) in puts;
      }
    }
    assert Written(start, puts) == wanted;
    WrittenTotal(start, puts);
    WrittenTotal(start, puts[..k]);
    NeverAboveBothEnds(puts, k);
  }

  /** The form's save: refused up front with nothing managed or with targets above the limit, complete otherwise. */
  method Save(table: WeightTable, wanted: map<Asset, real>) returns (saved: bool)
    requires table.Valid() && forall a :: a in wanted ==> IsTarget(wanted[a])
    modifies table
    ensures table.Valid()
    ensures saved <==> wanted != map[] && Total(wanted) <= HUNDRED
    ensures table.weights == if saved then wanted else old(table.weights)
  {
    hide Total, Written, Changes;
    if |wanted| == 0 {
      return false;
    }
    var sum := SumOf(wanted);
    if HUNDRED - sum < 0.0 {
      return false;
    }
    var stored := table.weights;
    var deletes, puts := SaveOrder(stored, wanted);
    for i := 0 to |deletes|
      invariant table.Valid()
      invariant table.weights == stored - (set a | a in deletes[..i])
    {
      var found := table.DeleteAsset(deletes[i]);
      assert deletes[i] in deletes;
      assert found;
    }
    ghost var start := WithoutDeleted(stored, wanted);
    assert deletes[..|deletes|] == deletes;
    assert table.weights == start;
    assert Written(start, puts[..0]) == start by { WrittenNone(start); }
    for k := 0 to |puts|
      invariant table.Valid() && table.weights == Written(start, puts[..k])
    {
      NoWriteIsRefused(stored, wanted, deletes, puts, k + 1);
      WrittenNext(start, puts, k);
      assert puts[k] in puts;
      var answer := table.PutAsset(puts[k].asset, puts[k].target);
      assert answer == PutAnswer.Saved;
    }
    NoWriteIsRefused(stored, wanted, deletes, puts, |puts|);
    assert puts[..|puts|] == puts;
    return true;
  }

  lemma WrittenNone(start: map<Asset, real>)
    ensures Written(start, []) == start
  {
  }

  lemma WrittenNext(start: map<Asset, real>, puts: seq<Put>, k: nat)
    requires k < |puts|
    ensures Written(start, puts[..k + 1]) == Written(start, puts[..k])[puts[k].asset := puts[k].target]
  {
    assert puts[..k + 1][..k] == puts[..k];
  }

  // ----- The form's first proposal ---------------------------------------------------------------

  datatype Holding = Holding(asset: Asset, value: Option<real>, locked: bool)
  datatype Worth = Worth(asset: Asset, value: real)

  /** The holdings with a price and not locked. */
  function Priced(holdings: seq<Holding>): seq<Worth> {
    if holdings == [] then []
    else
      var last := holdings[|holdings| - 1];
      Priced(holdings[..|holdings| - 1]) + if !last.locked && last.value.Some?
        then [Worth(last.asset, last.value.value)] else []
  }

  /** A holding with a price, not locked, of this asset and value. */
  ghost predicate Offers(holdings: seq<Holding>, a: Asset, value: real) {
    exists i :: 0 <= i < |holdings| && holdings[i] == Holding(a, Some(value), false)
  }

  lemma OffersOneMore(holdings: seq<Holding>, a: Asset, value: real)
    requires holdings != []
    ensures
      var last := |holdings| - 1;
      Offers(holdings, a, value) <==>
        Offers(holdings[..last], a, value) || holdings[last] == Holding(a, Some(value), false)
  {
    var last := |holdings| - 1;
    if i :| 0 <= i < last && holdings[..last][i] == Holding(a, Some(value), false) {
      assert holdings[i] == holdings[..last][i];
    }
    if i :| 0 <= i < last && holdings[i] == Holding(a, Some(value), false) {
      assert holdings[..last][i] == holdings[i];
    }
  }

  lemma {:induction false} PricedExactly(holdings: seq<Holding>, w: Worth)
    ensures w in Priced(holdings) <==> Offers(holdings, w.asset, w.value)
  {
    if holdings != [] {
      hide Offers;
      PricedExactly(holdings[..|holdings| - 1], w);
      OffersOneMore(holdings, w.asset, w.value);
    }
  }

  function Values(priced: seq<Worth>): real {
    if priced == [] then 0.0 else Values(priced[..|priced| - 1]) + priced[|priced| - 1].value
  }

  /** One holding's weight: its share, rounded down to one decimal. */
  function Share(value: real, total: real): real {
    if total == 0.0 then 0.0 else RoundDown(value * HUNDRED / total, 1)
  }

  lemma ShareFits(value: real, total: real)
    requires 0.0 <= value <= total
    ensures 0.0 <= Share(value, total) && Share(value, total) * total <= HUNDRED * value
    ensures total > 0.0 ==>
      OnGrid(Share(value, total), 1) && HUNDRED * value < (Share(value, total) + Quantum(1)) * total
  {
    hide RoundDown, OnGrid, Quantum;
    if total > 0.0 {
      var share := value * HUNDRED / total;
      assert share * total == value * HUNDRED;
      assert share >= 0.0;
      RoundDownIsGreatest(share, 1);
      assert RoundDown(share, 1) * total <= share * total < (RoundDown(share, 1) + Quantum(1)) * total;
    }
  }

  lemma {:induction false} ValuesGrow(priced: seq<Worth>, i: nat)
    requires i <= |priced| && forall j :: 0 <= j < |priced| ==> priced[j].value >= 0.0
    ensures 0.0 <= Values(priced[..i]) <= Values(priced)
    decreases |priced|
  {
    if i < |priced| {
      var front := priced[..|priced| - 1];
      assert front[..i] == priced[..i];
      ValuesGrow(front, i);
    } else if i > 0 {
      assert priced[..i] == priced;
      ValuesGrow(priced[..i - 1], i - 1);
    }
  }

  lemma ValuesNext(priced: seq<Worth>, i: nat)
    requires i < |priced|
    ensures Values(priced[..i + 1]) == Values(priced[..i]) + priced[i].value
  {
    assert priced[..i + 1][..i] == priced[..i];
  }

  /** One of the first `n` holdings is of the asset and has this share. */
  ghost predicate HasShare(priced: seq<Worth>, n: nat, a: Asset, weight: real, total: real)
    requires n <= |priced|
  {
    exists j :: 0 <= j < n && priced[j].asset == a && weight == Share(priced[j].value, total)
  }

  lemma StillHasShare(priced: seq<Worth>, n: nat, weights: map<Asset, real>, total: real)
    requires n < |priced| && forall a :: a in weights ==> HasShare(priced, n, a, weights[a], total)
    ensures forall a :: a in weights ==> HasShare(priced, n + 1, a, weights[a], total)
    ensures HasShare(priced, n + 1, priced[n].asset, Share(priced[n].value, total), total)
  {
    hide Share;
    forall a | a in weights ensures HasShare(priced, n + 1, a, weights[a], total) {
      var j :| 0 <= j < n && priced[j].asset == a && weights[a] == Share(priced[j].value, total);
      assert j < n + 1;
    }
  }

  /** Every priced, unlocked holding's share of the cash and those values, and no other's. The weights leave the
      cash its own share at least, and so never sum above the limit. */
  method PrefillWeights(cash: real, holdings: seq<Holding>) returns (weights: map<Asset, real>)
    requires cash >= 0.0 && forall j :: 0 <= j < |Priced(holdings)| ==> Priced(holdings)[j].value >= 0.0
    ensures forall a :: a in weights <==> exists value :: Offers(holdings, a, value)
    ensures
      var priced, total := Priced(holdings), cash + Values(Priced(holdings));
      && (forall a :: a in weights ==> HasShare(priced, |priced|, a, weights[a], total))
      && Total(weights) * total <= HUNDRED * (total - cash)
      && Total(weights) <= HUNDRED
  {
    hide Total, Share, Values, HasShare;
    var priced := [];
    for i := 0 to |holdings|
      invariant priced == Priced(holdings[..i])
    {
      assert holdings[..i + 1][..i] == holdings[..i];
      if !holdings[i].locked && holdings[i].value.Some? {
        priced := priced + [Worth(holdings[i].asset, holdings[i].value.value)];
      }
    }
    assert holdings[..|holdings|] == holdings;
    weights := FillWeights(cash, priced);
    forall a ensures a in weights <==> exists value :: Offers(holdings, a, value) {
      WeighedAreOffered(holdings, weights, cash + Values(priced), a);
    }
  }

  lemma WeighedAreOffered(holdings: seq<Holding>, weights: map<Asset, real>, total: real, a: Asset)
    requires forall j :: 0 <= j < |Priced(holdings)| ==> Priced(holdings)[j].asset in weights
    requires forall b :: b in weights ==> HasShare(Priced(holdings), |Priced(holdings)|, b, weights[b], total)
    ensures a in weights <==> exists value :: Offers(holdings, a, value)
  {
    hide Share, Offers, Priced;
    if a in weights {
      var j :| 0 <= j < |Priced(holdings)| && Priced(holdings)[j].asset == a;
      PricedExactly(holdings, Priced(holdings)[j]);
    }
    if value :| Offers(holdings, a, value) { PricedExactly(holdings, Worth(a, value)); }
  }

  method FillWeights(cash: real, priced: seq<Worth>) returns (weights: map<Asset, real>)
    requires cash >= 0.0 && forall j :: 0 <= j < |priced| ==> priced[j].value >= 0.0
    ensures forall j :: 0 <= j < |priced| ==> priced[j].asset in weights
    ensures
      var total := cash + Values(priced);
      && (forall a :: a in weights ==> HasShare(priced, |priced|, a, weights[a], total))
      && Total(weights) * total <= HUNDRED * (total - cash)
      && Total(weights) <= HUNDRED
  {
    hide Total, Share, Values, HasShare, Scarce;
    var total := cash + Values(priced);
    weights := map[];
    ScarceNone(total);
    assert Values(priced[..0]) == 0.0 by { ValuesNone(); }
    for i := 0 to |priced|
      invariant forall j :: 0 <= j < i ==> priced[j].asset in weights
      invariant forall a :: a in weights ==> HasShare(priced, i, a, weights[a], total)
      invariant forall a :: a in weights ==> weights[a] >= 0.0
      invariant Scarce(Total(weights), total, Values(priced[..i]))
    {
      var asset, value := priced[i].asset, priced[i].value;
      ValuesNext(priced, i);
      ValuesGrow(priced, i);
      ValuesGrow(priced, i + 1);
      StillHasShare(priced, i, weights, total);
      var weight := if total == 0.0 then 0.0 else RoundDown(value * HUNDRED / total, 1);
      assert weight == Share(value, total) by { ShareIs(value, total); }
      ShareFits(value, total);
      TotalUpdated(weights, asset, weight);
      ScarceAdded(Total(weights), weight, Get(weights, asset), total, Values(priced[..i]), value);
      weights := weights[asset := weight];
    }
    assert priced[..|priced|] == priced;
    ValuesGrow(priced, |priced|);
    ScarceWhole(Total(weights), total, Values(priced), cash);
  }

  lemma ValuesNone()
    ensures Values([]) == 0.0
  {
  }

  lemma ScarceNone(total: real)
    ensures Scarce(Total(map[]), total, 0.0)
  {
  }

  lemma ShareIs(value: real, total: real)
    ensures Share(value, total) == if total == 0.0 then 0.0 else RoundDown(value * HUNDRED / total, 1)
  {
  }

  /** Weights of holdings worth `value` out of `total` take no more than their share, and nothing of nothing. */
  ghost predicate Scarce(weights: real, total: real, value: real) {
    weights * total <= HUNDRED * value && (total == 0.0 ==> weights <= 0.0)
  }

  lemma ScarceAdded(weights: real, weight: real, replaced: real, total: real, before: real, value: real)
    requires Scarce(weights, total, before) && total >= 0.0 && replaced >= 0.0
    requires weight * total <= HUNDRED * value && (total == 0.0 ==> weight == 0.0)
    ensures Scarce(weights - replaced + weight, total, before + value)
  {
    assert (weights - replaced + weight) * total == weights * total - replaced * total + weight * total;
  }

  lemma ScarceWhole(weights: real, total: real, value: real, cash: real)
    requires Scarce(weights, total, value) && total == cash + value && cash >= 0.0 && value >= 0.0
    ensures weights * total <= HUNDRED * (total - cash) && weights <= HUNDRED
  {
    if total > 0.0 {
      assert (HUNDRED - weights) * total >= 0.0;
    }
  }
}
