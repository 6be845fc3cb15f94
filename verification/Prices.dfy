/**
 Historical prices: merging transactions with quotes by time.
 */
module Prices {

  const U32_MAX: nat := 0xFFFF_FFFF

  datatype TxUsd = TxUsd(id: nat, time: nat, price: real)
  datatype PriceQuote = PriceQuote(time: nat, price: real)

  function Later(a: nat, b: nat): nat { if a > b then a else b }

  /** The first quote after time `t`, from index `from` on; their number if none is. */
  function FirstAfter(pqs: seq<PriceQuote>, t: nat, from: nat): (i: nat)
    requires from <= |pqs|
    ensures from <= i <= |pqs| && (i < |pqs| ==> pqs[i].time > t) && forall j | from <= j < i :: pqs[j].time <= t
    decreases |pqs| - from
  {
    if from == |pqs| || pqs[from].time > t then from else FirstAfter(pqs, t, from + 1)
  }

  /** The latest time among the transactions up to and including `k`. */
  function LatestUpTo(txs: seq<TxUsd>, k: nat): nat
    requires k < |txs|
  {
    if k == 0 then txs[0].time else Later(LatestUpTo(txs, k - 1), txs[k].time)
  }

  function QuoteFor(pqs: seq<PriceQuote>, t: nat): real
    requires pqs != []
  {
    var i := FirstAfter(pqs, t, 0);
    pqs[if i == 0 then 0 else i - 1].price
  }

  lemma FirstAfterUnique(pqs: seq<PriceQuote>, t: nat, i: nat)
    requires i <= |pqs| && (i < |pqs| ==> pqs[i].time > t) && forall j | 0 <= j < i :: pqs[j].time <= t
    ensures FirstAfter(pqs, t, 0) == i
  {
  }

  /**
   The inner loop: past every quote at or before `t`. The slot behind the last quote
   counts as the largest time, so only that very time runs off the end.
   */
  method SkipQuotes(pqs: seq<PriceQuote>, start: nat, t: nat) returns (ok: bool, i: nat)
    requires start <= |pqs| && t <= U32_MAX && forall j | 0 <= j < |pqs| :: pqs[j].time <= U32_MAX
    ensures ok <==> t < U32_MAX
    ensures ok ==> i == FirstAfter(pqs, t, start)
  {
    i := start;
    while true
      invariant start <= i <= |pqs| && FirstAfter(pqs, t, start) == FirstAfter(pqs, t, i)
      decreases |pqs| - i
    {
      var time := if i == |pqs| then U32_MAX else pqs[i].time;
      if time > t {
        return true, i;
      }
      if i == |pqs| {
        // The index moves past the end and the next look-up is out of bounds.
        return false, i;
      }
      i := i + 1;
    }
  }

  /** Starting from where the running latest time left off is as good as starting over. */
  lemma Resume(pqs: seq<PriceQuote>, latest: nat, t: nat)
    ensures FirstAfter(pqs, t, FirstAfter(pqs, latest, 0)) == FirstAfter(pqs, Later(latest, t), 0)
  {
    var s := FirstAfter(pqs, latest, 0);
    FirstAfterUnique(pqs, Later(latest, t), FirstAfter(pqs, t, s));
  }

  function Priced(txs: seq<TxUsd>, pqs: seq<PriceQuote>, k: nat): TxUsd
    requires k < |txs| && pqs != []
  {
    txs[k].(price := QuoteFor(pqs, LatestUpTo(txs, k)))
  }

  /** Where the quote pointer stands after `k` transactions. */
  function Reached(txs: seq<TxUsd>, pqs: seq<PriceQuote>, k: nat): (i: nat)
    requires k <= |txs|
    ensures i <= |pqs|
  {
    if k == 0 then 0 else FirstAfter(pqs, LatestUpTo(txs, k - 1), 0)
  }

  lemma ReachedStep(txs: seq<TxUsd>, pqs: seq<PriceQuote>, k: nat)
    requires k < |txs| && pqs != []
    ensures FirstAfter(pqs, txs[k].time, Reached(txs, pqs, k)) == Reached(txs, pqs, k + 1)
    ensures var i := Reached(txs, pqs, k + 1);
            Priced(txs, pqs, k) == txs[k].(price := pqs[if i == 0 then 0 else i - 1].price)
  {
    if k > 0 {
      Resume(pqs, LatestUpTo(txs, k - 1), txs[k].time);
    }
  }

  method FillHistoricalPrices(txs: array<TxUsd>, pqs: seq<PriceQuote>) returns (ok: bool)
    requires forall k | 0 <= k < txs.Length :: txs[k].time <= U32_MAX
    requires forall j | 0 <= j < |pqs| :: pqs[j].time <= U32_MAX
    modifies txs
    ensures ok <==> pqs != [] && forall k | 0 <= k < txs.Length :: old(txs[k].time) < U32_MAX
    ensures ok ==> forall k | 0 <= k < txs.Length :: txs[k] == Priced(old(txs[..]), pqs, k)
  {
    if pqs == [] {
      return false;
    }
    hide *;
    ghost var before := txs[..];
    assert Reached(before, pqs, 0) == 0 by { NothingReached(before, pqs); }
    var i := 0;
    for k := 0 to txs.Length
      invariant forall m | k <= m < txs.Length :: txs[m] == before[m]
      invariant forall m | 0 <= m < k :: before[m].time < U32_MAX && txs[m] == Priced(before, pqs, m)
      invariant i == Reached(before, pqs, k)
    {
      var found;
      found, i := SkipQuotes(pqs, i, txs[k].time);
      if !found {
        return false;
      }
      ReachedStep(before, pqs, k);
      var pq := if i == 0 then pqs[0] else pqs[i - 1];
      txs[k] := txs[k].(price := pq.price);
    }
    return true;
  }

  lemma NothingReached(txs: seq<TxUsd>, pqs: seq<PriceQuote>)
    ensures Reached(txs, pqs, 0) == 0
  {
  }

  ghost predicate QuotesSorted(pqs: seq<PriceQuote>) { forall i, j | 0 <= i < j < |pqs| :: pqs[i].time <= pqs[j].time }

  ghost predicate TxsSorted(txs: seq<TxUsd>) { forall i, j | 0 <= i < j < |txs| :: txs[i].time <= txs[j].time }

  /** For quotes in time order, the last one at or before the time, or the first when none is. */
  lemma QuoteIsLastBefore(pqs: seq<PriceQuote>, t: nat) returns (i: nat)
    requires pqs != [] && QuotesSorted(pqs)
    ensures i < |pqs| && QuoteFor(pqs, t) == pqs[i].price
    ensures if pqs[0].time > t then i == 0 else pqs[i].time <= t && forall j | i < j < |pqs| :: pqs[j].time > t
  {
    var f := FirstAfter(pqs, t, 0);
    i := if f == 0 then 0 else f - 1;
  }

  lemma {:induction false} LatestIs(txs: seq<TxUsd>, k: nat)
    requires k < |txs|
    ensures forall j | 0 <= j <= k :: txs[j].time <= LatestUpTo(txs, k)
    ensures exists j :: 0 <= j <= k && txs[j].time == LatestUpTo(txs, k)
  {
    if k == 0 {
      assert txs[0].time == LatestUpTo(txs, k);
    } else {
      LatestIs(txs, k - 1);
      var j :| 0 <= j <= k - 1 && txs[j].time == LatestUpTo(txs, k - 1);
      assert txs[j].time == LatestUpTo(txs, k) || txs[k].time == LatestUpTo(txs, k);
    }
  }

  /** For transactions in time order, each is priced at its own time. */
  lemma {:induction false} SortedLatest(txs: seq<TxUsd>, k: nat)
    requires TxsSorted(txs) && k < |txs|
    ensures LatestUpTo(txs, k) == txs[k].time
  {
    if k > 0 {
      SortedLatest(txs, k - 1);
    }
  }
}
