/**
 * Turning the aggregate dictionary into ranked trading opportunities: keep
 * two-sided items, compute the fee-adjusted margin, keep the items above the
 * margin and volume thresholds, and rank them by expected total profit.
 */
module Opportunities {
  import opened Options
  import opened Aggregation
  import opened Ranking

  /** Fraction of the sell price lost to fees (3.7%). */
  const FeeRate: real := 0.037
  /** An item is kept only when its rounded margin, in percent, exceeds this. */
  const MinMarginPercent: real := 1.0
  /** An item is kept only when its sell volume exceeds this. */
  const MinVolume: int := 50
  /** At most this many opportunities are returned. */
  const TopCount: nat := 50

  datatype Opportunity = Opportunity(
    typeId: int,
    itemName: string,
    buyPrice: real,
    sellPrice: real,
    netSellPrice: real,
    volume: int,
    profitPerUnit: real,
    marginPercent: real)

  /**
   * Rounding to two decimal places, halves to the even neighbour, over exact
   * reals. The result is within half a cent of `x` and a whole number of cents.
   */
  function Round2(x: real): (r: real)
    ensures -0.005 <= r - x <= 0.005
    ensures (r * 100.0).Floor as real == r * 100.0
  {
    var y := x * 100.0;
    var f := y.Floor;
    var d := y - f as real;
    var n := if d < 0.5 then f else if d > 0.5 then f + 1 else if f % 2 == 0 then f else f + 1;
    n as real / 100.0
  }

  /** The sell price after fees. */
  function NetSell(sell: real): real {
    sell * (1.0 - FeeRate)
  }

  /** The margin in percent of the buy price, rounded to two decimals. */
  function Margin(buy: real, sell: real): real
    requires buy != 0.0
  {
    Round2((NetSell(sell) - buy) / buy * 100.0)
  }

  /** The entry's rank: its rounded profit per unit times its whole-unit volume. */
  function Key(o: Opportunity): real {
    o.profitPerUnit * o.volume as real
  }

  /** The inclusion filter every returned entry passes. */
  predicate Profitable(o: Opportunity) {
    o.marginPercent > MinMarginPercent && o.volume > MinVolume
  }

  /** The opportunity one aggregate yields, if any (one pass of the evaluation loop). */
  function Assess(tid: int, info: ItemInfo, name: string): (r: Option<Opportunity>)
    ensures r.Some? ==> Profitable(r.value) && r.value.typeId == tid && r.value.itemName == name
  {
    if info.buy > 0.0 && info.sell.Some? then
      var netSell := NetSell(info.sell.value);
      var profit := netSell - info.buy;
      var margin := Round2(profit / info.buy * 100.0);
      if margin > MinMarginPercent && info.volume > MinVolume then
        Some(Opportunity(tid, name, Round2(info.buy), Round2(info.sell.value), Round2(netSell),
                         info.volume, Round2(profit), margin))
      else None
    else None
  }

  /** The opportunities of the dictionary's entries, in the order of `keys`. */
  function Candidates(items: map<int, ItemInfo>, keys: seq<int>, names: int -> string): (r: seq<Opportunity>)
    requires forall t :: t in keys ==> t in items
    ensures |r| <= |keys|
  {
    if keys == [] then []
    else
      var tid := keys[|keys| - 1];
      var rest := Candidates(items, keys[..|keys| - 1], names);
      match Assess(tid, items[tid], names(tid))
      case Some(o) => rest + [o]
      case None => rest
  }

  /**
   * The evaluation loop over the dictionary in insertion order, then the
   * stable descending sort by expected total profit and the cut to the top 50.
   */
  method FindOpportunities(items: map<int, ItemInfo>, keys: seq<int>, names: int -> string) returns (top: seq<Opportunity>)
    requires forall t :: t in keys ==> t in items
    ensures top == Rank(Candidates(items, keys, names), Key, TopCount)
  {
    var result := [];
    for i := 0 to |keys|
      invariant result == Candidates(items, keys[..i], names)
    {
      assert keys[..i + 1][..i] == keys[..i];
      var tid := keys[i];
      var info := items[tid];
      if info.buy > 0.0 && info.sell.Some? {
        var netSell := NetSell(info.sell.value);
        var profit := netSell - info.buy;
        var margin := Round2(profit / info.buy * 100.0);
        if margin > MinMarginPercent && info.volume > MinVolume {
          result := result + [Opportunity(tid, names(tid), Round2(info.buy), Round2(info.sell.value),
                                          Round2(netSell), info.volume, Round2(profit), margin)];
        }
      }
    }
    assert keys[..|keys|] == keys;
    top := Rank(result, Key, TopCount);
  }

  /**
   * An aggregate yields an opportunity exactly when the item has a positive
   * best buy, an observed sell price, a rounded margin above 1% and a sell
   * volume above 50; the entry then carries the rounded prices and margin.
   */
  lemma AssessExactly(tid: int, info: ItemInfo, name: string)
    ensures Assess(tid, info, name).Some? <==>
            info.buy > 0.0 && info.sell.Some? &&
            Margin(info.buy, info.sell.value) > MinMarginPercent && info.volume > MinVolume
    ensures Assess(tid, info, name).Some? ==>
              var o := Assess(tid, info, name).value;
              o.buyPrice == Round2(info.buy) && o.sellPrice == Round2(info.sell.value) &&
              o.netSellPrice == Round2(NetSell(info.sell.value)) &&
              o.profitPerUnit == Round2(NetSell(info.sell.value) - info.buy) &&
              o.marginPercent == Margin(info.buy, info.sell.value) && o.volume == info.volume
  {
  }

  /** One-sided items (no buy order, or no sell order) never yield an opportunity. */
  lemma OneSidedExcluded(tid: int, info: ItemInfo, name: string)
    requires info.buy <= 0.0 || info.sell == None
    ensures Assess(tid, info, name) == None
  {
  }

  /**
   * A kept item is strictly profitable after fees: a rounded margin above 1%
   * means an exact margin above 0.995%, so the net sell price exceeds the
   * buy price. In particular an item whose net sell price does not exceed
   * its buy price is dropped however large its volume.
   */
  lemma KeptIsProfitable(buy: real, sell: real)
    requires buy > 0.0 && Margin(buy, sell) > MinMarginPercent
    ensures NetSell(sell) > buy
  {
  }

  /** Rounding is idempotent: a value already in whole cents is left as it is. */
  lemma Round2Idempotent(x: real)
    ensures Round2(Round2(x)) == Round2(x)
  {
  }

  /**
   * The candidates are exactly the opportunities the entries named in `keys`
   * yield, every one of them passes the filter, and their type ids are
   * distinct when the keys are.
   */
  lemma {:induction false} CandidatesAre(items: map<int, ItemInfo>, keys: seq<int>, names: int -> string)
    requires forall t :: t in keys ==> t in items
    ensures forall o :: o in Candidates(items, keys, names) <==>
              exists i :: 0 <= i < |keys| && Assess(keys[i], items[keys[i]], names(keys[i])) == Some(o)
    ensures forall o :: o in Candidates(items, keys, names) ==> Profitable(o) && o.typeId in keys
    ensures (forall i, j :: 0 <= i < j < |keys| ==> keys[i] != keys[j]) ==>
              forall i, j :: 0 <= i < j < |Candidates(items, keys, names)| ==>
                Candidates(items, keys, names)[i].typeId != Candidates(items, keys, names)[j].typeId
    decreases |keys|
  {
    if keys != [] {
      var init := keys[..|keys| - 1];
      CandidatesAre(items, init, names);
      assert forall i :: 0 <= i < |init| ==> init[i] == keys[i];
    }
  }
}
