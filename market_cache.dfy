/**
 * The market-data request: the whole fetch, aggregate and rank pipeline, and
 * the process-wide cache that serves a stored result for an hour.
 */
module MarketCache {
  import opened Options
  import opened Orders
  import opened Aggregation
  import opened Ranking
  import opened Opportunities

  /** Seconds a stored result stays fresh. */
  const CacheTtl: real := 3600.0

  /** The response body: whether it came from the cache, and the ranked opportunities. */
  datatype Response = Response(cached: bool, topItems: seq<Opportunity>)

  /**
   * The evaluated items before ranking: the buy and sell orders collected
   * from their page sequences, aggregated per item and evaluated in
   * dictionary insertion order. `names` is the item-name lookup.
   */
  function CandidatesOf(buyPages: seq<Page>, sellPages: seq<Page>, names: int -> string): seq<Opportunity> {
    var buys := Fetched(buyPages);
    var sells := Fetched(sellPages);
    DedupMembers(TypeIds(buys + sells));
    Candidates(Aggregated(buys, sells), Dedup(TypeIds(buys + sells)), names)
  }

  /** The pipeline as a value: the candidates ranked and cut to the top 50. */
  function MarketData(buyPages: seq<Page>, sellPages: seq<Page>, names: int -> string): seq<Opportunity> {
    Rank(CandidatesOf(buyPages, sellPages, names), Key, TopCount)
  }

  /** What every response list satisfies: at most 50 entries, ranked, each passing the filter. */
  ghost predicate WellRanked(s: seq<Opportunity>) {
    && |s| <= TopCount
    && SortedDesc(s, Key)
    && (forall o :: o in s ==> Profitable(o))
  }

  /**
   * Every computed list is well ranked and is the top 50 of all qualifying
   * candidates: a candidate left out has no larger expected profit than any
   * entry kept.
   */
  lemma MarketDataWellRanked(buyPages: seq<Page>, sellPages: seq<Page>, names: int -> string)
    ensures WellRanked(MarketData(buyPages, sellPages, names))
    ensures var n := |CandidatesOf(buyPages, sellPages, names)|;
            |MarketData(buyPages, sellPages, names)| == if n <= TopCount then n else TopCount
    ensures var cands := CandidatesOf(buyPages, sellPages, names);
            var r := MarketData(buyPages, sellPages, names);
            forall x, y :: x in r && y in multiset(cands) - multiset(r) ==> Key(y) <= Key(x)
  {
    var buys := Fetched(buyPages);
    var sells := Fetched(sellPages);
    var keys := Dedup(TypeIds(buys + sells));
    DedupMembers(TypeIds(buys + sells));
    var items := Aggregated(buys, sells);
    var cands := Candidates(items, keys, names);
    CandidatesAre(items, keys, names);
    RankIsTop(cands, Key, TopCount);
    var r := Rank(cands, Key, TopCount);
    forall o | o in r ensures Profitable(o) {
      assert o in multiset(cands);
    }
  }

  /** A computed list names each item at most once. */
  lemma MarketDataDistinct(buyPages: seq<Page>, sellPages: seq<Page>, names: int -> string)
    ensures var r := MarketData(buyPages, sellPages, names);
            forall i, j :: 0 <= i < j < |r| ==> r[i].typeId != r[j].typeId
  {
    var buys := Fetched(buyPages);
    var sells := Fetched(sellPages);
    var keys := Dedup(TypeIds(buys + sells));
    DedupMembers(TypeIds(buys + sells));
    var items := Aggregated(buys, sells);
    var cands := Candidates(items, keys, names);
    CandidatesAre(items, keys, names);
    RankIsTop(cands, Key, TopCount);
    var r := Rank(cands, Key, TopCount);
    forall i, j | 0 <= i < j < |r| ensures r[i].typeId != r[j].typeId {
      DistinctTypeIdsKept(cands, r, i, j);
    }
  }

  /** A sub-multiset of a list with distinct type ids has distinct type ids. */
  lemma DistinctTypeIdsKept(cands: seq<Opportunity>, r: seq<Opportunity>, i: nat, j: nat)
    requires forall a, b :: 0 <= a < b < |cands| ==> cands[a].typeId != cands[b].typeId
    requires multiset(r) <= multiset(cands)
    requires i < j < |r|
    ensures r[i].typeId != r[j].typeId
  {
    if r[i].typeId == r[j].typeId {
      assert r[i] in multiset(cands) && r[j] in multiset(cands);
      var a :| 0 <= a < |cands| && cands[a] == r[i];
      var b :| 0 <= b < |cands| && cands[b] == r[j];
      if a == b {
        assert r[i] == r[j];
        assert multiset(r)[r[i]] >= 2 by {
          assert r == r[..i] + [r[i]] + r[i + 1..j] + [r[j]] + r[j + 1..];
        }
        OnlyOnce(cands, a);
        assert false;
      }
    }
  }

  /** In a list with distinct type ids, each entry occurs once. */
  lemma {:induction false} OnlyOnce(s: seq<Opportunity>, a: nat)
    requires forall x, y :: 0 <= x < y < |s| ==> s[x].typeId != s[y].typeId
    requires a < |s|
    ensures multiset(s)[s[a]] == 1
  {
    assert s == s[..a] + [s[a]] + s[a + 1..];
    assert s[a] !in s[..a];
    assert s[a] !in s[a + 1..];
  }

  /**
   * Entry `o` is the evaluation of its item's aggregate over `buys` and
   * `sells`: a positive best buy, an observed best sell, the rounded prices,
   * net sell price and profit of those aggregates, their margin, the summed
   * sell volume (above 50) and the looked-up name.
   */
  ghost predicate FromAggregates(o: Opportunity, buys: seq<Order>, sells: seq<Order>, names: int -> string) {
    var buy := BestBuy(buys, o.typeId);
    var sell := BestSell(sells, o.typeId);
    && buy > 0.0
    && sell.Some?
    && o.buyPrice == Round2(buy)
    && o.sellPrice == Round2(sell.value)
    && o.netSellPrice == Round2(NetSell(sell.value))
    && o.profitPerUnit == Round2(NetSell(sell.value) - buy)
    && o.volume == SellVolume(sells, o.typeId) > MinVolume
    && o.marginPercent == Margin(buy, sell.value)
    && o.itemName == names(o.typeId)
  }

  /**
   * Every listed item had both a buy order and a sell order at the station,
   * and every field of its entry comes from its aggregates.
   */
  lemma MarketDataTwoSided(buyPages: seq<Page>, sellPages: seq<Page>, names: int -> string)
    ensures forall o :: o in MarketData(buyPages, sellPages, names) ==>
              FromAggregates(o, Fetched(buyPages), Fetched(sellPages), names)
  {
    var cands := CandidatesOf(buyPages, sellPages, names);
    CandidatesFromAggregates(buyPages, sellPages, names);
    RankIsTop(cands, Key, TopCount);
    forall o | o in MarketData(buyPages, sellPages, names)
      ensures FromAggregates(o, Fetched(buyPages), Fetched(sellPages), names)
    {
      assert o in multiset(cands);
    }
  }

  /** Every qualifying candidate, before ranking, comes from its item's aggregates. */
  lemma CandidatesFromAggregates(buyPages: seq<Page>, sellPages: seq<Page>, names: int -> string)
    ensures forall o :: o in CandidatesOf(buyPages, sellPages, names) ==>
              FromAggregates(o, Fetched(buyPages), Fetched(sellPages), names)
  {
    var buys := Fetched(buyPages);
    var sells := Fetched(sellPages);
    var keys := Dedup(TypeIds(buys + sells));
    DedupMembers(TypeIds(buys + sells));
    var items := Aggregated(buys, sells);
    CandidatesAre(items, keys, names);
    forall o | o in Candidates(items, keys, names) ensures FromAggregates(o, buys, sells, names) {
      var i :| 0 <= i < |keys| && Assess(keys[i], items[keys[i]], names(keys[i])) == Some(o);
      var tid := keys[i];
      assert items[tid] == ItemInfo(BestBuy(buys, tid), BestSell(sells, tid), SellVolume(sells, tid));
      EntryFromAggregates(buys, sells, items[tid], tid, names, o);
    }
  }

  /** An entry the evaluation yields for a seen type id comes from that id's aggregates. */
  lemma EntryFromAggregates(buys: seq<Order>, sells: seq<Order>, info: ItemInfo, tid: int, names: int -> string, o: Opportunity)
    requires info == ItemInfo(BestBuy(buys, tid), BestSell(sells, tid), SellVolume(sells, tid))
    requires Assess(tid, info, names(tid)) == Some(o)
    ensures FromAggregates(o, buys, sells, names)
  {
    AssessExactly(tid, info, names(tid));
  }

  /**
   * When either side's fetch yields no orders (for instance its first page
   * request fails), no item is two-sided and the list is empty.
   */
  lemma OneSideEmpty(buyPages: seq<Page>, sellPages: seq<Page>, names: int -> string)
    requires Fetched(buyPages) == [] || Fetched(sellPages) == []
    ensures MarketData(buyPages, sellPages, names) == []
  {
    var buys := Fetched(buyPages);
    var sells := Fetched(sellPages);
    var keys := Dedup(TypeIds(buys + sells));
    DedupMembers(TypeIds(buys + sells));
    var items := Aggregated(buys, sells);
    forall t | t in keys ensures items[t].buy <= 0.0 || items[t].sell == None {
      if buys == [] {
        assert items[t].buy == BestBuy([], t);
      } else {
        assert items[t].sell == BestSell([], t);
      }
    }
    NoCandidates(items, keys, names);
  }

  /** Without a two-sided entry there is no candidate. */
  lemma {:induction false} NoCandidates(items: map<int, ItemInfo>, keys: seq<int>, names: int -> string)
    requires forall t :: t in keys ==> t in items
    requires forall t :: t in keys ==> items[t].buy <= 0.0 || items[t].sell == None
    ensures Candidates(items, keys, names) == []
    decreases |keys|
  {
    if keys != [] {
      var init := keys[..|keys| - 1];
      assert forall t :: t in init ==> t in keys;
      NoCandidates(items, init, names);
      OneSidedExcluded(keys[|keys| - 1], items[keys[|keys| - 1]], names(keys[|keys| - 1]));
    }
  }

  /** The process-wide cache in front of the pipeline. */
  class Cache {
    /** When the stored list was computed (seconds); 0 before the first computation. */
    var timestamp: real
    /** The last computed list. */
    var data: seq<Opportunity>

    ghost predicate Valid()
      reads this
    {
      WellRanked(data)
    }

    constructor ()
      ensures Valid() && timestamp == 0.0 && data == []
    {
      timestamp := 0.0;
      data := [];
    }

    /**
     * One request at time `now`. While the stored list is younger than the
     * TTL it is served unchanged; otherwise the pipeline runs and its result,
     * even an empty one, replaces the stored list and restarts the TTL.
     */
    method GetMarketData(now: real, buyPages: seq<Page>, sellPages: seq<Page>, names: int -> string)
      returns (resp: Response)
      requires Valid()
      modifies this
      ensures Valid()
      ensures old(now - timestamp) < CacheTtl ==>
                resp == Response(true, old(data)) && timestamp == old(timestamp) && data == old(data)
      ensures old(now - timestamp) >= CacheTtl ==>
                resp == Response(false, MarketData(buyPages, sellPages, names)) &&
                timestamp == now && data == resp.topItems
    {
      if now - timestamp < CacheTtl {
        return Response(true, data);
      }
      var buys := FetchAllOrders(buyPages);
      var sells := FetchAllOrders(sellPages);
      var items, keys := Aggregate(buys, sells);
      DedupMembers(TypeIds(buys + sells));
      var top := FindOpportunities(items, keys, names);
      MarketDataWellRanked(buyPages, sellPages, names);
      timestamp := now;
      data := top;
      resp := Response(false, top);
    }
  }
}
