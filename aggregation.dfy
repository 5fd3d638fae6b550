/**
 * Per-item aggregation of the station's buy and sell orders: best buy price
 * (running maximum from 0), best sell price (running minimum from "none
 * seen") and the sell volume (running sum), kept in a dictionary keyed by
 * item type id whose keys are remembered in insertion order.
 */
module Aggregation {
  import opened Options
  import opened Orders

  /** One item's aggregate; `sell == None` is the +infinity "no sell order seen" sentinel. */
  datatype ItemInfo = ItemInfo(buy: real, sell: Option<real>, volume: int)

  /** The entry a type id gets when the dictionary first sees it. */
  const Blank: ItemInfo := ItemInfo(0.0, None, 0)

  /** The larger of the two prices. */
  function Max(a: real, b: real): (r: real)
    ensures r >= a && r >= b && (r == a || r == b)
  {
    if b > a then b else a
  }

  /** The smaller of the current best sell price (none means +infinity) and a new price. */
  function MinSell(current: Option<real>, price: real): (r: real)
    ensures r <= price && (current.Some? ==> r <= current.value)
    ensures r == price || (current.Some? && r == current.value)
  {
    match current
    case None => price
    case Some(c) => if price < c then price else c
  }

  /** The best buy price of `tid`: 0, raised by each of its buy orders in turn. */
  function BestBuy(buys: seq<Order>, tid: int): real {
    if buys == [] then 0.0
    else
      var last := buys[|buys| - 1];
      var b := BestBuy(buys[..|buys| - 1], tid);
      if last.typeId == tid then Max(b, last.price) else b
  }

  /** The best sell price of `tid`, lowered by each of its sell orders in turn; None while it has none. */
  function BestSell(sells: seq<Order>, tid: int): Option<real> {
    if sells == [] then None
    else
      var last := sells[|sells| - 1];
      var s := BestSell(sells[..|sells| - 1], tid);
      if last.typeId == tid then Some(MinSell(s, last.price)) else s
  }

  /** The remaining volume summed over the sell orders of `tid`. */
  function SellVolume(sells: seq<Order>, tid: int): int {
    if sells == [] then 0
    else
      var last := sells[|sells| - 1];
      var v := SellVolume(sells[..|sells| - 1], tid);
      if last.typeId == tid then v + last.volumeRemain else v
  }

  /** The type id of each order, in order. */
  function TypeIds(orders: seq<Order>): (r: seq<int>)
    ensures |r| == |orders|
  {
    if orders == [] then [] else TypeIds(orders[..|orders| - 1]) + [orders[|orders| - 1].typeId]
  }

  /** The distinct elements of `s` in order of first occurrence (a dictionary's key order). */
  function Dedup(s: seq<int>): seq<int> {
    if s == [] then []
    else
      var d := Dedup(s[..|s| - 1]);
      if s[|s| - 1] in d then d else d + [s[|s| - 1]]
  }

  /** The aggregate dictionary as a value: one entry per type id seen on either side. */
  function Aggregated(buys: seq<Order>, sells: seq<Order>): map<int, ItemInfo> {
    map t | t in TypeIds(buys + sells) :: ItemInfo(BestBuy(buys, t), BestSell(sells, t), SellVolume(sells, t))
  }

  /**
   * The two aggregation loops over a dictionary with a default entry.
   * `keys` is the dictionary's insertion order.
   */
  method Aggregate(buys: seq<Order>, sells: seq<Order>) returns (items: map<int, ItemInfo>, keys: seq<int>)
    ensures items == Aggregated(buys, sells)
    ensures keys == Dedup(TypeIds(buys + sells))
  {
    items, keys := AddBuyOrders(buys);
    items, keys := AddSellOrders(buys, sells, items, keys);
  }

  /** The buy loop: each buy order raises its item's best buy price. */
  method AddBuyOrders(buys: seq<Order>) returns (items: map<int, ItemInfo>, keys: seq<int>)
    ensures keys == Dedup(TypeIds(buys))
    ensures forall t :: t in items <==> t in TypeIds(buys)
    ensures forall t :: t in items ==> items[t] == ItemInfo(BestBuy(buys, t), None, 0)
  {
    items, keys := map[], [];
    for i := 0 to |buys|
      invariant HoldsBuys(buys[..i], items, keys)
    {
      var o := buys[i];
      ghost var before, keysBefore := items, keys;
      if o.typeId !in items {
        items := items[o.typeId := Blank];
        keys := keys + [o.typeId];
      }
      var info := items[o.typeId];
      items := items[o.typeId := info.(buy := Max(info.buy, o.price))];
      HoldsAfterBuy(buys, i, before, keysBefore, items, keys);
    }
    assert buys[..|buys|] == buys;
  }

  /** `items` and `keys` are what the buy loop has built from the buy orders read so far. */
  ghost predicate HoldsBuys(buys: seq<Order>, items: map<int, ItemInfo>, keys: seq<int>) {
    && keys == Dedup(TypeIds(buys))
    && (forall t :: t in items <==> t in TypeIds(buys))
    && (forall t :: t in items ==> items[t] == ItemInfo(BestBuy(buys, t), None, 0))
  }

  /** One pass of the buy loop body keeps the dictionary in step with the orders read. */
  lemma HoldsAfterBuy(buys: seq<Order>, i: nat,
                      before: map<int, ItemInfo>, keysBefore: seq<int>, after: map<int, ItemInfo>, keysAfter: seq<int>)
    requires i < |buys|
    requires HoldsBuys(buys[..i], before, keysBefore)
    requires var o := buys[i];
             var info := if o.typeId in before then before[o.typeId] else Blank;
             after == before[o.typeId := info.(buy := Max(info.buy, o.price))]
    requires keysAfter == if buys[i].typeId in before then keysBefore else keysBefore + [buys[i].typeId]
    ensures HoldsBuys(buys[..i + 1], after, keysAfter)
  {
    assert keysAfter == Dedup(TypeIds(buys[..i + 1])) by {
      KeysAfterBuy(buys, i, before);
    }
    assert forall t :: t in after ==> after[t] == ItemInfo(BestBuy(buys[..i + 1], t), None, 0) by {
      BuyStep(buys, i);
      if buys[i].typeId !in before {
        NotSeen(buys[..i], buys[i].typeId);
      }
    }
    BuyStep(buys, i);
  }

  /**
   * The sell loop, continuing on the dictionary the buy loop left: each sell
   * order lowers its item's best sell price and adds to its volume.
   */
  method AddSellOrders(buys: seq<Order>, sells: seq<Order>, items0: map<int, ItemInfo>, keys0: seq<int>)
    returns (items: map<int, ItemInfo>, keys: seq<int>)
    requires keys0 == Dedup(TypeIds(buys))
    requires forall t :: t in items0 <==> t in TypeIds(buys)
    requires forall t :: t in items0 ==> items0[t] == ItemInfo(BestBuy(buys, t), None, 0)
    ensures items == Aggregated(buys, sells)
    ensures keys == Dedup(TypeIds(buys + sells))
  {
    items, keys := items0, keys0;
    assert buys + sells[..0] == buys;
    for j := 0 to |sells|
      invariant Holds(buys, sells[..j], items, keys)
    {
      var o := sells[j];
      ghost var before, keysBefore := items, keys;
      if o.typeId !in items {
        items := items[o.typeId := Blank];
        keys := keys + [o.typeId];
      }
      var info := items[o.typeId];
      items := items[o.typeId := info.(sell := Some(MinSell(info.sell, o.price)), volume := info.volume + o.volumeRemain)];
      HoldsAfterSell(buys, sells, j, before, keysBefore, items, keys);
    }
    assert sells[..|sells|] == sells;
    AggregatedAt(buys, sells, items, keys);
  }

  /**
   * `items` holds, for every type id seen so far, the aggregate of the orders
   * read so far, and `keys` lists those type ids in first-seen order.
   */
  ghost predicate Holds(buys: seq<Order>, sells: seq<Order>, items: map<int, ItemInfo>, keys: seq<int>) {
    && keys == Dedup(TypeIds(buys + sells))
    && (forall t :: t in items <==> t in TypeIds(buys + sells))
    && (forall t :: t in items ==>
          items[t] == ItemInfo(BestBuy(buys, t), BestSell(sells, t), SellVolume(sells, t)))
  }

  /** One pass of the sell loop body keeps the dictionary in step with the orders read. */
  lemma HoldsAfterSell(buys: seq<Order>, sells: seq<Order>, j: nat,
                       before: map<int, ItemInfo>, keysBefore: seq<int>, after: map<int, ItemInfo>, keysAfter: seq<int>)
    requires j < |sells|
    requires Holds(buys, sells[..j], before, keysBefore)
    requires var o := sells[j];
             var info := if o.typeId in before then before[o.typeId] else Blank;
             after == before[o.typeId := info.(sell := Some(MinSell(info.sell, o.price)), volume := info.volume + o.volumeRemain)]
    requires keysAfter == if sells[j].typeId in before then keysBefore else keysBefore + [sells[j].typeId]
    ensures Holds(buys, sells[..j + 1], after, keysAfter)
  {
    assert keysAfter == Dedup(TypeIds(buys + sells[..j + 1])) by {
      KeysAfterSell(buys, sells, j, before, keysBefore);
    }
    assert forall t :: t in after <==> t in TypeIds(buys + sells[..j + 1]) by {
      SeenAfterSell(buys, sells, j, before, after);
    }
    assert forall t :: t in after ==>
             after[t] == ItemInfo(BestBuy(buys, t), BestSell(sells[..j + 1], t), SellVolume(sells[..j + 1], t)) by {
      ValuesAfterSell(buys, sells, j, before, after);
    }
  }

  /** After one more sell order, the dictionary has an entry for exactly the type ids read. */
  lemma SeenAfterSell(buys: seq<Order>, sells: seq<Order>, j: nat, before: map<int, ItemInfo>, after: map<int, ItemInfo>)
    requires j < |sells|
    requires forall t :: t in before <==> t in TypeIds(buys + sells[..j])
    requires after.Keys == before.Keys + {sells[j].typeId}
    ensures forall t :: t in after <==> t in TypeIds(buys + sells[..j + 1])
  {
    SellStep(buys, sells, j);
  }

  /** After one more sell order, every entry is the aggregate of the orders read. */
  lemma ValuesAfterSell(buys: seq<Order>, sells: seq<Order>, j: nat, before: map<int, ItemInfo>, after: map<int, ItemInfo>)
    requires j < |sells|
    requires forall t :: t in before <==> t in TypeIds(buys + sells[..j])
    requires forall t :: t in before ==>
               before[t] == ItemInfo(BestBuy(buys, t), BestSell(sells[..j], t), SellVolume(sells[..j], t))
    requires var o := sells[j];
             var info := if o.typeId in before then before[o.typeId] else Blank;
             after == before[o.typeId := info.(sell := Some(MinSell(info.sell, o.price)), volume := info.volume + o.volumeRemain)]
    ensures forall t :: t in after ==>
              after[t] == ItemInfo(BestBuy(buys, t), BestSell(sells[..j + 1], t), SellVolume(sells[..j + 1], t))
  {
    var o := sells[j];
    SellStep(buys, sells, j);
    if o.typeId !in before {
      TypeIdsAppend(buys, sells[..j]);
      NotSeen(buys, o.typeId);
      NotSeen(sells[..j], o.typeId);
    }
  }

  /** One pass of the buy loop body appends the type id to the keys exactly when it is new. */
  lemma KeysAfterBuy(buys: seq<Order>, i: nat, items: map<int, ItemInfo>)
    requires i < |buys|
    requires forall t :: t in items <==> t in TypeIds(buys[..i])
    ensures Dedup(TypeIds(buys[..i + 1])) ==
            if buys[i].typeId in items then Dedup(TypeIds(buys[..i]))
            else Dedup(TypeIds(buys[..i])) + [buys[i].typeId]
  {
    BuyStep(buys, i);
    DedupSnoc(TypeIds(buys[..i]), buys[i].typeId);
  }

  /** One pass of the sell loop body appends the type id to the keys exactly when it is new. */
  lemma KeysAfterSell(buys: seq<Order>, sells: seq<Order>, j: nat, items: map<int, ItemInfo>, keys: seq<int>)
    requires j < |sells|
    requires Holds(buys, sells[..j], items, keys)
    ensures Dedup(TypeIds(buys + sells[..j + 1])) ==
            if sells[j].typeId in items then Dedup(TypeIds(buys + sells[..j]))
            else Dedup(TypeIds(buys + sells[..j])) + [sells[j].typeId]
  {
    SellStep(buys, sells, j);
    DedupSnoc(TypeIds(buys + sells[..j]), sells[j].typeId);
  }

  /** A dictionary holding the aggregate of every type id seen is the aggregate as a value. */
  lemma AggregatedAt(buys: seq<Order>, sells: seq<Order>, items: map<int, ItemInfo>, keys: seq<int>)
    requires Holds(buys, sells, items, keys)
    ensures items == Aggregated(buys, sells)
  {
    var spec := Aggregated(buys, sells);
    assert items.Keys == spec.Keys;
    forall t | t in items ensures items[t] == spec[t] {
    }
  }

  /** Reading one more buy order updates only that order's item. */
  lemma BuyStep(buys: seq<Order>, i: nat)
    requires i < |buys|
    ensures TypeIds(buys[..i + 1]) == TypeIds(buys[..i]) + [buys[i].typeId]
    ensures forall t :: BestBuy(buys[..i + 1], t) ==
                        if buys[i].typeId == t then Max(BestBuy(buys[..i], t), buys[i].price) else BestBuy(buys[..i], t)
  {
    assert buys[..i + 1][..i] == buys[..i];
  }

  /** Reading one more sell order updates only that order's item. */
  lemma SellStep(buys: seq<Order>, sells: seq<Order>, j: nat)
    requires j < |sells|
    ensures TypeIds(buys + sells[..j + 1]) == TypeIds(buys + sells[..j]) + [sells[j].typeId]
    ensures forall t :: BestSell(sells[..j + 1], t) ==
                        if sells[j].typeId == t then Some(MinSell(BestSell(sells[..j], t), sells[j].price)) else BestSell(sells[..j], t)
    ensures forall t :: SellVolume(sells[..j + 1], t) ==
                        if sells[j].typeId == t then SellVolume(sells[..j], t) + sells[j].volumeRemain else SellVolume(sells[..j], t)
  {
    assert sells[..j + 1][..j] == sells[..j];
    assert (buys + sells[..j + 1])[..|buys| + j] == buys + sells[..j];
  }

  lemma {:induction false} TypeIdsAppend(a: seq<Order>, b: seq<Order>)
    ensures TypeIds(a + b) == TypeIds(a) + TypeIds(b)
    decreases |b|
  {
    if b == [] {
      assert a + b == a;
    } else {
      var b', last := b[..|b| - 1], b[|b| - 1];
      TypeIdsAppend(a, b');
      assert (a + b)[..|a + b| - 1] == a + b';
      assert TypeIds(a + b) == TypeIds(a + b') + [last.typeId];
      assert TypeIds(b) == TypeIds(b') + [last.typeId];
    }
  }

  /** The i-th type id is the i-th order's: a type id is listed exactly when some order has it. */
  lemma {:induction false} TypeIdsAt(orders: seq<Order>)
    ensures forall i :: 0 <= i < |orders| ==> TypeIds(orders)[i] == orders[i].typeId
    decreases |orders|
  {
    if orders != [] {
      var init := orders[..|orders| - 1];
      TypeIdsAt(init);
      assert forall i :: 0 <= i < |init| ==> init[i] == orders[i];
    }
  }

  /** An item no order mentions keeps the default aggregate. */
  lemma {:induction false} NotSeen(orders: seq<Order>, t: int)
    requires t !in TypeIds(orders)
    ensures BestBuy(orders, t) == 0.0 && BestSell(orders, t) == None && SellVolume(orders, t) == 0
    decreases |orders|
  {
    if orders != [] {
      NotSeen(orders[..|orders| - 1], t);
    }
  }

  /** A key goes to the end of the insertion order the first time it is seen, and nowhere later. */
  lemma DedupSnoc(s: seq<int>, x: int)
    ensures Dedup(s + [x]) == if x in s then Dedup(s) else Dedup(s) + [x]
  {
    assert (s + [x])[..|s|] == s;
    DedupMembers(s);
  }

  /** Dedup keeps exactly the elements of its input, each once. */
  lemma {:induction false} DedupMembers(s: seq<int>)
    ensures forall x :: x in Dedup(s) <==> x in s
    ensures forall i, j :: 0 <= i < j < |Dedup(s)| ==> Dedup(s)[i] != Dedup(s)[j]
    decreases |s|
  {
    if s != [] {
      var init := s[..|s| - 1];
      DedupMembers(init);
      assert s == init + [s[|s| - 1]];
    }
  }

  /**
   * The best buy price is the maximum of 0 and the prices of the item's buy
   * orders: it bounds each of them, and unless it is the starting 0 it is
   * one of them.
   */
  lemma {:induction false} BestBuyIsMaximum(buys: seq<Order>, tid: int)
    ensures BestBuy(buys, tid) >= 0.0
    ensures forall i :: 0 <= i < |buys| && buys[i].typeId == tid ==> buys[i].price <= BestBuy(buys, tid)
    ensures BestBuy(buys, tid) == 0.0 ||
            exists i :: 0 <= i < |buys| && buys[i].typeId == tid && buys[i].price == BestBuy(buys, tid)
    decreases |buys|
  {
    if buys != [] {
      var init := buys[..|buys| - 1];
      BestBuyIsMaximum(init, tid);
      assert forall i :: 0 <= i < |init| ==> init[i] == buys[i];
    }
  }

  /**
   * The best sell price is absent exactly when the item has no sell order,
   * and otherwise is the minimum of the prices of its sell orders.
   */
  lemma {:induction false} BestSellIsMinimum(sells: seq<Order>, tid: int)
    ensures BestSell(sells, tid) == None <==> forall i :: 0 <= i < |sells| ==> sells[i].typeId != tid
    ensures BestSell(sells, tid).Some? ==>
              forall i :: 0 <= i < |sells| && sells[i].typeId == tid ==> BestSell(sells, tid).value <= sells[i].price
    ensures BestSell(sells, tid).Some? ==>
              exists i :: 0 <= i < |sells| && sells[i].typeId == tid && sells[i].price == BestSell(sells, tid).value
    decreases |sells|
  {
    if sells != [] {
      var init := sells[..|sells| - 1];
      BestSellIsMinimum(init, tid);
      assert forall i :: 0 <= i < |init| ==> init[i] == sells[i];
    }
  }

  /**
   * Aggregation does not depend on how the orders are split into pages: the
   * aggregate of two runs of orders combines the aggregates of each run.
   */
  lemma {:induction false} AggregateSplits(a: seq<Order>, b: seq<Order>, tid: int)
    ensures BestBuy(a + b, tid) == Max(BestBuy(a, tid), BestBuy(b, tid))
    ensures BestSell(a + b, tid) == Combine(BestSell(a, tid), BestSell(b, tid))
    ensures SellVolume(a + b, tid) == SellVolume(a, tid) + SellVolume(b, tid)
    decreases |b|
  {
    if b == [] {
      assert a + b == a;
      BestBuyIsMaximum(a, tid);
    } else {
      var b' := b[..|b| - 1];
      AggregateSplits(a, b', tid);
      assert (a + b)[..|a + b| - 1] == a + b';
    }
  }

  /** The lower of two optional best sell prices, where None means "none seen". */
  function Combine(x: Option<real>, y: Option<real>): (r: Option<real>)
    ensures r == None <==> x == None && y == None
    ensures x.Some? ==> r.Some? && r.value <= x.value
    ensures y.Some? ==> r.Some? && r.value <= y.value
  {
    match y
    case None => x
    case Some(v) => Some(MinSell(x, v))
  }

  /** Hence the order in which two runs of orders are read does not matter. */
  lemma AggregateCommutes(a: seq<Order>, b: seq<Order>, tid: int)
    ensures BestBuy(a + b, tid) == BestBuy(b + a, tid)
    ensures BestSell(a + b, tid) == BestSell(b + a, tid)
    ensures SellVolume(a + b, tid) == SellVolume(b + a, tid)
  {
    AggregateSplits(a, b, tid);
    AggregateSplits(b, a, tid);
  }
}
