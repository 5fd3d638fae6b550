/**
 * Orders as the upstream listing returns them, and the paginated fetch that
 * keeps only the orders of one station and stops at the first failed or
 * empty page.
 */
module Orders {

  /** The one station (venue) whose orders are kept. */
  const JitaStationId: int := 60003760
  /** The only status code that counts as a successful page request. */
  const StatusOk: int := 200

  datatype Order = Order(typeId: int, price: real, volumeRemain: int, locationId: int)

  /** One page request's outcome: its status code and the orders it listed. */
  datatype Page = Page(status: int, orders: seq<Order>)

  /** The orders of one page that belong to the station, in upstream order. */
  function AtStation(orders: seq<Order>): (r: seq<Order>)
    ensures |r| <= |orders|
    ensures forall o :: o in r <==> o in orders && o.locationId == JitaStationId
  {
    if orders == [] then []
    else (if orders[0].locationId == JitaStationId then [orders[0]] else []) + AtStation(orders[1..])
  }

  /** The filter keeps every station order as often as the page lists it, and nothing else. */
  lemma {:induction false} AtStationCounts(orders: seq<Order>)
    ensures forall o :: multiset(AtStation(orders))[o] ==
                        if o.locationId == JitaStationId then multiset(orders)[o] else 0
    decreases |orders|
  {
    if orders != [] {
      AtStationCounts(orders[1..]);
      assert orders == [orders[0]] + orders[1..];
    }
  }

  /**
   * The filter keeps the page order: filtering two consecutive runs of
   * orders gives the filtered first run followed by the filtered second.
   */
  lemma {:induction false} AtStationAppend(a: seq<Order>, b: seq<Order>)
    ensures AtStation(a + b) == AtStation(a) + AtStation(b)
    decreases |a|
  {
    if a == [] {
      assert a + b == b;
    } else {
      var head := if a[0].locationId == JitaStationId then [a[0]] else [];
      AtStationAppend(a[1..], b);
      assert (a + b)[0] == a[0] && (a + b)[1..] == a[1..] + b;
      assert AtStation(a + b) == head + AtStation(a[1..] + b);
      assert AtStation(a) == head + AtStation(a[1..]);
      assert head + (AtStation(a[1..]) + AtStation(b)) == (head + AtStation(a[1..])) + AtStation(b);
    }
  }

  /** A page that ends pagination: the request failed, or nothing in it is at the station. */
  predicate IsStop(p: Page) {
    p.status != StatusOk || AtStation(p.orders) == []
  }

  /** The index of the first page that ends pagination (or |pages| if none does). */
  function StopIndex(pages: seq<Page>): (n: nat)
    ensures n <= |pages|
    ensures forall i :: 0 <= i < n ==> !IsStop(pages[i])
    ensures n < |pages| ==> IsStop(pages[n])
  {
    if pages == [] || IsStop(pages[0]) then 0 else 1 + StopIndex(pages[1..])
  }

  /** The station's orders of every page, concatenated in page order. */
  function Flatten(pages: seq<Page>): (r: seq<Order>)
    ensures forall o :: o in r ==> o.locationId == JitaStationId
  {
    if pages == [] then []
    else Flatten(pages[..|pages| - 1]) + AtStation(pages[|pages| - 1].orders)
  }

  /** What the paginated fetch collects: the filtered pages before the first stop page. */
  function Fetched(pages: seq<Page>): seq<Order> {
    Flatten(pages[..StopIndex(pages)])
  }

  /**
   * The pagination loop. `pages[k]` is the response to page number k + 1;
   * when the modelled responses run out the loop ends as on a failed request.
   */
  method FetchAllOrders(pages: seq<Page>) returns (all: seq<Order>)
    ensures all == Fetched(pages)
    ensures forall o :: o in all ==> o.locationId == JitaStationId
  {
    var page := 0;
    all := [];
    while true
      invariant page <= StopIndex(pages)
      invariant all == Flatten(pages[..page])
      decreases |pages| - page
    {
      if page == |pages| {
        break;
      }
      var res := pages[page];
      if res.status != StatusOk {
        break;
      }
      var orders := AtStation(res.orders);
      if orders == [] {
        break;
      }
      assert pages[..page + 1][..page] == pages[..page];
      all := all + orders;
      page := page + 1;
    }
  }

  /**
   * Pagination is cut exactly at the first stop page: if pages 0..n-1 all
   * continue and page n stops, the fetch returns the filtered pages 0..n-1.
   */
  lemma FetchedCutsAtFirstStop(pages: seq<Page>, n: nat)
    requires n < |pages|
    requires forall i :: 0 <= i < n ==> !IsStop(pages[i])
    requires IsStop(pages[n])
    ensures Fetched(pages) == Flatten(pages[..n])
  {
  }

  /** A failure on the very first page yields no orders at all. */
  lemma FirstPageFailure(pages: seq<Page>)
    requires pages != [] && pages[0].status != StatusOk
    ensures Fetched(pages) == []
  {
  }

  /** Each page that continues contributes its filtered orders, contiguously and in order. */
  lemma {:induction false} FetchedExtends(pages: seq<Page>)
    requires pages != [] && !IsStop(pages[0])
    ensures Fetched(pages) == AtStation(pages[0].orders) + Fetched(pages[1..])
  {
    FlattenCons(pages[..StopIndex(pages)]);
    assert pages[..StopIndex(pages)][1..] == pages[1..][..StopIndex(pages[1..])];
  }

  lemma {:induction false} FlattenCons(pages: seq<Page>)
    requires pages != []
    ensures Flatten(pages) == AtStation(pages[0].orders) + Flatten(pages[1..])
    decreases |pages|
  {
    if |pages| > 1 {
      var init := pages[..|pages| - 1];
      FlattenCons(init);
      assert init[1..] == pages[1..][..|pages[1..]| - 1];
    } else {
      assert pages[..0] == [] && pages[1..] == [];
    }
  }
}
