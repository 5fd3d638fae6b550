# Market opportunity finder — a Dafny model

This project models the data-processing core of a small web service that
looks for station-trading opportunities in one market hub. For one region
the service reads every buy order and every sell order from a paginated
market API. It keeps only the orders placed at one station, Jita 4-4
(`60003760`). It then aggregates them per item type: the best buy price,
the best sell price and the total sell volume. It computes the margin left
after a 3.7% fee and keeps the items whose rounded margin is above 1% and
whose sell volume is above 50 units. It ranks these by expected total
profit and returns the top 50. A process-wide cache serves the previous
answer for one hour.

The model has five modules, one per step of the request, plus an `Option`
type:

- `Orders` (`orders.dfy`): orders and pages. `AtStation` filters one page.
  `StopIndex` finds the page where pagination stops. `FetchAllOrders` is the
  pagination loop, as a `while` loop over a finite sequence of page
  responses.
- `Aggregation` (`aggregation.dfy`): the aggregate dictionary. `BestBuy`,
  `BestSell` and `SellVolume` are the running maximum, minimum and sum as
  functions. `Aggregate` calls `AddBuyOrders` and `AddSellOrders`, one per
  `for` loop of the source. Each loop rebinds a local `map` value entry by
  entry, as the source updates its dictionary. The keys are also kept in a `seq` in the order the dictionary
  first saw them, because that is the order the evaluation loop visits
  items, and so the order in which the stable sort breaks ties.
- `Ranking` (`ranking.dfy`): a generic stable sort in descending key order,
  and taking a prefix.
- `Opportunities` (`opportunities.dfy`): margin computation, two-decimal
  rounding, the inclusion filter, and the evaluation loop `FindOpportunities`.
- `MarketCache` (`market_cache.dfy`): the whole pipeline as a function
  `MarketData`, and the class `Cache` whose fields `timestamp` and `data` are
  the cache entry. `Cache.GetMarketData` is the request handler.

Prices and times are `real`. The infinite sell-price sentinel is `None`.
The item-name lookup is the parameter `names: int -> string`. The clock is
the parameter `now`. The upstream API is a sequence of `Page(status, orders)`
values, one per page number, starting at page 1.

Two details of the code matter:

- The ranking key is the entry's *rounded* `profit_per_unit` times its
  integer `volume` (main.py:81), not the raw profit times the raw volume.
- An item is two-sided when `buy > 0` and the sell price is below infinity
  (main.py:64).

## Model

| member | source | states |
|---|---|---|
| `Orders.AtStation` | main.py:24 | The filtered page holds exactly the page's orders located at station 60003760, and no more orders than the page |
| `Orders.AtStationCounts` | main.py:24 | Every station order is kept as many times as the page lists it, and no other order is kept |
| `Orders.AtStationAppend` | main.py:24 | The filter keeps page order: filtering two consecutive runs gives the first run's result followed by the second's |
| `Orders.StopIndex` | main.py:19-26 | Every page before the index has status 200 and a non-empty filtered list. The page at the index, if any, failed or has an empty filtered list |
| `Orders.FetchAllOrders` | main.py:15-30 | The loop returns the concatenation, in page order, of the filtered pages before the first stop page. Every returned order is at the station |
| `Orders.FetchedCutsAtFirstStop` | main.py:19-28 | If pages 1..n continue and page n+1 stops, the result is exactly the filtered pages 1..n |
| `Orders.FirstPageFailure` | main.py:21-23 | A non-200 first page gives an empty order list |
| `Orders.FetchedExtends` | main.py:24-28 | A page that continues contributes its filtered orders in front of the rest, contiguously and in order |
| `Aggregation.Max` | main.py:55 | The result is at least both arguments and equals one of them |
| `Aggregation.MinSell` | main.py:59 | The result is at most the new price and the current best, and equals one of them. "None seen" acts as +infinity |
| `Aggregation.AddBuyOrders` | main.py:51-55 | After the buy loop, each item seen holds its best buy price, no sell price and volume 0. The keys are the distinct type ids in first-seen order |
| `Aggregation.AddSellOrders` | main.py:57-60 | After the sell loop, the dictionary equals the aggregate of all orders. The keys are the distinct type ids of buys then sells, in first-seen order |
| `Aggregation.Aggregate` | main.py:51-60 | The dictionary maps every type id seen on either side to its (best buy, best sell, sell volume). The key order is the dictionary's insertion order |
| `Aggregation.BestBuyIsMaximum` | main.py:51-55 | The best buy is at least 0 and at least every buy price of the item. It is either 0 or one of those prices |
| `Aggregation.BestSellIsMinimum` | main.py:57-59 | The best sell is absent exactly when the item has no sell order. Otherwise it is at most every sell price of the item and equals one of them |
| `Aggregation.TypeIdsAt` | main.py:52-57 | The i-th type id read is the i-th order's, so a type id is a dictionary key exactly when some order has it |
| `Aggregation.NotSeen` | main.py:51 | An item no order mentions keeps the default entry: buy 0, no sell price, volume 0 |
| `Aggregation.DedupMembers` | main.py:51 | The key order lists exactly the type ids seen, each once |
| `Aggregation.DedupSnoc` | main.py:54-58 | A type id goes to the end of the key order when first seen and is not moved later |
| `Aggregation.AggregateSplits` | main.py:53-60 | For two consecutive runs of orders (for example pages), the aggregate of both is the max, min and sum of the two runs' aggregates |
| `Aggregation.AggregateCommutes` | main.py:53-60 | Swapping two runs of orders does not change any aggregate |
| `Ranking.Insert` | main.py:81 | An insertion step adds exactly one entry (multiset) |
| `Ranking.SortDesc` | main.py:81 | The sort is a permutation of its input |
| `Ranking.SortDescSorted` | main.py:81 | The sorted list is non-increasing by key |
| `Ranking.SortDescStable` | main.py:81 | For every key value, the entries with that key keep their input order (Python's sort with reverse=True is stable) |
| `Ranking.Take` | main.py:81 | The `[:50]` slice is the prefix of exactly min(length, 50) entries, so the whole list when it is shorter |
| `Ranking.RankIsTop` | main.py:81 | The top-50 has exactly min(length, 50) entries, is sorted, and is a sub-multiset of the input. It is all of the input when that has at most 50 entries. No dropped entry has a larger key than a kept one |
| `Opportunities.Round2` | main.py:67 | Rounding to two decimals lands on a whole number of cents within half a cent of the input |
| `Opportunities.Round2Idempotent` | main.py:67 | Rounding an already rounded value changes nothing |
| `Opportunities.Assess` | main.py:63-79 | Every emitted entry has margin above 1, volume above 50, the item's type id and the looked-up name |
| `Opportunities.AssessExactly` | main.py:64-79 | An entry is emitted exactly when buy > 0, a sell price exists, the rounded margin is above 1 and the volume is above 50. The entry holds the rounded buy, sell, net sell and profit, the margin and the volume |
| `Opportunities.OneSidedExcluded` | main.py:64 | Items with no positive buy or no sell price are never emitted, whatever their volume |
| `Opportunities.KeptIsProfitable` | main.py:65-69 | For a positive buy price, a rounded margin above 1 means the fee-adjusted sell price is strictly above the buy price, so loss-making items are never kept |
| `Opportunities.Candidates` | main.py:62-80 | At most one entry per dictionary key |
| `Opportunities.CandidatesAre` | main.py:62-80 | The candidates are exactly the entries the keys yield, and all pass the filter. With distinct keys, their type ids are distinct |
| `Opportunities.FindOpportunities` | main.py:62-81 | The loop and the sort return the top 50, by stable descending key, of the candidates in dictionary order |
| `MarketCache.MarketDataWellRanked` | main.py:62-81 | Every computed list has exactly min(50, number of candidates) entries, is non-increasing by key, and has all entries passing the filter. No left-out candidate outranks a kept entry |
| `MarketCache.MarketDataDistinct` | main.py:63-81 | A computed list names each item type at most once |
| `MarketCache.MarketDataTwoSided` | main.py:48-79 | Every listed item has a positive best buy and an observed sell price over the fetched orders. Its buy, sell and net sell prices, its profit per unit and its margin are computed from those aggregates and rounded. Its volume is its sell volume (above 50), and its name comes from the lookup |
| `MarketCache.CandidatesFromAggregates` | main.py:63-79 | Before sorting and truncation, every qualifying candidate has the same field-by-field relation to its item's best buy, best sell and summed sell volume |
| `MarketCache.EntryFromAggregates` | main.py:63-79 | The entry evaluated for an item's aggregate has every field computed from that aggregate |
| `MarketCache.OneSideEmpty` | main.py:48-64 | If either side's fetch is empty (for example its first page fails), the list is empty |
| `MarketCache.NoCandidates` | main.py:62-64 | With no two-sided item there are no candidates |
| `MarketCache.Cache.constructor` | main.py:12 | The cache starts with timestamp 0 and an empty list |
| `MarketCache.Cache.GetMarketData` | main.py:43-84 | If now - timestamp < 3600, the response is the stored list flagged cached, and nothing changes. Otherwise the response is the freshly computed list flagged not cached, and the timestamp becomes now and the data that list, even when it is empty. The stored list always stays well ranked |

## Left out

- HTTP requests, JSON decoding and status handling beyond one status code per page: the upstream API is an input sequence of pages.
- Exceptions are not modelled. An exception raised by `requests.get` or `res.json()` (main.py:21, 24, outside any `try`) aborts the request and leaves the cache untouched. In the model the miss branch always completes and always updates the cache.
- Running out of modelled pages ends the fetch as a failed request would. The real loop has no page bound and ends only when upstream fails or returns an empty page.
- `get_item_name` (main.py:32-40) is a network lookup that falls back to the id as a string. It is the parameter `names`, an arbitrary total function.
- `time.time()` is the parameter `now`.
- FastAPI routing and the endpoint decorator (main.py:1, 6, 42).
- Floating point: prices, fees, margins and time are exact reals. `round` is modelled as round-half-to-even on exact reals, so binary float effects (for example `round(2.675, 2) == 2.67`) are not captured.
- `int(volume)` is the identity, because `volume_remain` is an integer.
- Round2: the contract only bounds the error and puts the result on the cent grid. The half-to-even tie rule is stated in the body alone.
- Thread safety of the unguarded global cache: the model is sequential.
