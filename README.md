# switcheolytics-api analytics core, in Dafny

This project models the transforms under the Flask routes of the
switcheolytics-api service. They read documents already fetched from MongoDB
and turn them into dashboard data:

- **Address leaderboards** (`Leaderboards.SortDicts`). `sort_dicts` inverts
  each address document's embedded asset → metric map into per-asset buckets
  of `{address, metric}` entries. It leaves out the excluded keys, then ranks
  each bucket from the largest metric to the smallest. Python's `sorted` is
  stable, so ties keep document order.
- **Rich list** (`Leaderboards.RichList`). `get_switcheo_richlist` fills a
  single bucket, `"SWTH"`, from the `rich_list` field and ranks it by `total`.
- **Window catalog** (`TimeWindows.Catalog`). There are five rolling windows
  (1, 7, 30, 60 and 90 days back) and two anchored windows (2018-08-01 and
  2018-01-01 UTC). All of them end at the request's `now`.
- **Windowed fee totals and counts** (`FeeAggregation.FeesByWindow`). These
  model `get_switcheo_fee_amount` and `get_switcheo_fee_count`. The
  `$match`/`$group` pipeline keeps the records with a non-null `fee_amount`
  and `start <= block_time <= now`. It groups them by `fee_asset_name` and
  sums `fee_amount` or counts the records. The two endpoints differ only in
  the `$sum` operand, which is the `Reducer` parameter here.
- **Daily fee graph** (`FeeSeries.FeeAmountGraph`). It seeds an empty series
  for every asset. It then appends one point per (asset, `block_date`)
  group, carrying the summed fee divided by 10^8, and sorts every series by
  its date string.
- **Open offers** (`OpenOffers.OpenOfferList`). Every open offer with a
  non-null `_id` is rendered with its trade pair: `OFFER_WANT` when the
  exchange lists it, otherwise `WANT_OFFER`. The `exit` on an unknown pair
  becomes a `Failure` carrying the same message.

Modules:

| module | file |
|---|---|
| `Wrappers` | `wrappers.dfy` |
| `Sorting` (Python's stable `sorted`, in both directions) | `sorting.dfy` |
| `Leaderboards` | `leaderboards.dfy` |
| `TimeWindows` | `time_windows.dfy` |
| `FeeAggregation` | `fee_aggregation.dfy` |
| `FeeSeries` | `fee_series.dfy` |
| `OpenOffers` | `open_offers.dfy` |

Each endpoint loop is a method proved equal to a specification function:
`Ranking`, `RichListing`, `Aggregate`, `FeeGraph` or the `Rendered` listing.
Lemmas then state what the source promises about those functions.

A MongoDB query is modelled as a function over the `seq` of documents it
reads:

- `find` with a filter becomes a predicate on each document.
- `$group` becomes last-element recursion over the documents. Group keys are
  listed in order of first appearance. The store's row order is unspecified,
  and the resulting dictionaries do not depend on it.
- `distinct` becomes the list of distinct values.

A missing field and a stored `null` are both an absent `Option` wherever
`{'$ne': None}` treats them alike.

## Model

| member | source | states |
|---|---|---|
| Sorting.SortDescSorted | flask_modules/app/wsgi.py:60 | `sorted(..., reverse=True)` by an integer key yields a list ordered from the largest key to the smallest |
| Sorting.SortDescPerm | flask_modules/app/wsgi.py:60 | the descending sort returns a permutation of its input (same multiset, same length) |
| Sorting.SortDescStable | flask_modules/app/wsgi.py:60 | the descending sort is stable: for every key value, the elements with that key keep their input order |
| Sorting.StrLtTransitive | flask_modules/app/wsgi.py:300 | Python's code-point string order is transitive |
| Sorting.StrLtTotal | flask_modules/app/wsgi.py:300 | any two different strings are ordered one way or the other |
| Sorting.StrLtIrreflexive | flask_modules/app/wsgi.py:300 | no string sorts strictly before itself |
| Sorting.SortAscPerm | flask_modules/app/wsgi.py:300 | `sorted(..., key=block_date)` returns a permutation of its input |
| Sorting.SortAscStrict | flask_modules/app/wsgi.py:300 | with pairwise different date keys, the ascending sort is strictly increasing by key |
| Leaderboards.SortDicts | flask_modules/app/wsgi.py:43-62 | `sort_dicts` returns exactly the leaderboard `Ranking`: each contributed asset mapped to its bucket sorted by metric |
| Leaderboards.AppendRow | flask_modules/app/wsgi.py:47-57 | the inner loop over one document's keys appends one entry per non-excluded key to that key's bucket, creating missing buckets and changing no other bucket |
| Leaderboards.RankBuckets | flask_modules/app/wsgi.py:59-60 | the final loop replaces every bucket by its descending sort and keeps the key set |
| Leaderboards.BucketMembership | flask_modules/app/wsgi.py:45-57 | an entry is in the unsorted bucket of an asset iff some document with a non-null embedded map has that non-excluded asset, and the entry is `{_id, metric}` of that document |
| Leaderboards.BucketKeysNonEmpty | flask_modules/app/wsgi.py:48-57 | an asset is a bucket key iff its bucket is non-empty, and no bucket key is excluded |
| Leaderboards.RankingSortedStable | flask_modules/app/wsgi.py:59-60 | every ranked bucket is non-increasing by metric, is a permutation of the contributed entries, and keeps document order among equal metrics |
| Leaderboards.RankingKeys | flask_modules/app/wsgi.py:48-57 | no excluded key is ever a bucket, and every bucket holds at least one entry |
| Leaderboards.RankingEntries | flask_modules/app/wsgi.py:45-57 | an entry is in a ranked bucket iff it is `{address: _id, metric: row[key_name][asset]}` for a document contributing that asset |
| Leaderboards.RankingConservation | flask_modules/app/wsgi.py:45-57 | the number of entries over all buckets equals the number of (document with non-null map, non-excluded key) pairs |
| Leaderboards.TakesExample | flask_modules/app/wsgi.py:43-62 | A1 `{NEO: 3, wants: 1}` and A2 `{NEO: 5}` with `wants` excluded rank as `{NEO: [A2 (5), A1 (3)]}` |
| Leaderboards.RichList | flask_modules/app/wsgi.py:402-421 | `get_switcheo_richlist` returns exactly `RichListing`: no key when no document qualifies, otherwise `SWTH` mapped to the rows ranked by total |
| Leaderboards.RichEntriesMembership | flask_modules/app/wsgi.py:406-416 | a rich-list row exists iff some document has a `rich_list` field, and it carries that document's `_id`, `smart_contract`, `on_chain` and `total` |
| Leaderboards.RichListShape | flask_modules/app/wsgi.py:406-419 | the only possible key is `SWTH`; it is present iff some document has `rich_list`; its list is non-increasing by total, a permutation of the rows, and stable |
| TimeWindows.Catalog | flask_modules/app/wsgi.py:169-183 | seven windows, day, week, thirty, sixty, ninety, august and january in that order, each ending at `now` and starting at its window's start |
| TimeWindows.CatalogIndex | flask_modules/app/wsgi.py:169-183 | every window name has a position in the catalog |
| TimeWindows.CatalogNamesDistinct | flask_modules/app/wsgi.py:169-185 | the catalog names every window once, so the loop over `time_dict` visits each window exactly once |
| TimeWindows.RollingStartsOrdered | flask_modules/app/wsgi.py:170-179 | a rolling window reaching back more days starts no later, and no rolling start is after `now` |
| TimeWindows.CatalogOrder | flask_modules/app/wsgi.py:170-183 | ninety <= sixty <= thirty <= week <= day < now; the anchored starts are fixed with january < august, 212 days apart |
| TimeWindows.CatalogWellFormed | flask_modules/app/wsgi.py:169-183 | once `now` is past 2018-08-01, every window satisfies start <= end == now |
| FeeAggregation.FeesByWindow | flask_modules/app/wsgi.py:185-257 | for both endpoints, `fees_dict` has a key for every window, and each window's dictionary is `Aggregate` over `[start, now]`: with `SumFeeAmount` (the amount endpoint, lines 185-206) each matching asset is sent to its summed `fee_amount`, and with `CountRecords` (the count endpoint, lines 236-257) to its number of matching records |
| FeeAggregation.WindowTotals | flask_modules/app/wsgi.py:187-204 | copying the pipeline's rows into `fee_asset_dict` yields exactly the map from each group key to its reduced value |
| FeeAggregation.PipelineRowsCover | flask_modules/app/wsgi.py:187-203 | the `$group` rows have pairwise distinct assets, an asset has a row iff some record of it has a non-null `fee_amount` and a `block_time` in the window, and that row carries the asset's reduced value |
| FeeAggregation.GroupKeysMembership | flask_modules/app/wsgi.py:189-197 | an asset is a group key iff some record of it has a non-null `fee_amount` and `start <= block_time <= end` |
| FeeAggregation.GroupKeysDistinct | flask_modules/app/wsgi.py:196-197 | the pipeline yields at most one row per asset |
| FeeAggregation.AggregateKeys | flask_modules/app/wsgi.py:189-204 | an asset is in a window's dictionary iff a matching record exists (inclusive bounds); assets without one are absent rather than zero |
| FeeAggregation.GroupCountPositive | flask_modules/app/wsgi.py:247-251 | every group of the count pipeline counts at least one record |
| FeeAggregation.CountMatchesAmount | flask_modules/app/wsgi.py:236-257 | the amount and count dictionaries of one window have the same assets, and every count is at least 1 |
| FeeAggregation.GroupTotalMonotone | flask_modules/app/wsgi.py:189-204 | an earlier start never lowers a group's count, nor its sum when amounts are non-negative |
| FeeAggregation.WindowsNested | flask_modules/app/wsgi.py:185-206 | a window starting no earlier yields a dictionary dominated by the other's: a subset of the assets, each value no larger |
| FeeAggregation.CatalogNested | flask_modules/app/wsgi.py:169-206 | across the catalog, day ⊑ week ⊑ thirty ⊑ sixty ⊑ ninety and august ⊑ january, where ⊑ means the earlier window's dictionary is dominated by the later one's, for counts, and for sums of non-negative amounts |
| FeeAggregation.TwoFeesExample | flask_modules/app/wsgi.py:185-206 | SWTH fees of 10^8 (one hour ago) and 5·10^7 (seven days and one hour ago) give day = week = `{SWTH: 100000000}` and thirty = `{SWTH: 150000000}` |
| FeeSeries.FeeAmountGraph | flask_modules/app/wsgi.py:268-304 | `get_switcheo_fee_amount_graph` returns exactly `FeeGraph`: every asset of the collection mapped to its date-sorted daily series |
| FeeSeries.SeedSeries | flask_modules/app/wsgi.py:271-272 | the first loop gives every distinct asset an empty list and no other key |
| FeeSeries.AppendPoints | flask_modules/app/wsgi.py:292-297 | appending each row's point to its asset's list, which must exist, leaves the keys unchanged and extends each asset's list by that asset's points in row order |
| FeeSeries.SortSeries | flask_modules/app/wsgi.py:299-300 | the last loop replaces every list by its copy sorted by date and keeps the key set |
| FeeSeries.ToDisplay | flask_modules/app/wsgi.py:295 | the displayed amount times 10^8 is the raw summed amount |
| FeeSeries.DailyRowsCover | flask_modules/app/wsgi.py:273-290 | the `$group` rows have pairwise distinct (asset, `block_date`) groups, a group has a row iff some record of it has a non-null `fee_amount`, and that row carries the group's summed amount |
| FeeSeries.DistinctAssetsMembership | flask_modules/app/wsgi.py:271 | an asset is listed by `distinct` iff some record has it, whatever its `fee_amount` |
| FeeSeries.DailyGroupsMembership | flask_modules/app/wsgi.py:274-290 | an (asset, date) pair is a group iff some record with a non-null `fee_amount` has it |
| FeeSeries.DailyGroupsDistinct | flask_modules/app/wsgi.py:282-286 | at most one row per (asset, date) |
| FeeSeries.RowsSeeded | flask_modules/app/wsgi.py:271-297 | every row's asset was seeded, so, when both queries read the same documents, the append at line 297 never meets a missing key |
| FeeSeries.PointsOfMembership | flask_modules/app/wsgi.py:292-297 | a point is in an asset's unsorted list iff some row of that asset produced it |
| FeeSeries.PointsOfDistinctDates | flask_modules/app/wsgi.py:282-297 | rows with distinct groups give each asset at most one point per date |
| FeeSeries.GraphKeys | flask_modules/app/wsgi.py:271-272 | the graph has a key for exactly the assets in the collection, including those whose series is empty |
| FeeSeries.GraphOrdered | flask_modules/app/wsgi.py:282-300 | every series is strictly ascending by `block_date`, so there is at most one point per day |
| FeeSeries.GraphPoints | flask_modules/app/wsgi.py:274-300 | a point is in an asset's series iff some record of that asset with a non-null fee has its date, with that day's summed fee scaled by 10^-8 |
| OpenOffers.ResolvePair | flask_modules/app/wsgi.py:378-382 | resolves iff `OFFER_WANT` or `WANT_OFFER` is listed; prefers `OFFER_WANT`; the result is always a listed pair in one of the two orientations |
| OpenOffers.ResolveSwapped | flask_modules/app/wsgi.py:378-382 | swapping the offer and want assets preserves resolvability, and the resolved name when only one orientation is listed |
| OpenOffers.Rendered | flask_modules/app/wsgi.py:383-392 | each rendered offer carries its offer's address, amounts and asset names and a listed trade pair |
| OpenOffers.ListedOffers | flask_modules/app/wsgi.py:376-377 | only open offers with a non-null `_id` are kept |
| OpenOffers.ListedOffersMembership | flask_modules/app/wsgi.py:376-377 | an offer is kept iff it occurs in the input with status `open` and a non-null `_id` |
| OpenOffers.OpenOfferList | flask_modules/app/wsgi.py:374-393 | succeeds iff every kept offer's pair resolves, returning the rendered kept offers in query order; otherwise fails with `"Incorrect trade pair - " + WANT_OFFER` of the first unresolvable kept offer |

## Left out

- Flask routing, CORS, the 404 handler, static-file serving, `app.run` and the `json.dumps` encoding of the results. This is framework plumbing.
- Environment and configuration loading, and construction of the `SwitcheoSmartContract` client. This is process setup around a class that is not part of this model.
- The balance, status, block-height, ingested-transaction-count and ingested-fill-count endpoints (the last two at `flask_modules/app/wsgi.py:134-157`), including the `+ 2000000` offset. They pass calls through to RPC and database clients that are not part of this model.
- All queries of one request read one unchanging state of the collection. A record ingested between `distinct` (`flask_modules/app/wsgi.py:271`) and the `$group` pipeline (`flask_modules/app/wsgi.py:274`) could give a row whose asset has no list, and line 297 would then raise `KeyError`. Likewise, the seven per-window pipelines of the amount and count endpoints (`flask_modules/app/wsgi.py:187`, `:238`) are modelled as reading the same records.
- The MongoDB driver and the network. The documents a query returns are method parameters. `find`, `$match`, `$group`, `$sum` and `distinct` are modelled only for the field values used here.
- The clock. `now` is a parameter. The source reads the clock once for `now` and once per rolling window; the anchored windows read no clock. It also reinterprets local time as UTC, so a non-UTC host shifts every rolling start by its UTC offset. The model takes every rolling start as `now − k·86400` with a single `now`. The anchored starts are the UTC midnights 1533081600 (2018-08-01) and 1514764800 (2018-01-01).
- FeesByWindow: the rolling starts do not carry the source's `int(...)` truncation of fractional seconds.
- FeeSeries.ToDisplay: Python's float division by 10^8 is modelled as exact real division, so floating-point rounding is not captured.
- The key order of Python dictionaries and of the store's result rows. Results are Dafny maps. Row order is observable in the sorted lists, in the open-offer listing and in which bad offer is reported. In each of these the model fixes the order of its input sequence.
- Metrics, balances, fee amounts and offer amounts are modelled as unbounded integers. Values of other JSON types, such as floats or strings, and Mongo's skipping of non-numeric values in `$sum` are not modelled.
- A `null` or malformed `rich_list`, which makes the source raise, is not modelled. A document either has a well-formed `rich_list` or has none.
- A missing or `null` `fee_asset_name`, `block_date` or `block_time`, which the store would group or compare as `null`, is not modelled, except that a missing `block_time` never matches a window.
- An embedded leaderboard field that is present but is not a dictionary, on which the source would raise, is not modelled. The model types every embedded map as a dictionary.
- Malformed offer documents. A missing `offer_asset_name`, `want_asset_name`, `maker_address`, `amount_filled`, `offer_amount_fixed8` or `want_amount_fixed8` raises `KeyError` (`flask_modules/app/wsgi.py:378-390`), and a `null` asset name raises `TypeError` on the string concatenation (`flask_modules/app/wsgi.py:378`, `:380`). The model types all of these fields as present and well-typed.
- OpenOffers.OpenOfferList: `exit` ends the worker process. The model returns a `Failure` with the same message and produces no partial listing.
- Burn-address balance reconciliation, a second (taker-burn) fee series merged into the daily graph, and historical backfill: `flask_modules/app/wsgi.py` has none of them.
