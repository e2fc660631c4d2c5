/**
 * Address leaderboards over the `addresses` collection.
 *
 * `SortDicts` inverts the per-address embedded maps (asset -> metric) of one
 * field into per-asset buckets of (address, metric) entries, leaves out the
 * excluded keys and sorts every bucket from the largest metric to the smallest,
 * keeping document order among equal metrics. `RichList` does the same with a
 * single bucket, `"SWTH"`, filled from the `rich_list` field and ranked by its
 * `total`.
 */
module Leaderboards {
  import opened Wrappers
  import opened Sorting

  /** The balances held in an address's `rich_list` field. */
  datatype RichBalance = RichBalance(smartContract: int, onChain: int, total: int)

  /**
   * A document of the `addresses` collection. `dims` holds the embedded
   * asset -> metric maps by field name (`fees_paid`, `takes`, ...): a key that
   * is absent is a missing field, a key mapped to `None` a stored `null`.
   * `richList` is `None` when the document has no `rich_list` field.
   */
  datatype AddressDoc = AddressDoc(
    id: string,
    dims: map<string, Option<map<string, int>>>,
    richList: Option<RichBalance>)

  /** One leaderboard row: the address and its metric for the bucket's asset. */
  datatype Entry = Entry(address: string, metric: int)

  /** One rich-list row. */
  datatype RichEntry = RichEntry(address: string, smartContract: int, onChain: int, total: int)

  /** The asset name under which the rich list is published. */
  const RICH_LIST_ASSET: string := "SWTH"

  /** Per-asset lists of leaderboard rows. */
  type Buckets = map<string, seq<Entry>>

  function MetricOf(e: Entry): int { e.metric }

  function TotalOf(e: RichEntry): int { e.total }

  // ---------------------------------------------------------------------------
  // Specification of sort_dicts
  // ---------------------------------------------------------------------------

  /** The embedded map `d[keyName]`; `None` when missing or null. */
  function Embedded(d: AddressDoc, keyName: string): Option<map<string, int>> {
    if keyName in d.dims then d.dims[keyName] else None
  }

  /**
   * `d` passes the query `{keyName: {'$ne': None}}` and puts an entry into the
   * bucket of `asset`.
   */
  predicate Contributes(d: AddressDoc, keyName: string, exclude: set<string>, asset: string) {
    Embedded(d, keyName).Some? && asset in Embedded(d, keyName).value && asset !in exclude
  }

  /** The assets `d` contributes to. */
  function ContributedAssets(d: AddressDoc, keyName: string, exclude: set<string>): set<string> {
    if Embedded(d, keyName).Some? then Embedded(d, keyName).value.Keys - exclude else {}
  }

  /** The entries for `asset`, in document order, before sorting. */
  function Bucket(docs: seq<AddressDoc>, keyName: string, exclude: set<string>, asset: string): seq<Entry> {
    if docs == [] then []
    else
      var d := docs[|docs| - 1];
      Bucket(docs[..|docs| - 1], keyName, exclude, asset)
        + (if Contributes(d, keyName, exclude, asset) then [Entry(d.id, Embedded(d, keyName).value[asset])] else [])
  }

  /** The assets that some document contributes to. */
  function BucketKeys(docs: seq<AddressDoc>, keyName: string, exclude: set<string>): set<string> {
    if docs == [] then {}
    else BucketKeys(docs[..|docs| - 1], keyName, exclude) + ContributedAssets(docs[|docs| - 1], keyName, exclude)
  }

  /** The number of (matching document, non-excluded key) pairs. */
  function PairCount(docs: seq<AddressDoc>, keyName: string, exclude: set<string>): nat {
    if docs == [] then 0
    else PairCount(docs[..|docs| - 1], keyName, exclude) + |ContributedAssets(docs[|docs| - 1], keyName, exclude)|
  }

  /** The leaderboard: each contributed asset to its bucket ranked by metric, largest first. */
  function Ranking(docs: seq<AddressDoc>, keyName: string, exclude: set<string>): Buckets {
    map a | a in BucketKeys(docs, keyName, exclude) :: SortDescBy(Bucket(docs, keyName, exclude, a), MetricOf)
  }

  // ---------------------------------------------------------------------------
  // sort_dicts
  // ---------------------------------------------------------------------------

  lemma SnocPrefix<T>(s: seq<T>, i: nat)
    requires i < |s|
    ensures s[..i + 1][..i] == s[..i] && s[..i + 1][i] == s[i] && |s[..i + 1]| == i + 1
  {
  }

  /** The bucket of `a` in `m`, empty when `m` has none. */
  function BucketOf(m: Buckets, a: string): seq<Entry> {
    if a in m then m[a] else []
  }

  /** Unfolds the bucket functions at a document appended to a prefix. */
  lemma BucketsSnoc(docs: seq<AddressDoc>, i: nat, keyName: string, exclude: set<string>)
    requires i < |docs|
    ensures BucketKeys(docs[..i + 1], keyName, exclude)
         == BucketKeys(docs[..i], keyName, exclude) + ContributedAssets(docs[i], keyName, exclude)
    ensures PairCount(docs[..i + 1], keyName, exclude)
         == PairCount(docs[..i], keyName, exclude) + |ContributedAssets(docs[i], keyName, exclude)|
    ensures forall a ::
      Bucket(docs[..i + 1], keyName, exclude, a)
        == Bucket(docs[..i], keyName, exclude, a)
           + (if Contributes(docs[i], keyName, exclude, a) then [Entry(docs[i].id, Embedded(docs[i], keyName).value[a])] else [])
  {
    SnocPrefix(docs, i);
  }

  /** `after` is `before` with `row`'s entries appended, as the inner loop of `sort_dicts` leaves it. */
  ghost predicate RowAppended(before: Buckets, after: Buckets, row: AddressDoc, keyName: string, exclude: set<string>) {
    && after.Keys == before.Keys + ContributedAssets(row, keyName, exclude)
    && forall a :: a in after ==>
         after[a] == BucketOf(before, a)
                     + (if Contributes(row, keyName, exclude, a) then [Entry(row.id, Embedded(row, keyName).value[a])] else [])
  }

  /** `grouped` holds the unsorted buckets of `docs`. */
  ghost predicate GroupedUpTo(grouped: Buckets, docs: seq<AddressDoc>, keyName: string, exclude: set<string>) {
    && grouped.Keys == BucketKeys(docs, keyName, exclude)
    && (forall a :: a in grouped ==> grouped[a] == Bucket(docs, keyName, exclude, a))
  }

  lemma GroupedStep(before: Buckets, after: Buckets, docs: seq<AddressDoc>, i: nat, keyName: string, exclude: set<string>)
    requires i < |docs|
    requires GroupedUpTo(before, docs[..i], keyName, exclude)
    requires RowAppended(before, after, docs[i], keyName, exclude)
    ensures GroupedUpTo(after, docs[..i + 1], keyName, exclude)
  {
    BucketsSnoc(docs, i, keyName, exclude);
    forall a | a !in before ensures Bucket(docs[..i], keyName, exclude, a) == [] {
      BucketKeysNonEmpty(docs[..i], keyName, exclude, a);
    }
  }

  /**
   * The inner loop of `sort_dicts` for one document: each non-excluded key of
   * its embedded map appends one entry to that key's bucket, creating the
   * bucket first when it is missing.
   */
  method AppendRow(buckets: Buckets, row: AddressDoc, keyName: string, exclude: set<string>)
    returns (next: Buckets)
    ensures RowAppended(buckets, next, row, keyName, exclude)
  {
    next := buckets;
    var embedded := Embedded(row, keyName);
    if embedded.Some? {
      var metrics := embedded.value;
      var todo := metrics.Keys;
      ghost var added: set<string> := {};
      while todo != {}
        invariant todo <= metrics.Keys
        invariant added == metrics.Keys - todo - exclude
        invariant next.Keys == buckets.Keys + added
        invariant forall a :: a in next ==>
          next[a] == BucketOf(buckets, a) + (if a in added then [Entry(row.id, metrics[a])] else [])
      {
        var asset :| asset in todo;
        todo := todo - {asset};
        if asset !in exclude {
          var entry := Entry(row.id, metrics[asset]);
          if asset !in next {
            next := next[asset := []];
          }
          next := next[asset := next[asset] + [entry]];
          added := added + {asset};
        }
      }
    }
  }

  /** The final loop of `sort_dicts`: every bucket is replaced by its ranked copy. */
  method RankBuckets(grouped: Buckets) returns (buckets: Buckets)
    ensures buckets.Keys == grouped.Keys
    ensures forall a :: a in buckets ==> buckets[a] == SortDescBy(grouped[a], MetricOf)
  {
    buckets := grouped;
    var todo := buckets.Keys;
    while todo != {}
      invariant todo <= buckets.Keys && buckets.Keys == grouped.Keys
      invariant forall a :: a in buckets ==>
        buckets[a] == if a in todo then grouped[a] else SortDescBy(grouped[a], MetricOf)
    {
      var asset :| asset in todo;
      todo := todo - {asset};
      buckets := buckets[asset := SortDescBy(buckets[asset], MetricOf)];
    }
  }

  /**
   * `sort_dicts(collection, key_name, sort_key, exclude_keys)`: the result is
   * the leaderboard `Ranking` (see `RankingSortedStable`, `RankingKeys`,
   * `RankingEntries` and `RankingConservation` for what that promises).
   */
  method SortDicts(collection: seq<AddressDoc>, keyName: string, exclude: set<string>)
    returns (buckets: Buckets)
    ensures buckets == Ranking(collection, keyName, exclude)
  {
    var grouped := map[];
    var i := 0;
    while i < |collection|
      invariant 0 <= i <= |collection|
      invariant GroupedUpTo(grouped, collection[..i], keyName, exclude)
    {
      ghost var before := grouped;
      grouped := AppendRow(grouped, collection[i], keyName, exclude);
      GroupedStep(before, grouped, collection, i, keyName, exclude);
      i := i + 1;
    }
    assert collection[..i] == collection;
    buckets := RankBuckets(grouped);
  }

  // ---------------------------------------------------------------------------
  // Properties of the leaderboard
  // ---------------------------------------------------------------------------

  lemma {:induction false} BucketMembership(docs: seq<AddressDoc>, keyName: string, exclude: set<string>, asset: string, e: Entry)
    ensures e in Bucket(docs, keyName, exclude, asset) <==>
      exists i :: 0 <= i < |docs| && Contributes(docs[i], keyName, exclude, asset)
                  && e == Entry(docs[i].id, Embedded(docs[i], keyName).value[asset])
  {
    if docs != [] {
      var n := |docs| - 1;
      BucketMembership(docs[..n], keyName, exclude, asset, e);
      if e in Bucket(docs[..n], keyName, exclude, asset) {
        var i :| 0 <= i < n && Contributes(docs[..n][i], keyName, exclude, asset)
                 && e == Entry(docs[..n][i].id, Embedded(docs[..n][i], keyName).value[asset]);
        assert docs[..n][i] == docs[i];
      }
      if exists i :: 0 <= i < |docs| && Contributes(docs[i], keyName, exclude, asset)
                  && e == Entry(docs[i].id, Embedded(docs[i], keyName).value[asset]) {
        var i :| 0 <= i < |docs| && Contributes(docs[i], keyName, exclude, asset)
                 && e == Entry(docs[i].id, Embedded(docs[i], keyName).value[asset]);
        if i < n { assert docs[..n][i] == docs[i]; }
      }
    }
  }

  lemma {:induction false} BucketKeysNonEmpty(docs: seq<AddressDoc>, keyName: string, exclude: set<string>, asset: string)
    ensures asset in BucketKeys(docs, keyName, exclude) <==> Bucket(docs, keyName, exclude, asset) != []
    ensures asset in BucketKeys(docs, keyName, exclude) ==> asset !in exclude
  {
    if docs != [] {
      BucketKeysNonEmpty(docs[..|docs| - 1], keyName, exclude, asset);
    }
  }

  /**
   * Every bucket is ranked from the largest metric to the smallest, is a
   * permutation of the entries contributed to it, and keeps document order
   * among entries with equal metrics.
   */
  lemma RankingSortedStable(docs: seq<AddressDoc>, keyName: string, exclude: set<string>)
    ensures forall a :: a in Ranking(docs, keyName, exclude) ==>
      SortedDesc(Ranking(docs, keyName, exclude)[a], MetricOf)
      && multiset(Ranking(docs, keyName, exclude)[a]) == multiset(Bucket(docs, keyName, exclude, a))
    ensures forall a, v :: a in Ranking(docs, keyName, exclude) ==>
      WithKey(Ranking(docs, keyName, exclude)[a], MetricOf, v) == WithKey(Bucket(docs, keyName, exclude, a), MetricOf, v)
  {
    var r := Ranking(docs, keyName, exclude);
    forall a | a in r
      ensures SortedDesc(r[a], MetricOf) && multiset(r[a]) == multiset(Bucket(docs, keyName, exclude, a))
    {
      SortDescSorted(Bucket(docs, keyName, exclude, a), MetricOf);
      SortDescPerm(Bucket(docs, keyName, exclude, a), MetricOf);
    }
    forall a, v | a in r
      ensures WithKey(r[a], MetricOf, v) == WithKey(Bucket(docs, keyName, exclude, a), MetricOf, v)
    {
      SortDescStable(Bucket(docs, keyName, exclude, a), MetricOf, v);
    }
  }

  /** No excluded key is a bucket, and every bucket holds at least one entry. */
  lemma RankingKeys(docs: seq<AddressDoc>, keyName: string, exclude: set<string>)
    ensures forall a :: a in Ranking(docs, keyName, exclude) ==>
      a !in exclude && Ranking(docs, keyName, exclude)[a] != []
  {
    forall a | a in Ranking(docs, keyName, exclude)
      ensures a !in exclude && Ranking(docs, keyName, exclude)[a] != []
    {
      BucketKeysNonEmpty(docs, keyName, exclude, a);
      SortDescPerm(Bucket(docs, keyName, exclude, a), MetricOf);
    }
  }

  /**
   * An entry sits in the bucket of `asset` exactly when some matching document
   * has `asset` among its non-excluded keys, and the entry carries that
   * document's `_id` and its metric for `asset`.
   */
  lemma RankingEntries(docs: seq<AddressDoc>, keyName: string, exclude: set<string>, asset: string, e: Entry)
    ensures (asset in Ranking(docs, keyName, exclude) && e in Ranking(docs, keyName, exclude)[asset]) <==>
      exists i :: 0 <= i < |docs| && Contributes(docs[i], keyName, exclude, asset)
                  && e == Entry(docs[i].id, Embedded(docs[i], keyName).value[asset])
  {
    var b := Bucket(docs, keyName, exclude, asset);
    BucketMembership(docs, keyName, exclude, asset, e);
    BucketKeysNonEmpty(docs, keyName, exclude, asset);
    SortDescPerm(b, MetricOf);
    assert e in SortDescBy(b, MetricOf) <==> e in multiset(SortDescBy(b, MetricOf));
    if e in b {
      assert b != [];
    }
  }

  // ---------------------------------------------------------------------------
  // Conservation: one entry per contributing (document, key) pair
  // ---------------------------------------------------------------------------

  /** The number of entries in the buckets named by `ks`. */
  function EntriesOver(m: Buckets, ks: seq<string>): nat {
    if ks == [] then 0 else EntriesOver(m, ks[..|ks| - 1]) + |BucketOf(m, ks[|ks| - 1])|
  }

  /** The number of unsorted entries of `docs` in the buckets named by `ks`. */
  function BucketSizes(docs: seq<AddressDoc>, keyName: string, exclude: set<string>, ks: seq<string>): nat {
    if ks == [] then 0
    else BucketSizes(docs, keyName, exclude, ks[..|ks| - 1]) + |Bucket(docs, keyName, exclude, ks[|ks| - 1])|
  }

  /** How many names in `ks` belong to `c`. */
  function CountIn(ks: seq<string>, c: set<string>): nat {
    if ks == [] then 0 else CountIn(ks[..|ks| - 1], c) + (if ks[|ks| - 1] in c then 1 else 0)
  }

  lemma {:induction false} CountInSet(ks: seq<string>, c: set<string>)
    requires NoRepeats(ks)
    requires forall k :: k in c ==> k in ks
    ensures CountIn(ks, c) == |c|
  {
    if ks != [] {
      var n := |ks| - 1;
      var last := ks[n];
      var c' := c - {last};
      forall k | k in c' ensures k in ks[..n] {
        var j :| 0 <= j < |ks| && ks[j] == k;
        assert j != n;
        assert ks[..n][j] == k;
      }
      assert NoRepeats(ks[..n]);
      CountInSet(ks[..n], c');
      assert CountIn(ks[..n], c) == CountIn(ks[..n], c') by {
        CountInAgree(ks[..n], c, c', last);
      }
      if last in c { assert c == c' + {last}; } else { assert c == c'; }
    }
  }

  lemma {:induction false} CountInAgree(ks: seq<string>, c: set<string>, c': set<string>, last: string)
    requires last !in ks
    requires c' == c - {last}
    ensures CountIn(ks, c) == CountIn(ks, c')
  {
    if ks != [] {
      CountInAgree(ks[..|ks| - 1], c, c', last);
    }
  }

  lemma {:induction false} BucketSizesSnoc(docs: seq<AddressDoc>, i: nat, keyName: string, exclude: set<string>, ks: seq<string>)
    requires i < |docs|
    ensures BucketSizes(docs[..i + 1], keyName, exclude, ks)
         == BucketSizes(docs[..i], keyName, exclude, ks) + CountIn(ks, ContributedAssets(docs[i], keyName, exclude))
  {
    if ks != [] {
      BucketSizesSnoc(docs, i, keyName, exclude, ks[..|ks| - 1]);
      BucketsSnoc(docs, i, keyName, exclude);
    }
  }

  lemma {:induction false} BucketSizesCount(docs: seq<AddressDoc>, keyName: string, exclude: set<string>, ks: seq<string>)
    requires NoRepeats(ks)
    requires forall k :: k in BucketKeys(docs, keyName, exclude) ==> k in ks
    ensures BucketSizes(docs, keyName, exclude, ks) == PairCount(docs, keyName, exclude)
  {
    if docs == [] {
      BucketSizesEmpty(keyName, exclude, ks);
    } else {
      var n := |docs| - 1;
      assert docs[..n + 1] == docs;
      BucketsSnoc(docs, n, keyName, exclude);
      BucketSizesCount(docs[..n], keyName, exclude, ks);
      BucketSizesSnoc(docs, n, keyName, exclude, ks);
      CountInSet(ks, ContributedAssets(docs[n], keyName, exclude));
    }
  }

  lemma {:induction false} BucketSizesEmpty(keyName: string, exclude: set<string>, ks: seq<string>)
    ensures BucketSizes([], keyName, exclude, ks) == 0
  {
    if ks != [] {
      BucketSizesEmpty(keyName, exclude, ks[..|ks| - 1]);
    }
  }

  lemma {:induction false} RankingSizes(docs: seq<AddressDoc>, keyName: string, exclude: set<string>, ks: seq<string>)
    ensures EntriesOver(Ranking(docs, keyName, exclude), ks) == BucketSizes(docs, keyName, exclude, ks)
  {
    if ks != [] {
      var k := ks[|ks| - 1];
      RankingSizes(docs, keyName, exclude, ks[..|ks| - 1]);
      BucketKeysNonEmpty(docs, keyName, exclude, k);
      SortDescPerm(Bucket(docs, keyName, exclude, k), MetricOf);
    }
  }

  /**
   * Conservation: counted over any listing of the bucket names without
   * repeats, the leaderboard holds exactly one entry per (document with a
   * non-null embedded map, non-excluded key) pair.
   */
  lemma RankingConservation(docs: seq<AddressDoc>, keyName: string, exclude: set<string>, ks: seq<string>)
    requires NoRepeats(ks)
    requires forall k :: k in Ranking(docs, keyName, exclude) ==> k in ks
    ensures EntriesOver(Ranking(docs, keyName, exclude), ks) == PairCount(docs, keyName, exclude)
  {
    RankingSizes(docs, keyName, exclude, ks);
    BucketSizesCount(docs, keyName, exclude, ks);
  }

  /** The `takes` example: NEO ranked A2 (5) before A1 (3); `wants` is excluded. */
  lemma TakesExample()
    ensures Ranking(
      [AddressDoc("A1", map["takes" := Some(map["NEO" := 3, "wants" := 1])], None),
       AddressDoc("A2", map["takes" := Some(map["NEO" := 5])], None)],
      "takes", {"wants", "offers"})
      == map["NEO" := [Entry("A2", 5), Entry("A1", 3)]]
  {
    var d1 := AddressDoc("A1", map["takes" := Some(map["NEO" := 3, "wants" := 1])], None);
    var d2 := AddressDoc("A2", map["takes" := Some(map["NEO" := 5])], None);
    var docs := [d1, d2];
    var ex: set<string> := {"wants", "offers"};
    assert docs[..1] == [d1] && [d1][..0] == [];
    assert Embedded(d1, "takes").value.Keys == {"NEO", "wants"};
    assert ContributedAssets(d1, "takes", ex) == {"NEO"};
    assert ContributedAssets(d2, "takes", ex) == {"NEO"};
    assert BucketKeys([d1], "takes", ex) == {"NEO"};
    assert BucketKeys(docs, "takes", ex) == {"NEO"};
    assert Bucket([d1], "takes", ex, "NEO") == [Entry("A1", 3)];
    assert Bucket(docs, "takes", ex, "NEO") == [Entry("A1", 3), Entry("A2", 5)];
    var b := [Entry("A1", 3), Entry("A2", 5)];
    assert b[1..] == [Entry("A2", 5)] && b[1..][1..] == [];
    assert SortDescBy([Entry("A2", 5)], MetricOf) == [Entry("A2", 5)];
    assert InsertDesc(Entry("A1", 3), [Entry("A2", 5)], MetricOf) == [Entry("A2", 5), Entry("A1", 3)];
    assert SortDescBy(b, MetricOf) == [Entry("A2", 5), Entry("A1", 3)];
  }

  // ---------------------------------------------------------------------------
  // Rich list
  // ---------------------------------------------------------------------------

  /** The rich-list rows of the documents that have a `rich_list` field, in document order. */
  function RichEntries(docs: seq<AddressDoc>): seq<RichEntry> {
    if docs == [] then []
    else
      var d := docs[|docs| - 1];
      RichEntries(docs[..|docs| - 1])
        + (match d.richList
           case Some(b) => [RichEntry(d.id, b.smartContract, b.onChain, b.total)]
           case None => [])
  }

  /** The rich list: no key when nobody qualifies, otherwise `"SWTH"` to the rows ranked by total. */
  function RichListing(docs: seq<AddressDoc>): map<string, seq<RichEntry>> {
    if RichEntries(docs) == [] then map[]
    else map[RICH_LIST_ASSET := SortDescBy(RichEntries(docs), TotalOf)]
  }

  /** `get_switcheo_richlist` without the JSON encoding. */
  method RichList(addresses: seq<AddressDoc>) returns (richlist: map<string, seq<RichEntry>>)
    ensures richlist == RichListing(addresses)
  {
    richlist := map[];
    var i := 0;
    while i < |addresses|
      invariant 0 <= i <= |addresses|
      invariant richlist.Keys <= {RICH_LIST_ASSET}
      invariant RICH_LIST_ASSET in richlist <==> RichEntries(addresses[..i]) != []
      invariant RICH_LIST_ASSET in richlist ==> richlist[RICH_LIST_ASSET] == RichEntries(addresses[..i])
    {
      var address := addresses[i];
      SnocPrefix(addresses, i);
      if address.richList.Some? {
        var b := address.richList.value;
        var row := RichEntry(address.id, b.smartContract, b.onChain, b.total);
        assert RichEntries(addresses[..i + 1]) == RichEntries(addresses[..i]) + [row];
        if RICH_LIST_ASSET !in richlist {
          richlist := richlist[RICH_LIST_ASSET := []];
        }
        richlist := richlist[RICH_LIST_ASSET := richlist[RICH_LIST_ASSET] + [row]];
      }
      i := i + 1;
    }
    assert addresses[..i] == addresses;
    if RICH_LIST_ASSET in richlist {
      richlist := richlist[RICH_LIST_ASSET := SortDescBy(richlist[RICH_LIST_ASSET], TotalOf)];
    }
  }

  lemma {:induction false} RichEntriesMembership(docs: seq<AddressDoc>, e: RichEntry)
    ensures e in RichEntries(docs) <==>
      exists i :: 0 <= i < |docs| && docs[i].richList.Some?
                  && e == RichEntry(docs[i].id, docs[i].richList.value.smartContract,
                                    docs[i].richList.value.onChain, docs[i].richList.value.total)
  {
    if docs != [] {
      var n := |docs| - 1;
      RichEntriesMembership(docs[..n], e);
      if e in RichEntries(docs[..n]) {
        var i :| 0 <= i < n && docs[..n][i].richList.Some?
                 && e == RichEntry(docs[..n][i].id, docs[..n][i].richList.value.smartContract,
                                   docs[..n][i].richList.value.onChain, docs[..n][i].richList.value.total);
        assert docs[..n][i] == docs[i];
      }
      if exists i :: 0 <= i < |docs| && docs[i].richList.Some?
                  && e == RichEntry(docs[i].id, docs[i].richList.value.smartContract,
                                    docs[i].richList.value.onChain, docs[i].richList.value.total) {
        var i :| 0 <= i < |docs| && docs[i].richList.Some?
                 && e == RichEntry(docs[i].id, docs[i].richList.value.smartContract,
                                   docs[i].richList.value.onChain, docs[i].richList.value.total);
        if i < n { assert docs[..n][i] == docs[i]; }
      }
    }
  }

  /**
   * The rich list has the single key `"SWTH"` exactly when some document has a
   * `rich_list` field; that bucket holds one row per such document and is
   * ranked by total, largest first, with ties in document order.
   */
  lemma RichListShape(docs: seq<AddressDoc>)
    ensures RichListing(docs).Keys <= {RICH_LIST_ASSET}
    ensures RICH_LIST_ASSET in RichListing(docs) <==> exists i :: 0 <= i < |docs| && docs[i].richList.Some?
    ensures RICH_LIST_ASSET in RichListing(docs) ==>
      var ranked := RichListing(docs)[RICH_LIST_ASSET];
      SortedDesc(ranked, TotalOf)
      && multiset(ranked) == multiset(RichEntries(docs))
      && forall v :: WithKey(ranked, TotalOf, v) == WithKey(RichEntries(docs), TotalOf, v)
  {
    var entries := RichEntries(docs);
    if exists i :: 0 <= i < |docs| && docs[i].richList.Some? {
      var i :| 0 <= i < |docs| && docs[i].richList.Some?;
      var b := docs[i].richList.value;
      RichEntriesMembership(docs, RichEntry(docs[i].id, b.smartContract, b.onChain, b.total));
    }
    if entries != [] {
      RichEntriesMembership(docs, entries[0]);
      SortDescSorted(entries, TotalOf);
      SortDescPerm(entries, TotalOf);
      forall v ensures WithKey(SortDescBy(entries, TotalOf), TotalOf, v) == WithKey(entries, TotalOf, v) {
        SortDescStable(entries, TotalOf, v);
      }
    }
  }
}
