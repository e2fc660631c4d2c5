/**
 * Per-window fee totals and fee counts. For one window `[start, end]` the store's
 * pipeline keeps the fee records with a non-null `fee_amount` and
 * `start <= block_time <= end` (both bounds inclusive), groups them by
 * `fee_asset_name`, and reduces each group either to the sum of `fee_amount`
 * or to the number of records. The endpoint copies the pipeline's rows into a
 * dictionary, once per window of the catalog.
 */
module FeeAggregation {
  import opened Wrappers
  import opened TimeWindows
  import opened Sorting

  /** A document of the `fees` collection, reduced to the fields these endpoints read. */
  datatype FeeRecord = FeeRecord(
    feeAssetName: string,
    feeAmount: Option<int>,
    blockTime: Option<int>,
    blockDate: string)

  /** The `$sum` operand: `'$fee_amount'` for the amount endpoint, `1` for the count endpoint. */
  datatype Reducer = SumFeeAmount | CountRecords

  /** One row of the `$group` stage's output. */
  datatype GroupRow = GroupRow(asset: string, total: int)

  /** The `$match` stage: `fee_amount` present and non-null, `block_time` within `[start, end]`. */
  predicate InWindow(r: FeeRecord, start: int, end: int) {
    r.feeAmount.Some? && r.blockTime.Some? && start <= r.blockTime.value <= end
  }

  predicate MatchesAsset(r: FeeRecord, start: int, end: int, asset: string) {
    InWindow(r, start, end) && r.feeAssetName == asset
  }

  /** What one matching record adds to its group. */
  function Contribution(r: FeeRecord, red: Reducer): int
    requires r.feeAmount.Some?
  {
    match red
    case SumFeeAmount => r.feeAmount.value
    case CountRecords => 1
  }

  /** The reduced value of the group of `asset`: the contributions of its matching records. */
  function GroupTotal(records: seq<FeeRecord>, start: int, end: int, red: Reducer, asset: string): int
    decreases |records|
  {
    if records == [] then 0
    else
      var last := records[|records| - 1];
      GroupTotal(records[..|records| - 1], start, end, red, asset)
        + (if MatchesAsset(last, start, end, asset) then Contribution(last, red) else 0)
  }

  /** The group keys: the assets of the matching records, each once, in order of first appearance. */
  function GroupKeys(records: seq<FeeRecord>, start: int, end: int): seq<string>
    decreases |records|
  {
    if records == [] then []
    else
      var prev := GroupKeys(records[..|records| - 1], start, end);
      var last := records[|records| - 1];
      if InWindow(last, start, end) && last.feeAssetName !in prev then prev + [last.feeAssetName]
      else prev
  }

  /** The rows the pipeline yields: one per group, carrying the group's reduced value. */
  function PipelineRows(records: seq<FeeRecord>, start: int, end: int, red: Reducer): (rows: seq<GroupRow>)
    ensures |rows| == |GroupKeys(records, start, end)|
    ensures forall i :: 0 <= i < |rows| ==> rows[i].asset == GroupKeys(records, start, end)[i]
  {
    var ks := GroupKeys(records, start, end);
    seq(|ks|, i requires 0 <= i < |ks| => GroupRow(ks[i], GroupTotal(records, start, end, red, ks[i])))
  }

  /** The dictionary of one window: every group key sent to its group's reduced value. */
  function Aggregate(records: seq<FeeRecord>, start: int, end: int, red: Reducer): map<string, int> {
    map a | a in GroupKeys(records, start, end) :: GroupTotal(records, start, end, red, a)
  }

  /** Every asset of `m1` is in `m2`, with a value at least as large. */
  predicate Dominated(m1: map<string, int>, m2: map<string, int>) {
    m1.Keys <= m2.Keys && forall a :: a in m1 ==> m1[a] <= m2[a]
  }

  predicate NonNegativeFees(records: seq<FeeRecord>) {
    forall i :: 0 <= i < |records| && records[i].feeAmount.Some? ==> records[i].feeAmount.value >= 0
  }

  // ---------------------------------------------------------------------------
  // The endpoints' loops
  // ---------------------------------------------------------------------------

  /** The inner loop: copies the pipeline's rows for one window into `fee_asset_dict`. */
  method WindowTotals(records: seq<FeeRecord>, start: int, end: int, red: Reducer)
    returns (totals: map<string, int>)
    ensures totals == Aggregate(records, start, end, red)
  {
    var rows := PipelineRows(records, start, end, red);
    ghost var ks := GroupKeys(records, start, end);
    totals := map[];
    for i := 0 to |rows|
      invariant totals.Keys == set j | 0 <= j < i :: ks[j]
      invariant forall a :: a in totals ==> totals[a] == GroupTotal(records, start, end, red, a)
    {
      totals := totals[rows[i].asset := rows[i].total];
    }
    assert forall a :: a in ks ==> a in totals by {
      forall a | a in ks ensures a in totals {
        var j :| 0 <= j < |ks| && ks[j] == a;
      }
    }
  }

  /**
   * `get_switcheo_fee_amount` (with `SumFeeAmount`) and `get_switcheo_fee_count`
   * (with `CountRecords`): one dictionary per window of the catalog, each window
   * ending at `now`.
   */
  method FeesByWindow(records: seq<FeeRecord>, now: int, red: Reducer)
    returns (fees: map<WindowName, map<string, int>>)
    ensures forall w: WindowName :: w in fees
    ensures forall w :: w in fees ==> fees[w] == Aggregate(records, StartOf(w, now), now, red)
  {
    var catalog := Catalog(now);
    fees := map[];
    for i := 0 to |catalog|
      invariant fees.Keys == set j | 0 <= j < i :: catalog[j].name
      invariant forall w :: w in fees ==> fees[w] == Aggregate(records, StartOf(w, now), now, red)
    {
      var window := catalog[i];
      var totals := WindowTotals(records, window.start, window.end, red);
      fees := fees[window.name := totals];
    }
    forall w: WindowName ensures w in fees {
      assert catalog[CatalogIndex(w)].name == w;
    }
  }

  // ---------------------------------------------------------------------------
  // Properties of the pipeline
  // ---------------------------------------------------------------------------

  /** An asset is a group key exactly when at least one record of it matches. */
  lemma {:induction false} GroupKeysMembership(records: seq<FeeRecord>, start: int, end: int, asset: string)
    ensures asset in GroupKeys(records, start, end)
        <==> exists i :: 0 <= i < |records| && MatchesAsset(records[i], start, end, asset)
  {
    if records != [] {
      var init := records[..|records| - 1];
      GroupKeysMembership(init, start, end, asset);
      if exists i :: 0 <= i < |init| && MatchesAsset(init[i], start, end, asset) {
        var i :| 0 <= i < |init| && MatchesAsset(init[i], start, end, asset);
        assert records[i] == init[i];
      }
      if exists i :: 0 <= i < |records| && MatchesAsset(records[i], start, end, asset) {
        var i :| 0 <= i < |records| && MatchesAsset(records[i], start, end, asset);
        if i < |init| { assert init[i] == records[i]; }
      }
      var k := |records| - 1;
      if MatchesAsset(records[k], start, end, asset) {
        assert exists i :: 0 <= i < |records| && MatchesAsset(records[i], start, end, asset);
      }
    }
  }

  /** The pipeline yields at most one row per asset. */
  lemma {:induction false} GroupKeysDistinct(records: seq<FeeRecord>, start: int, end: int)
    ensures NoRepeats(GroupKeys(records, start, end))
  {
    if records != [] {
      var prev := GroupKeys(records[..|records| - 1], start, end);
      GroupKeysDistinct(records[..|records| - 1], start, end);
      var last := records[|records| - 1];
      if InWindow(last, start, end) && last.feeAssetName !in prev {
        var ks := prev + [last.feeAssetName];
        forall i, j | 0 <= i < j < |ks| ensures ks[i] != ks[j] {
          assert ks[i] == prev[i];
          if j == |prev| { assert ks[j] == last.feeAssetName && prev[i] in prev; }
          else { assert ks[j] == prev[j]; }
        }
      }
    }
  }

  /**
   * An asset is in a window's dictionary exactly when some record of it has a
   * non-null amount and a block time inside the window; assets without such a
   * record are absent rather than mapped to zero.
   */
  lemma AggregateKeys(records: seq<FeeRecord>, start: int, end: int, red: Reducer, asset: string)
    ensures asset in Aggregate(records, start, end, red)
        <==> exists i :: 0 <= i < |records| && records[i].feeAssetName == asset
               && records[i].feeAmount.Some? && records[i].blockTime.Some?
               && start <= records[i].blockTime.value <= end
  {
    GroupKeysMembership(records, start, end, asset);
  }

  /**
   * The `$group` output: no two rows share an asset, an asset has a row
   * exactly when some record of it matches the window, and that row carries
   * the asset's reduced value.
   */
  lemma PipelineRowsCover(records: seq<FeeRecord>, start: int, end: int, red: Reducer, asset: string)
    ensures var rows := PipelineRows(records, start, end, red);
      && (forall i, j :: 0 <= i < j < |rows| ==> rows[i].asset != rows[j].asset)
      && ((exists j :: 0 <= j < |rows| && rows[j].asset == asset)
          <==> exists k :: 0 <= k < |records| && MatchesAsset(records[k], start, end, asset))
      && forall j :: 0 <= j < |rows| && rows[j].asset == asset
           ==> rows[j].total == GroupTotal(records, start, end, red, asset)
  {
    var rows := PipelineRows(records, start, end, red);
    var ks := GroupKeys(records, start, end);
    GroupKeysMembership(records, start, end, asset);
    GroupKeysDistinct(records, start, end);
    if asset in ks {
      var j :| 0 <= j < |ks| && ks[j] == asset;
      assert rows[j].asset == asset;
    }
  }

  /** Every group counts at least one record. */
  lemma {:induction false} GroupCountPositive(records: seq<FeeRecord>, start: int, end: int, asset: string)
    requires asset in GroupKeys(records, start, end)
    ensures GroupTotal(records, start, end, CountRecords, asset) >= 1
  {
    var init := records[..|records| - 1];
    if asset in GroupKeys(init, start, end) {
      GroupCountPositive(init, start, end, asset);
      GroupCountNonNegative(init, start, end, asset);
    } else {
      GroupCountNonNegative(init, start, end, asset);
    }
  }

  lemma {:induction false} GroupCountNonNegative(records: seq<FeeRecord>, start: int, end: int, asset: string)
    ensures GroupTotal(records, start, end, CountRecords, asset) >= 0
  {
    if records != [] {
      GroupCountNonNegative(records[..|records| - 1], start, end, asset);
    }
  }

  /**
   * The amount dictionary and the count dictionary of a window have the same
   * assets, and every count in it is at least one.
   */
  lemma CountMatchesAmount(records: seq<FeeRecord>, start: int, end: int)
    ensures Aggregate(records, start, end, SumFeeAmount).Keys == Aggregate(records, start, end, CountRecords).Keys
    ensures forall a :: a in Aggregate(records, start, end, CountRecords)
              ==> Aggregate(records, start, end, CountRecords)[a] >= 1
  {
    forall a | a in Aggregate(records, start, end, CountRecords)
      ensures Aggregate(records, start, end, CountRecords)[a] >= 1
    {
      GroupCountPositive(records, start, end, a);
    }
  }

  /** Widening a window never lowers a group's value when every contribution is non-negative. */
  lemma {:induction false} GroupTotalMonotone(records: seq<FeeRecord>, start1: int, start2: int, end: int,
                                              red: Reducer, asset: string)
    requires start2 <= start1
    requires red == CountRecords || NonNegativeFees(records)
    ensures GroupTotal(records, start1, end, red, asset) <= GroupTotal(records, start2, end, red, asset)
  {
    if records != [] {
      var init := records[..|records| - 1];
      assert red == CountRecords || NonNegativeFees(init) by {
        if red == SumFeeAmount {
          forall i | 0 <= i < |init| && init[i].feeAmount.Some? ensures init[i].feeAmount.value >= 0 {
            assert init[i] == records[i];
          }
        }
      }
      GroupTotalMonotone(init, start1, start2, end, red, asset);
    }
  }

  /**
   * A window starting no earlier than another (same end) yields a dictionary
   * dominated by the other's: fewer assets, each with a sum (non-negative
   * amounts) or a count no larger.
   */
  lemma WindowsNested(records: seq<FeeRecord>, start1: int, start2: int, end: int, red: Reducer)
    requires start2 <= start1
    requires red == CountRecords || NonNegativeFees(records)
    ensures Dominated(Aggregate(records, start1, end, red), Aggregate(records, start2, end, red))
  {
    var m1 := Aggregate(records, start1, end, red);
    var m2 := Aggregate(records, start2, end, red);
    forall a | a in m1 ensures a in m2 && m1[a] <= m2[a] {
      GroupKeysMembership(records, start1, end, a);
      GroupKeysMembership(records, start2, end, a);
      GroupTotalMonotone(records, start1, start2, end, red, a);
    }
  }

  /**
   * Across the catalog: a rolling window reaching back fewer days is dominated
   * by one reaching back more (day, week, thirty, sixty, ninety), and the
   * August 2018 window by the January 2018 window.
   */
  lemma CatalogNested(records: seq<FeeRecord>, now: int, red: Reducer, w1: WindowName, w2: WindowName)
    requires (IsRolling(w1) && IsRolling(w2) && RollingDays(w1) <= RollingDays(w2))
          || (w1 == August && w2 == January)
    requires red == CountRecords || NonNegativeFees(records)
    ensures Dominated(Aggregate(records, StartOf(w1, now), now, red), Aggregate(records, StartOf(w2, now), now, red))
  {
    CatalogOrder(now);
    WindowsNested(records, StartOf(w1, now), StartOf(w2, now), now, red);
  }

  /**
   * Two SWTH fees, of 10^8 one hour ago and of 5 * 10^7 seven days and one hour
   * ago: the day and week windows see only the first, the thirty-day window both.
   */
  lemma TwoFeesExample(now: int)
    ensures var records := [
        FeeRecord("SWTH", Some(100000000), Some(now - 3600), "d1"),
        FeeRecord("SWTH", Some(50000000), Some(now - 7 * 86400 - 3600), "d2")];
      && Aggregate(records, StartOf(Day, now), now, SumFeeAmount) == map["SWTH" := 100000000]
      && Aggregate(records, StartOf(Week, now), now, SumFeeAmount) == map["SWTH" := 100000000]
      && Aggregate(records, StartOf(Thirty, now), now, SumFeeAmount) == map["SWTH" := 150000000]
  {
    var r1 := FeeRecord("SWTH", Some(100000000), Some(now - 3600), "d1");
    var r2 := FeeRecord("SWTH", Some(50000000), Some(now - 7 * 86400 - 3600), "d2");
    var records := [r1, r2];
    assert records[..1] == [r1];
    assert [r1][..0] == [];
    var day, week, thirty := StartOf(Day, now), StartOf(Week, now), StartOf(Thirty, now);
    assert GroupKeys([r1], day, now) == ["SWTH"];
    assert GroupKeys([r1], week, now) == ["SWTH"];
    assert GroupKeys([r1], thirty, now) == ["SWTH"];
    assert GroupTotal([r1], day, now, SumFeeAmount, "SWTH") == 100000000;
    assert GroupTotal([r1], week, now, SumFeeAmount, "SWTH") == 100000000;
    assert GroupTotal([r1], thirty, now, SumFeeAmount, "SWTH") == 100000000;
    assert GroupKeys(records, day, now) == ["SWTH"];
    assert GroupKeys(records, week, now) == ["SWTH"];
    assert GroupKeys(records, thirty, now) == ["SWTH"];
  }
}
