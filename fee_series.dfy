/**
 * The daily fee graph: one series per fee asset, one point per day on which
 * the asset collected a non-null fee, the day's summed amount scaled from
 * 8-decimal fixed point to display units, each series ordered by its ISO date
 * string. Every asset of the collection gets a key, even one whose series is
 * empty.
 */
module FeeSeries {
  import opened Wrappers
  import opened Sorting
  import opened FeeAggregation

  /** The `_id` of one `$group` row: an asset and a `block_date`. */
  datatype DayGroup = DayGroup(asset: string, date: string)

  /** One row of the `$group` stage: a group and its summed raw `fee_amount`. */
  datatype DailyRow = DailyRow(asset: string, date: string, total: int)

  /** One point of a series, `{block_date, fee_amount}` with the amount in display units. */
  datatype Point = Point(blockDate: string, feeAmount: real)

  const FIXED8_SCALE: real := 100000000.0

  /** Fixed-point raw amount to display units; multiplying back by 10^8 recovers the raw amount. */
  function ToDisplay(raw: int): (v: real)
    ensures v * FIXED8_SCALE == raw as real
  {
    raw as real / FIXED8_SCALE
  }

  function DateOf(p: Point): string {
    p.blockDate
  }

  function GroupOf(r: FeeRecord): DayGroup {
    DayGroup(r.feeAssetName, r.blockDate)
  }

  function RowPoint(row: DailyRow): Point {
    Point(row.date, ToDisplay(row.total))
  }

  /** The `distinct("fee_asset_name")` query: every asset of the collection, each once. */
  function DistinctAssets(records: seq<FeeRecord>): seq<string>
    decreases |records|
  {
    if records == [] then []
    else
      var prev := DistinctAssets(records[..|records| - 1]);
      var last := records[|records| - 1];
      if last.feeAssetName in prev then prev else prev + [last.feeAssetName]
  }

  /** The groups of the records with a non-null `fee_amount`, each once, in order of first appearance. */
  function DailyGroups(records: seq<FeeRecord>): seq<DayGroup>
    decreases |records|
  {
    if records == [] then []
    else
      var prev := DailyGroups(records[..|records| - 1]);
      var last := records[|records| - 1];
      if last.feeAmount.Some? && GroupOf(last) !in prev then prev + [GroupOf(last)] else prev
  }

  /** The raw sum of `fee_amount` over the records of group `g` with a non-null amount. */
  function DailyTotal(records: seq<FeeRecord>, g: DayGroup): int
    decreases |records|
  {
    if records == [] then 0
    else
      var last := records[|records| - 1];
      DailyTotal(records[..|records| - 1], g)
        + (if last.feeAmount.Some? && GroupOf(last) == g then last.feeAmount.value else 0)
  }

  /** The rows the pipeline yields, one per group. */
  function DailyRows(records: seq<FeeRecord>): (rows: seq<DailyRow>)
    ensures |rows| == |DailyGroups(records)|
    ensures forall j :: 0 <= j < |rows| ==> DayGroup(rows[j].asset, rows[j].date) == DailyGroups(records)[j]
  {
    var gs := DailyGroups(records);
    seq(|gs|, j requires 0 <= j < |gs| => DailyRow(gs[j].asset, gs[j].date, DailyTotal(records, gs[j])))
  }

  /** The points appended to the list of `asset`, in the order of `rows`. */
  function PointsOf(rows: seq<DailyRow>, asset: string): seq<Point>
    decreases |rows|
  {
    if rows == [] then []
    else
      var last := rows[|rows| - 1];
      PointsOf(rows[..|rows| - 1], asset) + (if last.asset == asset then [RowPoint(last)] else [])
  }

  /** The series of `asset` once sorted by date. */
  function Series(records: seq<FeeRecord>, asset: string): seq<Point> {
    SortAscBy(PointsOf(DailyRows(records), asset), DateOf)
  }

  /** The graph: every asset of the collection sent to its sorted series. */
  function FeeGraph(records: seq<FeeRecord>): map<string, seq<Point>> {
    map a | a in DistinctAssets(records) :: Series(records, a)
  }

  ghost predicate DistinctGroups(rows: seq<DailyRow>) {
    forall i, j :: 0 <= i < j < |rows| ==> DayGroup(rows[i].asset, rows[i].date) != DayGroup(rows[j].asset, rows[j].date)
  }

  // ---------------------------------------------------------------------------
  // The endpoint
  // ---------------------------------------------------------------------------

  /**
   * `get_switcheo_fee_amount_graph`: seeds an empty list for every asset,
   * appends one point per pipeline row to its asset's list, then sorts every
   * list by date.
   */
  method FeeAmountGraph(records: seq<FeeRecord>) returns (graph: map<string, seq<Point>>)
    ensures graph == FeeGraph(records)
  {
    var assets := DistinctAssets(records);
    var seeded := SeedSeries(assets);
    var rows := DailyRows(records);
    RowsSeeded(records);
    var appended := AppendPoints(seeded, rows);
    forall a | a in appended
      ensures appended[a] == PointsOf(rows, a)
    {
      assert seeded[a] == [];
    }
    graph := SortSeries(appended);
  }

  /** The first loop: an empty list under every asset. */
  method SeedSeries(assets: seq<string>) returns (graph: map<string, seq<Point>>)
    ensures forall a :: a in graph <==> a in assets
    ensures forall a :: a in graph ==> graph[a] == []
  {
    graph := map[];
    for i := 0 to |assets|
      invariant forall a :: a in graph <==> a in assets[..i]
      invariant forall a :: a in graph ==> graph[a] == []
    {
      graph := graph[assets[i] := []];
    }
    assert assets[..|assets|] == assets;
  }

  /** The second loop: appends each row's point to the list of its asset, which must already exist. */
  method AppendPoints(seeded: map<string, seq<Point>>, rows: seq<DailyRow>) returns (graph: map<string, seq<Point>>)
    requires forall j :: 0 <= j < |rows| ==> rows[j].asset in seeded
    ensures graph.Keys == seeded.Keys
    ensures forall a :: a in graph ==> graph[a] == seeded[a] + PointsOf(rows, a)
  {
    graph := seeded;
    for i := 0 to |rows|
      invariant graph.Keys == seeded.Keys
      invariant forall a :: a in graph ==> graph[a] == seeded[a] + PointsOf(rows[..i], a)
    {
      var row := rows[i];
      assert rows[..i + 1][..i] == rows[..i];
      graph := graph[row.asset := graph[row.asset] + [RowPoint(row)]];
    }
    assert rows[..|rows|] == rows;
  }

  /** The third loop: replaces every list by its copy sorted by date. */
  method SortSeries(unsorted: map<string, seq<Point>>) returns (graph: map<string, seq<Point>>)
    ensures graph.Keys == unsorted.Keys
    ensures forall a :: a in graph ==> graph[a] == SortAscBy(unsorted[a], DateOf)
  {
    graph := unsorted;
    var pending := graph.Keys;
    while pending != {}
      invariant graph.Keys == unsorted.Keys && pending <= unsorted.Keys
      invariant forall a :: a in graph ==> graph[a] == if a in pending then unsorted[a] else SortAscBy(unsorted[a], DateOf)
      decreases |pending|
    {
      var a :| a in pending;
      graph := graph[a := SortAscBy(graph[a], DateOf)];
      pending := pending - {a};
    }
  }

  // ---------------------------------------------------------------------------
  // Properties
  // ---------------------------------------------------------------------------

  lemma {:induction false} DistinctAssetsMembership(records: seq<FeeRecord>, asset: string)
    ensures asset in DistinctAssets(records) <==> exists i :: 0 <= i < |records| && records[i].feeAssetName == asset
  {
    if records != [] {
      var init := records[..|records| - 1];
      DistinctAssetsMembership(init, asset);
      if exists i :: 0 <= i < |init| && init[i].feeAssetName == asset {
        var i :| 0 <= i < |init| && init[i].feeAssetName == asset;
        assert records[i] == init[i];
      }
      if exists i :: 0 <= i < |records| && records[i].feeAssetName == asset {
        var i :| 0 <= i < |records| && records[i].feeAssetName == asset;
        if i < |init| { assert init[i] == records[i]; }
      }
    }
  }

  lemma {:induction false} DailyGroupsMembership(records: seq<FeeRecord>, g: DayGroup)
    ensures g in DailyGroups(records)
        <==> exists i :: 0 <= i < |records| && records[i].feeAmount.Some? && GroupOf(records[i]) == g
  {
    if records != [] {
      var init := records[..|records| - 1];
      DailyGroupsMembership(init, g);
      if exists i :: 0 <= i < |init| && init[i].feeAmount.Some? && GroupOf(init[i]) == g {
        var i :| 0 <= i < |init| && init[i].feeAmount.Some? && GroupOf(init[i]) == g;
        assert records[i] == init[i];
      }
      if exists i :: 0 <= i < |records| && records[i].feeAmount.Some? && GroupOf(records[i]) == g {
        var i :| 0 <= i < |records| && records[i].feeAmount.Some? && GroupOf(records[i]) == g;
        if i < |init| { assert init[i] == records[i]; }
      }
    }
  }

  lemma {:induction false} DailyGroupsDistinct(records: seq<FeeRecord>)
    ensures NoRepeats(DailyGroups(records))
  {
    if records != [] {
      var prev := DailyGroups(records[..|records| - 1]);
      DailyGroupsDistinct(records[..|records| - 1]);
      var last := records[|records| - 1];
      if last.feeAmount.Some? && GroupOf(last) !in prev {
        var gs := prev + [GroupOf(last)];
        forall i, j | 0 <= i < j < |gs| ensures gs[i] != gs[j] {
          assert gs[i] == prev[i];
          if j == |prev| { assert gs[j] == GroupOf(last) && prev[i] in prev; }
          else { assert gs[j] == prev[j]; }
        }
      }
    }
  }

  /**
   * The `$group` output: no two rows share an (asset, date) group, a group has
   * a row exactly when some record of it has a non-null `fee_amount`, and that
   * row carries the group's summed raw amount.
   */
  lemma DailyRowsCover(records: seq<FeeRecord>, g: DayGroup)
    ensures DistinctGroups(DailyRows(records))
    ensures var rows := DailyRows(records);
      && ((exists j :: 0 <= j < |rows| && DayGroup(rows[j].asset, rows[j].date) == g)
          <==> exists k :: 0 <= k < |records| && records[k].feeAmount.Some? && GroupOf(records[k]) == g)
      && forall j :: 0 <= j < |rows| && DayGroup(rows[j].asset, rows[j].date) == g
           ==> rows[j].total == DailyTotal(records, g)
  {
    var rows := DailyRows(records);
    var gs := DailyGroups(records);
    DailyGroupsDistinct(records);
    DailyGroupsMembership(records, g);
    forall i, j | 0 <= i < j < |rows|
      ensures DayGroup(rows[i].asset, rows[i].date) != DayGroup(rows[j].asset, rows[j].date)
    {
      assert gs[i] != gs[j];
    }
    if g in gs {
      var j :| 0 <= j < |gs| && gs[j] == g;
      assert DayGroup(rows[j].asset, rows[j].date) == g;
    }
  }

  /** Every row's asset was seeded: appending never meets a missing key. */
  lemma RowsSeeded(records: seq<FeeRecord>)
    ensures forall j :: 0 <= j < |DailyRows(records)| ==> DailyRows(records)[j].asset in DistinctAssets(records)
  {
    var rows := DailyRows(records);
    forall j | 0 <= j < |rows| ensures rows[j].asset in DistinctAssets(records) {
      var g := DailyGroups(records)[j];
      DailyGroupsMembership(records, g);
      var i :| 0 <= i < |records| && records[i].feeAmount.Some? && GroupOf(records[i]) == g;
      DistinctAssetsMembership(records, rows[j].asset);
    }
  }

  lemma {:induction false} PointsOfMembership(rows: seq<DailyRow>, asset: string, p: Point)
    ensures p in PointsOf(rows, asset)
        <==> exists j :: 0 <= j < |rows| && rows[j].asset == asset && RowPoint(rows[j]) == p
  {
    if rows != [] {
      var init := rows[..|rows| - 1];
      PointsOfMembership(init, asset, p);
      if exists j :: 0 <= j < |init| && init[j].asset == asset && RowPoint(init[j]) == p {
        var j :| 0 <= j < |init| && init[j].asset == asset && RowPoint(init[j]) == p;
        assert rows[j] == init[j];
      }
      if exists j :: 0 <= j < |rows| && rows[j].asset == asset && RowPoint(rows[j]) == p {
        var j :| 0 <= j < |rows| && rows[j].asset == asset && RowPoint(rows[j]) == p;
        if j < |init| { assert init[j] == rows[j]; }
      }
    }
  }

  /** Rows with pairwise different groups give each asset at most one point per date. */
  lemma {:induction false} PointsOfDistinctDates(rows: seq<DailyRow>, asset: string)
    requires DistinctGroups(rows)
    ensures DistinctKeys(PointsOf(rows, asset), DateOf)
  {
    if rows != [] {
      var init := rows[..|rows| - 1];
      var last := rows[|rows| - 1];
      assert DistinctGroups(init) by {
        forall i, j | 0 <= i < j < |init|
          ensures DayGroup(init[i].asset, init[i].date) != DayGroup(init[j].asset, init[j].date)
        {
          assert init[i] == rows[i] && init[j] == rows[j];
        }
      }
      PointsOfDistinctDates(init, asset);
      var prev := PointsOf(init, asset);
      if last.asset == asset {
        var ps := prev + [RowPoint(last)];
        forall k | 0 <= k < |prev| ensures DateOf(prev[k]) != last.date {
          PointsOfMembership(init, asset, prev[k]);
          var j :| 0 <= j < |init| && init[j].asset == asset && RowPoint(init[j]) == prev[k];
          assert rows[j] == init[j];
        }
        forall i, j | 0 <= i < j < |ps| ensures DateOf(ps[i]) != DateOf(ps[j]) {
          assert ps[i] == prev[i];
          if j < |prev| { assert ps[j] == prev[j]; }
        }
      }
    }
  }

  /** The graph has a key for exactly the assets occurring in the collection, fee or no fee. */
  lemma GraphKeys(records: seq<FeeRecord>, asset: string)
    ensures asset in FeeGraph(records) <==> exists i :: 0 <= i < |records| && records[i].feeAssetName == asset
  {
    DistinctAssetsMembership(records, asset);
  }

  /** Every series is strictly ascending by date: sorted, with at most one point per day. */
  lemma GraphOrdered(records: seq<FeeRecord>, asset: string)
    requires asset in FeeGraph(records)
    ensures StrictlyAscending(FeeGraph(records)[asset], DateOf)
  {
    var rows := DailyRows(records);
    DailyGroupsDistinct(records);
    assert DistinctGroups(rows) by {
      forall i, j | 0 <= i < j < |rows|
        ensures DayGroup(rows[i].asset, rows[i].date) != DayGroup(rows[j].asset, rows[j].date)
      {
        assert DailyGroups(records)[i] != DailyGroups(records)[j];
      }
    }
    PointsOfDistinctDates(rows, asset);
    SortAscStrict(PointsOf(rows, asset), DateOf);
  }

  /**
   * The points of an asset's series are exactly its days with a non-null fee,
   * each carrying that day's summed fee in display units.
   */
  lemma GraphPoints(records: seq<FeeRecord>, asset: string, p: Point)
    requires asset in FeeGraph(records)
    ensures p in FeeGraph(records)[asset]
        <==> exists i :: 0 <= i < |records| && records[i].feeAmount.Some? && records[i].feeAssetName == asset
               && p == Point(records[i].blockDate, ToDisplay(DailyTotal(records, GroupOf(records[i]))))
  {
    var rows := DailyRows(records);
    var pts := PointsOf(rows, asset);
    SortAscPerm(pts, DateOf);
    assert p in FeeGraph(records)[asset] <==> p in pts by {
      assert p in FeeGraph(records)[asset] <==> p in multiset(Series(records, asset));
    }
    PointsOfMembership(rows, asset, p);
    if p in pts {
      var j :| 0 <= j < |rows| && rows[j].asset == asset && RowPoint(rows[j]) == p;
      var g := DailyGroups(records)[j];
      DailyGroupsMembership(records, g);
      var i :| 0 <= i < |records| && records[i].feeAmount.Some? && GroupOf(records[i]) == g;
    }
    if exists i :: 0 <= i < |records| && records[i].feeAmount.Some? && records[i].feeAssetName == asset
                   && p == Point(records[i].blockDate, ToDisplay(DailyTotal(records, GroupOf(records[i])))) {
      var i :| 0 <= i < |records| && records[i].feeAmount.Some? && records[i].feeAssetName == asset
               && p == Point(records[i].blockDate, ToDisplay(DailyTotal(records, GroupOf(records[i]))));
      var g := GroupOf(records[i]);
      DailyGroupsMembership(records, g);
      var j :| 0 <= j < |DailyGroups(records)| && DailyGroups(records)[j] == g;
      assert RowPoint(rows[j]) == p;
    }
  }
}
