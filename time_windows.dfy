/**
 * The window catalog shared by the fee amount and fee count endpoints: five
 * rolling windows reaching 1, 7, 30, 60 and 90 days back from "now", and two
 * windows anchored at midnight UTC on 2018-08-01 and 2018-01-01. Every window
 * ends at "now", which the caller reads from the clock once.
 */
module TimeWindows {

  /** The windows, in the order the source fills its `time_dict`. */
  datatype WindowName = Day | Week | Thirty | Sixty | Ninety | August | January

  /** A named inclusive range `[start, end]` of epoch seconds. */
  datatype Window = Window(name: WindowName, start: int, end: int)

  const SECONDS_PER_DAY: int := 86400

  /** 2018-08-01T00:00:00Z in epoch seconds. */
  const AUGUST_2018_EPOCH: int := 1533081600

  /** 2018-01-01T00:00:00Z in epoch seconds. */
  const JANUARY_2018_EPOCH: int := 1514764800

  /** All window names, in catalog order. */
  const WINDOW_NAMES: seq<WindowName> := [Day, Week, Thirty, Sixty, Ninety, August, January]

  predicate IsRolling(w: WindowName) {
    w in {Day, Week, Thirty, Sixty, Ninety}
  }

  /** How many days back a rolling window reaches. */
  function RollingDays(w: WindowName): (d: nat)
    requires IsRolling(w)
    ensures 1 <= d <= 90
  {
    match w
    case Day => 1
    case Week => 7
    case Thirty => 30
    case Sixty => 60
    case Ninety => 90
  }

  /** The start of window `w` when the request's clock reads `now`. */
  function StartOf(w: WindowName, now: int): int {
    match w
    case August => AUGUST_2018_EPOCH
    case January => JANUARY_2018_EPOCH
    case _ => now - RollingDays(w) * SECONDS_PER_DAY
  }

  /** The catalog: one window per name, in catalog order, every one ending at `now`. */
  function Catalog(now: int): (ws: seq<Window>)
    ensures |ws| == |WINDOW_NAMES|
    ensures forall i :: 0 <= i < |ws| ==> ws[i].name == WINDOW_NAMES[i]
    ensures forall i :: 0 <= i < |ws| ==> ws[i].end == now && ws[i].start == StartOf(ws[i].name, now)
  {
    seq(|WINDOW_NAMES|, i requires 0 <= i < |WINDOW_NAMES| =>
      Window(WINDOW_NAMES[i], StartOf(WINDOW_NAMES[i], now), now))
  }

  /** Where each window sits in the catalog. */
  function CatalogIndex(w: WindowName): (i: nat)
    ensures i < |WINDOW_NAMES| && WINDOW_NAMES[i] == w
  {
    match w
    case Day => 0
    case Week => 1
    case Thirty => 2
    case Sixty => 3
    case Ninety => 4
    case August => 5
    case January => 6
  }

  /** Every window name appears in the catalog exactly once. */
  lemma CatalogNamesDistinct()
    ensures forall i, j :: 0 <= i < j < |WINDOW_NAMES| ==> WINDOW_NAMES[i] != WINDOW_NAMES[j]
    ensures forall w: WindowName :: w in WINDOW_NAMES
  {
    forall w: WindowName ensures w in WINDOW_NAMES {
      assert WINDOW_NAMES[CatalogIndex(w)] == w;
    }
  }

  /** A rolling window reaching further back starts no later. */
  lemma RollingStartsOrdered(w1: WindowName, w2: WindowName, now: int)
    requires IsRolling(w1) && IsRolling(w2)
    requires RollingDays(w1) <= RollingDays(w2)
    ensures StartOf(w2, now) <= StartOf(w1, now) <= now
  {
  }

  /**
   * The rolling starts are ordered ninety <= sixty <= thirty <= week <= day,
   * all strictly before `now`, and the two anchored starts are fixed with
   * January before August.
   */
  lemma CatalogOrder(now: int)
    ensures StartOf(Ninety, now) <= StartOf(Sixty, now) <= StartOf(Thirty, now)
            <= StartOf(Week, now) <= StartOf(Day, now) < now
    ensures StartOf(January, now) == JANUARY_2018_EPOCH < StartOf(August, now) == AUGUST_2018_EPOCH
    ensures AUGUST_2018_EPOCH - JANUARY_2018_EPOCH == 212 * SECONDS_PER_DAY
  {
  }

  /** Once the clock is past 2018-08-01, every window is a non-empty range ending at `now`. */
  lemma CatalogWellFormed(now: int)
    requires now >= AUGUST_2018_EPOCH
    ensures forall w :: w in Catalog(now) ==> w.start <= w.end == now
  {
  }
}
