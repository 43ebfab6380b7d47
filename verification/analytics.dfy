/**
 * `getWebsiteStats`: the seven-day report of one website.  The window is the
 * seven date keys ending today; each key starts at 0 views and 0 clicks and
 * takes the figures of the last stats document carrying that date.  Device
 * views are summed over every document the query returns.  The totals are
 * sums over the window, the click-through rate is 0 without views, and the
 * device shares fall back to 100/0/0 without device data.  A failing query
 * gives the same window with zeros and no device shares.
 *
 * The clock and the date formatting are parameters: `days` are the seven
 * `YYYY-MM-DD` keys, oldest first, and `formatDate` is `toLocaleDateString`.
 * Numbers are exact (integers and reals).
 */
module Analytics {
  import opened Wrappers
  import opened JsText

  /** A `daily_stats` document; a missing number field reads as 0. */
  datatype StatDoc = StatDoc(
    date: Option<string>,
    views: int,
    clicks: int,
    viewsDesktop: int,
    viewsMobile: int,
    viewsTablet: int)

  /** A day's views and clicks. */
  datatype Figures = Figures(views: int, clicks: int)

  datatype DayStat = DayStat(date: string, views: int, clicks: int)

  datatype DeviceStat = DeviceStat(name: string, value: int)

  datatype AnalyticsData = AnalyticsData(
    views: int,
    clicks: int,
    ctr: real,
    dailyStats: seq<DayStat>,
    deviceStats: seq<DeviceStat>)

  const WindowDays: nat := 7

  /**
   * `where("date", ">=", sevenDaysAgo)`: the documents with a date field not
   * before `from`, in collection order.  Firestore returns them by date and
   * then by id; documents of one date keep the same relative order.
   */
  function DateQuery(collection: seq<StatDoc>, from: string): (r: seq<StatDoc>)
    ensures forall i :: 0 <= i < |r| ==> r[i] in collection && r[i].date.Some? && StringAtLeast(r[i].date.value, from)
    ensures forall d :: d in collection && d.date.Some? && StringAtLeast(d.date.value, from) ==> d in r
  {
    if collection == [] then []
    else
      var rest := DateQuery(collection[1..], from);
      var d := collection[0];
      if d.date.Some? && StringAtLeast(d.date.value, from) then [d] + rest else rest
  }

  /**
   * The figures a window day ends with after the fold: those of the last
   * document carrying that date, or zeros.
   */
  function DayFigures(docs: seq<StatDoc>, date: string): Figures {
    if docs == [] then Figures(0, 0)
    else
      var last := docs[|docs| - 1];
      if last.date == Some(date) then Figures(last.views, last.clicks)
      else DayFigures(docs[..|docs| - 1], date)
  }

  /** The three device sums. */
  function DeviceTotals(docs: seq<StatDoc>): (totals: (int, int, int)) {
    if docs == [] then (0, 0, 0)
    else
      var t := DeviceTotals(docs[..|docs| - 1]);
      var last := docs[|docs| - 1];
      (t.0 + last.viewsDesktop, t.1 + last.viewsMobile, t.2 + last.viewsTablet)
  }

  function SumViews(days: seq<DayStat>): int {
    if days == [] then 0 else SumViews(days[..|days| - 1]) + days[|days| - 1].views
  }

  function SumClicks(days: seq<DayStat>): int {
    if days == [] then 0 else SumClicks(days[..|days| - 1]) + days[|days| - 1].clicks
  }

  /** `Math.round`: the nearest integer, halves rounded up. */
  function Round(x: real): (r: int)
    ensures x - 0.5 < r as real <= x + 0.5
  {
    (x + 0.5).Floor
  }

  /** `(clicks / views) * 100`, or 0 without views. */
  function Ctr(views: int, clicks: int): (ctr: real)
    ensures views <= 0 ==> ctr == 0.0
    ensures views > 0 && clicks >= 0 ==> ctr >= 0.0
    ensures views > 0 ==> ctr * views as real == clicks as real * 100.0
  {
    if views > 0 then (clicks as real / views as real) * 100.0 else 0.0
  }

  /** The device shares, or the fixed fallback when there is no device data. */
  function DeviceShares(totals: (int, int, int)): (shares: seq<DeviceStat>)
    ensures |shares| == 3
    ensures shares[0].name == "Desktop" && shares[1].name == "Mobile" && shares[2].name == "Tablet"
    ensures totals.0 + totals.1 + totals.2 <= 0 ==>
      shares == [DeviceStat("Desktop", 100), DeviceStat("Mobile", 0), DeviceStat("Tablet", 0)]
  {
    var total := totals.0 + totals.1 + totals.2;
    if total > 0 then
      [DeviceStat("Desktop", Round(totals.0 as real / total as real * 100.0)),
       DeviceStat("Mobile", Round(totals.1 as real / total as real * 100.0)),
       DeviceStat("Tablet", Round(totals.2 as real / total as real * 100.0))]
    else
      [DeviceStat("Desktop", 100), DeviceStat("Mobile", 0), DeviceStat("Tablet", 0)]
  }

  /** The window as shown: each day's label with the figures of its key. */
  function Window(days: seq<string>, formatDate: string -> string, docs: seq<StatDoc>): (w: seq<DayStat>)
    ensures |w| == |days|
    ensures forall k :: 0 <= k < |days| ==>
      w[k] == DayStat(formatDate(days[k]), DayFigures(docs, days[k]).views, DayFigures(docs, days[k]).clicks)
  {
    seq(|days|, k requires 0 <= k < |days| =>
      DayStat(formatDate(days[k]), DayFigures(docs, days[k]).views, DayFigures(docs, days[k]).clicks))
  }

  /**
   * The report for the subcollection `collection` (`None` when the query
   * fails), as a function of its inputs.
   */
  function Stats(days: seq<string>, formatDate: string -> string, collection: Option<seq<StatDoc>>): (data: AnalyticsData)
    requires |days| == WindowDays
    ensures |data.dailyStats| == WindowDays
    ensures forall k :: 0 <= k < WindowDays ==> data.dailyStats[k].date == formatDate(days[k])
    ensures data.views == SumViews(data.dailyStats) && data.clicks == SumClicks(data.dailyStats)
    ensures data.ctr == Ctr(data.views, data.clicks)
    ensures collection.None? ==>
      && data.views == 0 && data.clicks == 0 && data.ctr == 0.0 && data.deviceStats == []
      && forall k :: 0 <= k < WindowDays ==> data.dailyStats[k].views == 0 && data.dailyStats[k].clicks == 0
    ensures collection.Some? ==>
      var docs := DateQuery(collection.value, days[0]);
      && (forall k :: 0 <= k < WindowDays ==>
            data.dailyStats[k].views == DayFigures(docs, days[k]).views
            && data.dailyStats[k].clicks == DayFigures(docs, days[k]).clicks)
      && data.deviceStats == DeviceShares(DeviceTotals(docs))
  {
    match collection
    case None =>
      var zeros := Window(days, formatDate, []);
      ZeroSums(zeros);
      AnalyticsData(0, 0, 0.0, zeros, [])
    case Some(all) =>
      var docs := DateQuery(all, days[0]);
      var daily := Window(days, formatDate, docs);
      var views, clicks := SumViews(daily), SumClicks(daily);
      AnalyticsData(views, clicks, Ctr(views, clicks), daily, DeviceShares(DeviceTotals(docs)))
  }

  lemma {:induction false} ZeroSums(days: seq<DayStat>)
    requires forall k :: 0 <= k < |days| ==> days[k].views == 0 && days[k].clicks == 0
    ensures SumViews(days) == 0 && SumClicks(days) == 0
  {
    if days != [] {
      ZeroSums(days[..|days| - 1]);
    }
  }

  /** A window day no document carries shows zeros. */
  lemma {:induction false} AbsentDayIsZero(docs: seq<StatDoc>, date: string)
    requires forall i :: 0 <= i < |docs| ==> docs[i].date != Some(date)
    ensures DayFigures(docs, date) == Figures(0, 0)
  {
    if docs != [] {
      AbsentDayIsZero(docs[..|docs| - 1], date);
    }
  }

  /**
   * Figures are taken, not summed: a later document for the same day
   * replaces the earlier ones, and a document for another day changes nothing.
   */
  lemma LastDocumentWins(docs: seq<StatDoc>, d: StatDoc, date: string)
    ensures d.date == Some(date) ==> DayFigures(docs + [d], date) == Figures(d.views, d.clicks)
    ensures d.date != Some(date) ==> DayFigures(docs + [d], date) == DayFigures(docs, date)
  {
    assert (docs + [d])[..|docs + [d]| - 1] == docs;
  }

  /** A document from outside the window changes no day but still counts for the devices. */
  lemma OutsideWindowOnlyCountsDevices(days: seq<string>, docs: seq<StatDoc>, d: StatDoc)
    requires d.date.None? || d.date.value !in days
    ensures forall k :: 0 <= k < |days| ==> DayFigures(docs + [d], days[k]) == DayFigures(docs, days[k])
    ensures var t, t' := DeviceTotals(docs), DeviceTotals(docs + [d]);
      t' == (t.0 + d.viewsDesktop, t.1 + d.viewsMobile, t.2 + d.viewsTablet)
  {
    assert (docs + [d])[..|docs + [d]| - 1] == docs;
    forall k | 0 <= k < |days|
      ensures DayFigures(docs + [d], days[k]) == DayFigures(docs, days[k])
    {
      LastDocumentWins(docs, d, days[k]);
    }
  }

  /**
   * With device data and no negative counts, every share is between 0 and
   * 100 and, rounding aside, the three add up to 100: their sum is 99, 100
   * or 101.
   */
  lemma SharesAddUp(totals: (int, int, int))
    requires totals.0 >= 0 && totals.1 >= 0 && totals.2 >= 0 && totals.0 + totals.1 + totals.2 > 0
    ensures var shares := DeviceShares(totals);
      && (forall k :: 0 <= k < 3 ==> 0 <= shares[k].value <= 100)
      && 99 <= shares[0].value + shares[1].value + shares[2].value <= 101
  {
    var total := (totals.0 + totals.1 + totals.2) as real;
    var a, b, c := Percent(totals.0, total), Percent(totals.1, total), Percent(totals.2, total);
    PercentsAddUp(totals.0 as real, totals.1 as real, totals.2 as real, total);
    RoundBounds(a);
    RoundBounds(b);
    RoundBounds(c);
  }

  /** `x / total * 100`, the unrounded share. */
  function Percent(x: int, total: real): real
    requires total > 0.0
  {
    x as real / total * 100.0
  }

  lemma PercentsAddUp(x: real, y: real, z: real, total: real)
    requires x >= 0.0 && y >= 0.0 && z >= 0.0 && total == x + y + z && total > 0.0
    ensures x / total * 100.0 + y / total * 100.0 + z / total * 100.0 == 100.0
    ensures 0.0 <= x / total * 100.0 <= 100.0
    ensures 0.0 <= y / total * 100.0 <= 100.0
    ensures 0.0 <= z / total * 100.0 <= 100.0
  {
    var a, b, c := x / total, y / total, z / total;
    assert a * total == x && b * total == y && c * total == z;
    assert (a + b + c) * total == a * total + b * total + c * total;
    assert a * total + b * total + c * total == x + y + z == total;
    assert (a + b + c - 1.0) * total == 0.0;
    ZeroFactor(a + b + c - 1.0, total);
    assert x / total * 100.0 + y / total * 100.0 + z / total * 100.0 == (x / total + y / total + z / total) * 100.0;
    DivAtMostOne(x, total);
    DivAtMostOne(y, total);
    DivAtMostOne(z, total);
  }

  lemma ZeroFactor(p: real, t: real)
    requires t > 0.0 && p * t == 0.0
    ensures p == 0.0
  {
  }

  lemma DivAtMostOne(x: real, total: real)
    requires 0.0 <= x <= total && total > 0.0
    ensures 0.0 <= x / total * 100.0 <= 100.0
  {
    assert x / total <= 1.0;
  }

  /** A percentage rounds to a percentage. */
  lemma RoundBounds(x: real)
    ensures 0.0 <= x <= 100.0 ==> 0 <= Round(x) <= 100
  {
  }

  /** The first `forEach`: every window key starts at zero. */
  method InitWindow(days: seq<string>) returns (statsMap: map<string, Figures>)
    ensures forall d :: d in statsMap <==> d in days
    ensures forall d :: d in statsMap ==> statsMap[d] == Figures(0, 0)
  {
    statsMap := map[];
    for k := 0 to |days|
      invariant forall d :: d in statsMap <==> d in days[..k]
      invariant forall d :: d in statsMap ==> statsMap[d] == Figures(0, 0)
    {
      assert days[..k + 1] == days[..k] + [days[k]];
      statsMap := statsMap[days[k] := Figures(0, 0)];
    }
    assert days[..|days|] == days;
  }

  /**
   * The second `forEach`: a document dated on a window key overwrites that
   * key's figures, and every document adds to the device sums.
   */
  method FoldSnapshot(initial: map<string, Figures>, snapshot: seq<StatDoc>)
    returns (statsMap: map<string, Figures>, desktop: int, mobile: int, tablet: int)
    requires forall d :: d in initial ==> initial[d] == Figures(0, 0)
    ensures statsMap.Keys == initial.Keys
    ensures forall d :: d in statsMap ==> statsMap[d] == DayFigures(snapshot, d)
    ensures (desktop, mobile, tablet) == DeviceTotals(snapshot)
  {
    statsMap := initial;
    desktop, mobile, tablet := 0, 0, 0;
    for i := 0 to |snapshot|
      invariant statsMap.Keys == initial.Keys
      invariant forall d :: d in statsMap ==> statsMap[d] == DayFigures(snapshot[..i], d)
      invariant (desktop, mobile, tablet) == DeviceTotals(snapshot[..i])
    {
      var doc := snapshot[i];
      assert snapshot[..i + 1][..i] == snapshot[..i];
      if doc.date.Some? && doc.date.value in statsMap {
        statsMap := statsMap[doc.date.value := Figures(doc.views, doc.clicks)];
      }
      desktop := desktop + doc.viewsDesktop;
      mobile := mobile + doc.viewsMobile;
      tablet := tablet + doc.viewsTablet;
    }
    assert snapshot[..|snapshot|] == snapshot;
  }

  /** `getWebsiteStats` over the query's answer (`None` when the query throws). */
  method GetWebsiteStats(days: seq<string>, formatDate: string -> string, collection: Option<seq<StatDoc>>)
    returns (data: AnalyticsData)
    requires |days| == WindowDays
    ensures data == Stats(days, formatDate, collection)
  {
    var statsMap := InitWindow(days);
    if collection.None? {
      data := AnalyticsData(0, 0, 0.0, Window(days, formatDate, []), []);
      return;
    }
    var snapshot := DateQuery(collection.value, days[0]);
    var desktop, mobile, tablet;
    statsMap, desktop, mobile, tablet := FoldSnapshot(statsMap, snapshot);
    var dailyStats := seq(|days|, k requires 0 <= k < |days| =>
      var figures := if days[k] in statsMap then statsMap[days[k]] else Figures(0, 0);
      DayStat(formatDate(days[k]), figures.views, figures.clicks));
    assert dailyStats == Window(days, formatDate, snapshot);
    var totalViews, totalClicks := SumViews(dailyStats), SumClicks(dailyStats);
    data := AnalyticsData(totalViews, totalClicks, Ctr(totalViews, totalClicks), dailyStats,
                          DeviceShares((desktop, mobile, tablet)));
  }
}
