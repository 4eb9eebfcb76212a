/**
 * The progress dashboard: the region filter buttons, the per-area rows
 * (each area of the fixed area list joined with its progress-sheet row on
 * trimmed city and ward), their order by progress, and the overall gauge.
 */
module ProgressSummary {
  import opened Wrappers
  import opened Seqs
  import opened JsText
  import opened Percent
  import opened SheetsApi

  /** The label of the "every region" button, which is also the initial filter. */
  const AllRegions: string := "すべて"

  /** An entry of the fixed area list; a missing city or ward is `''`. */
  datatype Area = Area(region: string, city: string, ward: string)

  /** A displayed row: the area with its board counts and whole-number progress. */
  datatype AreaSummary = AreaSummary(area: Area, total: nat, completed: nat, progress: nat)

  // ---------------------------------------------------------------------
  // Regions and the filter
  // ---------------------------------------------------------------------

  function RegionsOf(areas: seq<Area>): (rs: seq<string>)
    ensures |rs| == |areas|
  {
    seq(|areas|, i requires 0 <= i < |areas| => areas[i].region)
  }

  /**
   * `[...new Set(areaMaster.map(a => a.region))]`: each region of the area
   * list once, and nothing else.
   */
  function Regions(areas: seq<Area>): (rs: seq<string>)
    ensures Distinct(rs)
    ensures forall r :: r in rs <==> exists i :: 0 <= i < |areas| && areas[i].region == r
  {
    var rs := Dedupe(RegionsOf(areas));
    DedupeDistinct(RegionsOf(areas));
    assert forall i :: 0 <= i < |areas| ==> RegionsOf(areas)[i] == areas[i].region;
    rs
  }

  /**
   * Every region of the area list gets exactly one button, and the buttons
   * come in the order of the regions' first appearance.
   */
  lemma RegionsListed(areas: seq<Area>)
    ensures Distinct(Regions(areas))
    ensures forall i :: 0 <= i < |areas| ==> areas[i].region in Regions(areas)
    ensures forall r :: r in Regions(areas) ==> r in RegionsOf(areas)
    ensures forall i, j, q ::
      0 <= i < j < |Regions(areas)| && 0 <= q < |areas| && areas[q].region == Regions(areas)[j] ==>
      Regions(areas)[i] in RegionsOf(areas[..q])
  {
    DedupeDistinct(RegionsOf(areas));
    forall i | 0 <= i < |areas| ensures areas[i].region in Regions(areas) {
      assert RegionsOf(areas)[i] == areas[i].region;
    }
    forall i, j, q | 0 <= i < j < |Regions(areas)| && 0 <= q < |areas| && areas[q].region == Regions(areas)[j]
      ensures Regions(areas)[i] in RegionsOf(areas[..q])
    {
      DedupeFirstOccurrenceOrder(RegionsOf(areas), i, j, q);
      assert RegionsOf(areas)[..q] == RegionsOf(areas[..q]);
    }
  }

  /** `areaMaster.filter(a => a.region === region)` */
  function InRegion(areas: seq<Area>, region: string): seq<Area> {
    if areas == [] then []
    else (if areas[0].region == region then [areas[0]] else []) + InRegion(areas[1..], region)
  }

  /**
   * The areas shown for the selected filter: all of them for `すべて`, and
   * for any other selection exactly the areas of that region.
   */
  function FilteredAreas(areas: seq<Area>, selected: string): (shown: seq<Area>)
    ensures selected == AllRegions ==> shown == areas
    ensures selected != AllRegions ==>
      && (forall a :: a in shown ==> a in areas && a.region == selected)
      && (forall i :: 0 <= i < |areas| && areas[i].region == selected ==> areas[i] in shown)
  {
    if selected == AllRegions then areas
    else
      InRegionExactly(areas, selected);
      InRegion(areas, selected)
  }

  /**
   * The region filter keeps exactly the areas of that region: each kept
   * area is an area of the list in that region, each area of the list in
   * that region is kept, and the filter of a concatenation is the
   * concatenation of the filters (the order is kept).
   */
  lemma {:induction false} InRegionExactly(areas: seq<Area>, region: string)
    ensures forall a :: a in InRegion(areas, region) ==> a in areas && a.region == region
    ensures forall i :: 0 <= i < |areas| && areas[i].region == region ==> areas[i] in InRegion(areas, region)
  {
    if areas != [] {
      InRegionExactly(areas[1..], region);
      forall i | 1 <= i < |areas| && areas[i].region == region ensures areas[i] in InRegion(areas, region) {
        assert areas[1..][i - 1] == areas[i];
      }
    }
  }

  lemma {:induction false} InRegionAppend(a: seq<Area>, b: seq<Area>, region: string)
    ensures InRegion(a + b, region) == InRegion(a, region) + InRegion(b, region)
  {
    if a == [] {
      assert a + b == b;
    } else {
      var h := if a[0].region == region then [a[0]] else [];
      calc {
        InRegion(a + b, region);
        { assert (a + b)[0] == a[0]; assert (a + b)[1..] == a[1..] + b; }
        h + InRegion(a[1..] + b, region);
        { InRegionAppend(a[1..], b, region); }
        h + (InRegion(a[1..], region) + InRegion(b, region));
        (h + InRegion(a[1..], region)) + InRegion(b, region);
      }
    }
  }

  /** The selected filter: a component state that starts at `すべて`. */
  class RegionFilter {
    var selectedRegion: string

    constructor()
      ensures selectedRegion == AllRegions
    {
      selectedRegion := AllRegions;
    }

    /** A click on a region button (or on `すべて`) selects it. */
    method Select(region: string)
      modifies this
      ensures selectedRegion == region
    {
      selectedRegion := region;
    }
  }

  // ---------------------------------------------------------------------
  // Joining areas with progress rows
  // ---------------------------------------------------------------------

  /** The progress row is for the area when their trimmed cities and trimmed wards are equal. */
  predicate Matches(p: ProgressRow, a: Area) {
    Trim(p.city) == Trim(a.city) && Trim(p.ward) == Trim(a.ward)
  }

  /** Whitespace around a city or ward, on either side, does not change which rows match. */
  lemma MatchesIgnoresPadding(p: ProgressRow, a: Area)
    ensures Matches(p, a) == Matches(p.(city := Trim(p.city), ward := Trim(p.ward)), a)
    ensures Matches(p, a) == Matches(p, a.(city := Trim(a.city), ward := Trim(a.ward)))
  {
    assert Matches(p, a) == Matches(p.(city := Trim(p.city), ward := Trim(p.ward)), a) by {
      TrimIdempotent(p.city);
      TrimIdempotent(p.ward);
    }
    assert Matches(p, a) == Matches(p, a.(city := Trim(a.city), ward := Trim(a.ward))) by {
      TrimIdempotent(a.city);
      TrimIdempotent(a.ward);
    }
  }

  /** The position of the first row for `a` (`progressSheet.find`), or `|rows|` when none is. */
  function FindRow(rows: seq<ProgressRow>, a: Area): (i: nat)
    ensures i <= |rows|
    ensures forall j :: 0 <= j < i ==> !Matches(rows[j], a)
    ensures i < |rows| ==> Matches(rows[i], a)
  {
    if rows == [] then 0
    else if Matches(rows[0], a) then 0
    else 1 + FindRow(rows[1..], a)
  }

  /**
   * The row of the summary for `a`: the counts and progress of the first
   * progress row whose trimmed city and ward are the area's, and zeros
   * when there is none.
   */
  function SummaryOf(rows: seq<ProgressRow>, a: Area): (s: AreaSummary)
    ensures s.area == a
    ensures (forall j :: 0 <= j < |rows| ==> !Matches(rows[j], a)) ==> s.total == 0 && s.completed == 0 && s.progress == 0
    ensures forall j ::
      0 <= j < |rows| && Matches(rows[j], a) && (forall q :: 0 <= q < j ==> !Matches(rows[q], a)) ==>
      s.total == rows[j].total && s.completed == rows[j].done && s.progress == rows[j].progress
  {
    var i := FindRow(rows, a);
    if i < |rows| then AreaSummary(a, rows[i].total, rows[i].done, rows[i].progress)
    else AreaSummary(a, 0, 0, 0)
  }

  /** `filteredAreas.map(...)`: one row per shown area, in the area list's order. */
  function Summaries(areas: seq<Area>, rows: seq<ProgressRow>): (s: seq<AreaSummary>)
    ensures |s| == |areas|
    ensures forall i :: 0 <= i < |s| ==> s[i].area == areas[i]
  {
    seq(|areas|, i requires 0 <= i < |areas| => SummaryOf(rows, areas[i]))
  }

  // ---------------------------------------------------------------------
  // Ordering by progress
  // ---------------------------------------------------------------------

  /** `x` placed before the first row with no greater progress. */
  function InsertByProgress(x: AreaSummary, s: seq<AreaSummary>): (r: seq<AreaSummary>)
    ensures |r| == |s| + 1
  {
    if s == [] || x.progress >= s[0].progress then [x] + s
    else [s[0]] + InsertByProgress(x, s[1..])
  }

  /**
   * `summary.sort((a, b) => b.progress - a.progress)`: descending by
   * progress; the sort is stable, so rows of equal progress keep their
   * order.
   */
  function SortByProgress(s: seq<AreaSummary>): (r: seq<AreaSummary>)
    ensures |r| == |s|
  {
    if s == [] then [] else InsertByProgress(s[0], SortByProgress(s[1..]))
  }

  ghost predicate Descending(s: seq<AreaSummary>) {
    forall i, j :: 0 <= i < j < |s| ==> s[i].progress >= s[j].progress
  }

  /** The rows of `s` whose progress is `p`, in their order in `s`. */
  function WithProgress(s: seq<AreaSummary>, p: nat): seq<AreaSummary> {
    if s == [] then []
    else (if s[0].progress == p then [s[0]] else []) + WithProgress(s[1..], p)
  }

  lemma {:induction false} InsertByProgressMultiset(x: AreaSummary, s: seq<AreaSummary>)
    ensures multiset(InsertByProgress(x, s)) == multiset(s) + multiset{x}
  {
    if s != [] && x.progress < s[0].progress {
      InsertByProgressMultiset(x, s[1..]);
      assert s == [s[0]] + s[1..];
    }
  }

  /** Inserting `x` puts it before every row of its own progress that was already there. */
  lemma {:induction false} InsertByProgressStable(x: AreaSummary, s: seq<AreaSummary>, p: nat)
    ensures WithProgress(InsertByProgress(x, s), p) == (if x.progress == p then [x] else []) + WithProgress(s, p)
  {
    var r := InsertByProgress(x, s);
    var hx := if x.progress == p then [x] else [];
    if s == [] || x.progress >= s[0].progress {
      assert r[0] == x && r[1..] == s;
    } else {
      var h0 := if s[0].progress == p then [s[0]] else [];
      calc {
        WithProgress(r, p);
        { assert r[0] == s[0] && r[1..] == InsertByProgress(x, s[1..]); }
        h0 + WithProgress(InsertByProgress(x, s[1..]), p);
        { InsertByProgressStable(x, s[1..], p); }
        h0 + (hx + WithProgress(s[1..], p));
        { assert x.progress == p ==> h0 == []; }
        hx + (h0 + WithProgress(s[1..], p));
      }
    }
  }

  lemma {:induction false} InsertByProgressDescending(x: AreaSummary, s: seq<AreaSummary>)
    requires Descending(s)
    ensures Descending(InsertByProgress(x, s))
  {
    if s != [] && x.progress < s[0].progress {
      InsertByProgressDescending(x, s[1..]);
      var rest := InsertByProgress(x, s[1..]);
      InsertByProgressMultiset(x, s[1..]);
      forall j | 0 <= j < |rest| ensures s[0].progress >= rest[j].progress {
        assert rest[j] in multiset(rest);
        if rest[j] != x {
          assert rest[j] in multiset(s[1..]);
          var q :| 0 <= q < |s[1..]| && s[1..][q] == rest[j];
          assert s[q + 1] == rest[j];
        }
      }
    }
  }

  lemma {:induction false} SortByProgressMultiset(s: seq<AreaSummary>)
    ensures multiset(SortByProgress(s)) == multiset(s)
  {
    if s != [] {
      SortByProgressMultiset(s[1..]);
      InsertByProgressMultiset(s[0], SortByProgress(s[1..]));
      assert s == [s[0]] + s[1..];
    }
  }

  lemma {:induction false} SortByProgressDescending(s: seq<AreaSummary>)
    ensures Descending(SortByProgress(s))
  {
    if s != [] {
      SortByProgressDescending(s[1..]);
      InsertByProgressDescending(s[0], SortByProgress(s[1..]));
    }
  }

  lemma {:induction false} SortByProgressStable(s: seq<AreaSummary>, p: nat)
    ensures WithProgress(SortByProgress(s), p) == WithProgress(s, p)
  {
    if s != [] {
      SortByProgressStable(s[1..], p);
      InsertByProgressStable(s[0], SortByProgress(s[1..]), p);
    }
  }

  /**
   * The sorted summary is a reordering of the summary, is non-increasing
   * by progress, and among rows of equal progress keeps their order.
   */
  lemma SortByProgressCorrect(s: seq<AreaSummary>)
    ensures multiset(SortByProgress(s)) == multiset(s)
    ensures Descending(SortByProgress(s))
    ensures forall p :: WithProgress(SortByProgress(s), p) == WithProgress(s, p)
  {
    SortByProgressMultiset(s);
    SortByProgressDescending(s);
    forall p ensures WithProgress(SortByProgress(s), p) == WithProgress(s, p) {
      SortByProgressStable(s, p);
    }
  }

  // ---------------------------------------------------------------------
  // The overall gauge
  // ---------------------------------------------------------------------

  /** `summary.reduce((sum, a) => sum + a.total, 0)` */
  function SumTotal(s: seq<AreaSummary>): nat {
    if s == [] then 0 else s[0].total + SumTotal(s[1..])
  }

  /** `summary.reduce((sum, a) => sum + a.completed, 0)` */
  function SumCompleted(s: seq<AreaSummary>): nat {
    if s == [] then 0 else s[0].completed + SumCompleted(s[1..])
  }

  lemma {:induction false} SumsInsert(x: AreaSummary, s: seq<AreaSummary>)
    ensures SumTotal(InsertByProgress(x, s)) == x.total + SumTotal(s)
    ensures SumCompleted(InsertByProgress(x, s)) == x.completed + SumCompleted(s)
  {
    if s != [] && x.progress < s[0].progress {
      SumsInsert(x, s[1..]);
    }
  }

  /** Sorting does not change the sums. */
  lemma {:induction false} SumsSort(s: seq<AreaSummary>)
    ensures SumTotal(SortByProgress(s)) == SumTotal(s)
    ensures SumCompleted(SortByProgress(s)) == SumCompleted(s)
  {
    if s != [] {
      SumsSort(s[1..]);
      SumsInsert(s[0], SortByProgress(s[1..]));
    }
  }

  /** What the dashboard shows. */
  datatype Dashboard = Dashboard(
    regions: seq<string>, rows: seq<AreaSummary>, total: nat, totalCompleted: nat, progressTenths: nat)

  /**
   * The dashboard for the area list, the progress sheet and the selected
   * filter; the overall progress is in tenths of a percent.
   */
  function Summarize(areas: seq<Area>, sheet: seq<ProgressRow>, selected: string): (d: Dashboard)
    ensures |d.rows| == |FilteredAreas(areas, selected)|
    ensures d.total == 0 ==> d.progressTenths == 0
  {
    var rows := SortByProgress(Summaries(FilteredAreas(areas, selected), sheet));
    var total := SumTotal(rows);
    var completed := SumCompleted(rows);
    Dashboard(Regions(areas), rows, total, completed, RoundedPercentTenths(completed, total))
  }

  /**
   * The dashboard's rows are the shown areas' rows, ordered by progress;
   * its figures are the sums over the shown areas, whatever the order; and
   * the gauge is 0 when no board is counted and at most 100.0% when no
   * sheet row reports more done than total boards.
   */
  lemma SummarizeCorrect(areas: seq<Area>, sheet: seq<ProgressRow>, selected: string)
    ensures var d := Summarize(areas, sheet, selected);
      var unsorted := Summaries(FilteredAreas(areas, selected), sheet);
      && multiset(d.rows) == multiset(unsorted)
      && Descending(d.rows)
      && d.total == SumTotal(unsorted)
      && d.totalCompleted == SumCompleted(unsorted)
      && (d.total == 0 ==> d.progressTenths == 0)
    ensures (forall j :: 0 <= j < |sheet| ==> sheet[j].done <= sheet[j].total) ==>
      Summarize(areas, sheet, selected).progressTenths <= 1000
  {
    var unsorted := Summaries(FilteredAreas(areas, selected), sheet);
    SortByProgressCorrect(unsorted);
    SumsSort(unsorted);
    if forall j :: 0 <= j < |sheet| ==> sheet[j].done <= sheet[j].total {
      CompletedAtMostTotal(unsorted, sheet);
      var d := Summarize(areas, sheet, selected);
      RoundedPercentTenthsBounds(d.totalCompleted, d.total);
    }
  }

  /** Rows taken from sheet rows with no more done than total boards sum the same way. */
  lemma {:induction false} CompletedAtMostTotal(s: seq<AreaSummary>, sheet: seq<ProgressRow>)
    requires forall j :: 0 <= j < |sheet| ==> sheet[j].done <= sheet[j].total
    requires forall i :: 0 <= i < |s| ==> s[i] == SummaryOf(sheet, s[i].area)
    ensures SumCompleted(s) <= SumTotal(s)
  {
    if s != [] {
      CompletedAtMostTotal(s[1..], sheet);
      var i := FindRow(sheet, s[0].area);
    }
  }
}
