/**
 * The client's record parsing and counting (`src/services/googleSheetsService.js`).
 * The HTTP fetch is outside the model: each operation takes the JSON rows the
 * board-sheet endpoint returned, each row an object from column name to text.
 */
module SheetsService {
  import opened Seqs
  import opened Percent
  import opened JsObject

  /**
   * One board, as the client keeps it. `lat` and `lng` hold the coordinate
   * text; the model compares coordinates only through their text.
   */
  datatype Marker = Marker(
    id: nat, areaNumber: string, place: string, address: string,
    lat: string, lng: string, status: string, note: string, city: string, ward: string)

  /** `row[key]`, with a column the row lacks read as empty text. */
  function Field(row: map<string, string>, key: string): string {
    if key in row then row[key] else ""
  }

  /** The filter: a row is kept when its area number, latitude and longitude are all non-empty. */
  predicate Keep(row: map<string, string>) {
    Field(row, "area-number") != "" && Field(row, "lat") != "" && Field(row, "long") != ""
  }

  /** The kept rows, in input order. */
  function KeptRows(rows: seq<map<string, string>>): (kept: seq<map<string, string>>)
    ensures |kept| <= |rows|
    ensures forall i :: 0 <= i < |kept| ==> Keep(kept[i])
    ensures forall r :: r in kept <==> r in rows && Keep(r)
  {
    if rows == [] then []
    else
      var rest := KeptRows(rows[1..]);
      assert forall r :: r in rows <==> r == rows[0] || r in rows[1..] by {
        assert rows == [rows[0]] + rows[1..];
      }
      if Keep(rows[0]) then [rows[0]] + rest else rest
  }

  /** Filtering a concatenation filters each part: kept rows stay in their input order. */
  lemma {:induction false} KeptRowsAppend(a: seq<map<string, string>>, b: seq<map<string, string>>)
    ensures KeptRows(a + b) == KeptRows(a) + KeptRows(b)
  {
    if a == [] {
      assert a + b == b;
    } else {
      assert (a + b)[1..] == a[1..] + b;
      KeptRowsAppend(a[1..], b);
    }
  }

  /** The renaming: `area-number` to `areaNumber`, `adress` to `address`, `long` to `lng`. */
  function ToMarker(row: map<string, string>, id: nat): Marker {
    Marker(id, Field(row, "area-number"), Field(row, "place"), Field(row, "adress"),
           Field(row, "lat"), Field(row, "long"), Field(row, "status"), Field(row, "note"),
           Field(row, "city"), Field(row, "ward"))
  }

  /**
   * `fetchMarkers`: the kept rows, renamed and numbered 1, 2, ... after
   * filtering; every marker has an area number and both coordinates.
   */
  function FetchMarkers(rows: seq<map<string, string>>): (ms: seq<Marker>)
    ensures |ms| == |KeptRows(rows)|
    ensures forall i :: 0 <= i < |ms| ==> ms[i].id == i + 1
    ensures forall i :: 0 <= i < |ms| ==> ms[i] == ToMarker(KeptRows(rows)[i], i + 1)
    ensures forall i :: 0 <= i < |ms| ==> ms[i].areaNumber != "" && ms[i].lat != "" && ms[i].lng != ""
  {
    var kept := KeptRows(rows);
    seq(|kept|, i requires 0 <= i < |kept| => ToMarker(kept[i], i + 1))
  }

  function AreaNumbers(ms: seq<Marker>): (ks: seq<string>)
    ensures |ks| == |ms| && forall i :: 0 <= i < |ms| ==> ks[i] == ms[i].areaNumber
  {
    if ms == [] then [] else [ms[0].areaNumber] + AreaNumbers(ms[1..])
  }

  lemma AreaNumbersSnoc(ms: seq<Marker>, m: Marker)
    ensures AreaNumbers(ms + [m]) == AreaNumbers(ms) + [m.areaNumber]
  {
  }

  /** The area numbers of the done markers (status `'1'`), in order. */
  function DoneAreas(ms: seq<Marker>): (ks: seq<string>)
    ensures |ks| <= |ms|
  {
    if ms == [] then [] else (if ms[0].status == "1" then [ms[0].areaNumber] else []) + DoneAreas(ms[1..])
  }

  lemma DoneAreasSnoc(ms: seq<Marker>, m: Marker)
    ensures DoneAreas(ms + [m]) == DoneAreas(ms) + (if m.status == "1" then [m.areaNumber] else [])
  {
    if ms != [] {
      assert (ms + [m])[1..] == ms[1..] + [m];
    }
  }

  /** An area's running counts. */
  datatype Tally = Tally(total: nat, done: nat)

  /**
   * The counts the source's loop builds up for area `k`, marker by marker:
   * a marker of the area adds one to the total, and one to the done count
   * when its status is `'1'`.
   */
  function TallyOf(ms: seq<Marker>, k: string): Tally {
    if ms == [] then Tally(0, 0)
    else
      var n := |ms| - 1;
      var t := TallyOf(ms[..n], k);
      if ms[n].areaNumber == k then Tally(t.total + 1, t.done + (if ms[n].status == "1" then 1 else 0))
      else t
  }

  /** One more marker adds one to its own area's total, and to its done count when it is done. */
  lemma TallyOfSnoc(ms: seq<Marker>, m: Marker, k: string)
    ensures TallyOf(ms + [m], k) ==
      if k == m.areaNumber then
        Tally(TallyOf(ms, k).total + 1, TallyOf(ms, k).done + (if m.status == "1" then 1 else 0))
      else TallyOf(ms, k)
  {
    assert (ms + [m])[..|ms|] == ms;
  }

  /**
   * The running counts of an area are how often it occurs among all the
   * markers and among the done ones, so no area has more done markers
   * than markers.
   */
  lemma {:induction false} TallyOfCounts(ms: seq<Marker>, k: string)
    ensures TallyOf(ms, k).total == multiset(AreaNumbers(ms))[k]
    ensures TallyOf(ms, k).done == multiset(DoneAreas(ms))[k]
    ensures TallyOf(ms, k).done <= TallyOf(ms, k).total
  {
    if ms != [] {
      var n := |ms| - 1;
      var p, m := ms[..n], ms[n];
      assert ms == p + [m];
      TallyOfCounts(p, k);
      TallyOfSnoc(p, m, k);
      AreaNumbersSnoc(p, m);
      DoneAreasSnoc(p, m);
      assert multiset(AreaNumbers(ms)) == multiset(AreaNumbers(p)) + multiset{m.areaNumber};
      assert multiset(DoneAreas(ms)) == multiset(DoneAreas(p)) + multiset(if m.status == "1" then [m.areaNumber] else []);
    }
  }

  /**
   * The state of the count loop after the markers `ms`: the areas met, in
   * the order they were first met, and each area's running counts.
   */
  ghost predicate Counted(areaMap: map<string, Tally>, names: seq<string>, ms: seq<Marker>) {
    && names == Dedupe(AreaNumbers(ms))
    && (forall k :: k in areaMap <==> k in names)
    && (forall k :: k in areaMap ==> areaMap[k] == TallyOf(ms, k))
  }

  /** An area not yet met has no markers counted. */
  lemma TallyOfAbsent(seen: seq<Marker>, k: string)
    requires k !in AreaNumbers(seen)
    ensures TallyOf(seen, k) == Tally(0, 0)
  {
    TallyOfCounts(seen, k);
  }

  /**
   * One pass of the count loop, as `CountMarker` specifies it, keeps the
   * state in step with the markers seen.
   */
  lemma CountStep(seen: seq<Marker>, m: Marker, areaMap: map<string, Tally>, names: seq<string>,
                  areaMap': map<string, Tally>, names': seq<string>)
    requires Counted(areaMap, names, seen)
    requires names' == if m.areaNumber in areaMap then names else names + [m.areaNumber]
    requires areaMap'.Keys == areaMap.Keys + {m.areaNumber}
    requires forall k :: k in areaMap && k != m.areaNumber ==> areaMap'[k] == areaMap[k]
    requires var t := if m.areaNumber in areaMap then areaMap[m.areaNumber] else Tally(0, 0);
      areaMap'[m.areaNumber] == Tally(t.total + 1, t.done + (if m.status == "1" then 1 else 0))
    ensures Counted(areaMap', names', seen + [m])
  {
    assert names' == Dedupe(AreaNumbers(seen + [m])) by {
      AreaNumbersSnoc(seen, m);
      DedupeSnoc(AreaNumbers(seen), m.areaNumber);
    }
    CountStepTallies(seen, m, areaMap, names, areaMap');
  }

  /** Only the marker's own area changes its counts, and it changes them as one more marker would. */
  lemma CountStepTallies(seen: seq<Marker>, m: Marker, areaMap: map<string, Tally>, names: seq<string>,
                         areaMap': map<string, Tally>)
    requires Counted(areaMap, names, seen)
    requires areaMap'.Keys == areaMap.Keys + {m.areaNumber}
    requires forall k :: k in areaMap && k != m.areaNumber ==> areaMap'[k] == areaMap[k]
    requires var t := if m.areaNumber in areaMap then areaMap[m.areaNumber] else Tally(0, 0);
      areaMap'[m.areaNumber] == Tally(t.total + 1, t.done + (if m.status == "1" then 1 else 0))
    ensures forall k :: k in areaMap' ==> areaMap'[k] == TallyOf(seen + [m], k)
  {
    var a := m.areaNumber;
    TallyOfSnoc(seen, m, a);
    if a !in areaMap {
      TallyOfAbsent(seen, a);
    }
    assert areaMap'[a] == TallyOf(seen + [m], a);
    forall k | k in areaMap && k != a
      ensures areaMap'[k] == TallyOf(seen + [m], k)
    {
      TallyOfSnoc(seen, m, k);
    }
  }

  /**
   * One pass of the count loop: a marker of an area not met before adds
   * the area with zero counts and appends its name; then the area's total
   * goes up by one, and its done count too when the marker's status is `'1'`.
   */
  method CountMarker(areaMap: map<string, Tally>, names: seq<string>, marker: Marker)
    returns (areaMap': map<string, Tally>, names': seq<string>)
    ensures names' == if marker.areaNumber in areaMap then names else names + [marker.areaNumber]
    ensures areaMap'.Keys == areaMap.Keys + {marker.areaNumber}
    ensures forall k :: k in areaMap && k != marker.areaNumber ==> areaMap'[k] == areaMap[k]
    ensures var t := if marker.areaNumber in areaMap then areaMap[marker.areaNumber] else Tally(0, 0);
      areaMap'[marker.areaNumber] == Tally(t.total + 1, t.done + (if marker.status == "1" then 1 else 0))
  {
    var area := marker.areaNumber;
    areaMap', names' := areaMap, names;
    if area !in areaMap' {
      areaMap' := areaMap'[area := Tally(0, 0)];
      names' := names' + [area];
    }
    var t := areaMap'[area];
    t := t.(total := t.total + 1);
    if marker.status == "1" {
      t := t.(done := t.done + 1);
    }
    areaMap' := areaMap'[area := t];
  }

  /**
   * The per-area count loop: one entry per distinct area number, whose
   * `total` is how many markers carry it and whose `done` is how many of
   * those have status `'1'`; `names` lists the areas in the order the loop
   * first met them, the order `Object.entries` gives back.
   */
  method CountAreas(ms: seq<Marker>) returns (areaMap: map<string, Tally>, names: seq<string>)
    ensures names == Dedupe(AreaNumbers(ms))
    ensures forall k :: k in areaMap <==> k in AreaNumbers(ms)
    ensures forall k :: k in areaMap ==> areaMap[k] == TallyOf(ms, k)
  {
    areaMap := map[];
    names := [];
    for i := 0 to |ms|
      invariant Counted(areaMap, names, ms[..i])
    {
      ghost var areaMap0, names0 := areaMap, names;
      areaMap, names := CountMarker(areaMap, names, ms[i]);
      TakeSnoc(ms, i);
      CountStep(ms[..i], ms[i], areaMap0, names0, areaMap, names);
    }
    assert ms[..|ms|] == ms;
  }

  /** One row of the per-area table. */
  datatype AreaEntry = AreaEntry(id: nat, name: string, color: string, total: nat, done: nat, progress: nat)

  /**
   * `Object.entries(areaMap).map(...)`: the areas in `names` order, numbered
   * 1, 2, ..., each with its counts and its rounded percentage.
   */
  function AreaEntries(areaMap: map<string, Tally>, names: seq<string>): (entries: seq<AreaEntry>)
    requires forall k :: k in names ==> k in areaMap
    ensures |entries| == |names|
    ensures forall i :: 0 <= i < |entries| ==>
      && entries[i].id == i + 1
      && entries[i].name == names[i]
      && entries[i].total == areaMap[names[i]].total
      && entries[i].done == areaMap[names[i]].done
      && entries[i].progress == RoundedPercent(areaMap[names[i]].done, areaMap[names[i]].total)
  {
    seq(|names|, i requires 0 <= i < |names| =>
      var t := areaMap[names[i]];
      AreaEntry(i + 1, names[i], "#00bfff", t.total, t.done, RoundedPercent(t.done, t.total)))
  }

  function SumTotals(entries: seq<AreaEntry>): nat {
    if entries == [] then 0 else entries[0].total + SumTotals(entries[1..])
  }

  /** The counts of every area the markers mention. */
  function TallyMap(ms: seq<Marker>): (m: map<string, Tally>)
    ensures forall k :: k in m <==> k in AreaNumbers(ms)
  {
    map k | k in AreaNumbers(ms) :: TallyOf(ms, k)
  }

  /**
   * The order `Object.entries(areaMap)` lists the areas in: the object's
   * keys were added in the order the markers first mention them, and are
   * listed array indices first (see `JsObject.OwnKeys`). Each area the
   * markers mention is listed exactly once.
   */
  function AreaOrder(ms: seq<Marker>): (names: seq<string>)
    ensures |names| == |Dedupe(AreaNumbers(ms))|
    ensures forall k :: k in names <==> k in AreaNumbers(ms)
    ensures Distinct(names)
  {
    var names := OwnKeys(Dedupe(AreaNumbers(ms)));
    assert forall k :: k in names <==> k in multiset(Dedupe(AreaNumbers(ms))) by {
      assert forall k :: k in names <==> k in multiset(names);
    }
    DedupeDistinct(AreaNumbers(ms));
    OwnKeysDistinct(Dedupe(AreaNumbers(ms)));
    names
  }

  /** The table `fetchAreaData` returns for a marker list: the areas in listing order, each with its counts. */
  function AreaTable(ms: seq<Marker>): (entries: seq<AreaEntry>)
    ensures |entries| == |Dedupe(AreaNumbers(ms))|
  {
    AreaEntries(TallyMap(ms), AreaOrder(ms))
  }

  /**
   * Each row of the table is numbered by its position and names the area
   * listed in that position; its `total` is how many markers carry the
   * area, its `done` how many of those have status `'1'`, so `done <= total`
   * and the progress is between 0 and 100.
   */
  lemma AreaTableCounts(ms: seq<Marker>)
    ensures var entries := AreaTable(ms);
      forall i :: 0 <= i < |entries| ==>
        && entries[i].id == i + 1
        && entries[i].name == AreaOrder(ms)[i]
        && entries[i].total == multiset(AreaNumbers(ms))[entries[i].name]
        && entries[i].done == multiset(DoneAreas(ms))[entries[i].name]
        && entries[i].done <= entries[i].total
        && entries[i].progress <= 100
  {
    var names := AreaOrder(ms);
    var tallies := TallyMap(ms);
    var entries := AreaTable(ms);
    forall i | 0 <= i < |entries|
      ensures entries[i].total == multiset(AreaNumbers(ms))[entries[i].name]
      ensures entries[i].done == multiset(DoneAreas(ms))[entries[i].name]
      ensures entries[i].done <= entries[i].total && entries[i].progress <= 100
    {
      assert names[i] in names;
      assert tallies[names[i]] == TallyOf(ms, names[i]);
      TallyOfCounts(ms, names[i]);
      RoundedPercentBounds(entries[i].done, entries[i].total);
    }
  }

  /** Every area the markers mention has a row, and no area has two. */
  lemma AreaTableRows(ms: seq<Marker>)
    ensures var entries := AreaTable(ms);
      && (forall k :: k in AreaNumbers(ms) ==> exists i :: 0 <= i < |entries| && entries[i].name == k)
      && (forall i, j :: 0 <= i < j < |entries| ==> entries[i].name != entries[j].name)
  {
    var names := AreaOrder(ms);
    var entries := AreaTable(ms);
    forall k | k in AreaNumbers(ms) ensures exists i :: 0 <= i < |entries| && entries[i].name == k {
      var i :| 0 <= i < |names| && names[i] == k;
      assert entries[i].name == k;
    }
  }

  /** The table's totals add up to the number of markers: every marker is counted in exactly one row. */
  lemma AreaTableSum(ms: seq<Marker>)
    ensures SumTotals(AreaTable(ms)) == |ms|
  {
    var names := AreaOrder(ms);
    var entries := AreaTable(ms);
    forall i | 0 <= i < |entries|
      ensures entries[i].total == multiset(AreaNumbers(ms))[names[i]]
    {
      assert names[i] in names;
      TallyOfCounts(ms, names[i]);
    }
    SumTotalsCountSum(entries, names, AreaNumbers(ms));
    CountSumPermutation(names, Dedupe(AreaNumbers(ms)), AreaNumbers(ms));
    CountSumDedupe(AreaNumbers(ms));
  }

  /**
   * Totals that are the per-name counts of `keys` add up to the sum of
   * those counts.
   */
  lemma {:induction false} SumTotalsCountSum(entries: seq<AreaEntry>, names: seq<string>, keys: seq<string>)
    requires |entries| == |names|
    requires forall i :: 0 <= i < |entries| ==> entries[i].total == multiset(keys)[names[i]]
    ensures SumTotals(entries) == CountSum(names, keys)
  {
    if entries != [] {
      SumTotalsCountSum(entries[1..], names[1..], keys);
    }
  }

  /**
   * The counting half of `fetchAreaData` (repeated verbatim in the data
   * hook): count a marker list per area and list the areas with their
   * counts and percentages, which is the list's table.
   */
  method AreaData(markers: seq<Marker>) returns (entries: seq<AreaEntry>)
    ensures entries == AreaTable(markers)
  {
    var areaMap, names := CountAreas(markers);
    assert areaMap == TallyMap(markers);
    assert OwnKeys(names) == AreaOrder(markers);
    entries := AreaEntries(areaMap, OwnKeys(names));
  }

  /** `fetchAreaData`: the table of the fetched markers. */
  method FetchAreaData(rows: seq<map<string, string>>) returns (entries: seq<AreaEntry>)
    ensures entries == AreaTable(FetchMarkers(rows))
  {
    var markers := FetchMarkers(rows);
    entries := AreaData(markers);
  }

  /** The dashboard's overall figures. */
  datatype ProgressTotals = ProgressTotals(total: nat, completed: nat, percentTenths: nat)

  /** How many markers are done (status `'1'`). */
  function CountDone(ms: seq<Marker>): (n: nat)
    ensures n <= |ms|
  {
    if ms == [] then 0 else (if ms[0].status == "1" then 1 else 0) + CountDone(ms[1..])
  }

  /**
   * The overall figures of a marker list: how many there are, how many are
   * done (never more than there are), and the done share in tenths of a
   * percent, between 0 and 1000 and 0 for an empty list.
   */
  function Totals(ms: seq<Marker>): (t: ProgressTotals)
    ensures t.total == |ms| && t.completed == CountDone(ms)
    ensures t.completed <= t.total
    ensures t.percentTenths == RoundedPercentTenths(t.completed, t.total) <= 1000
    ensures t.total == 0 ==> t.percentTenths == 0
  {
    var total := |ms|;
    var completed := CountDone(ms);
    RoundedPercentTenthsBounds(completed, total);
    ProgressTotals(total, completed, RoundedPercentTenths(completed, total))
  }

  /** `fetchProgressData`: the overall figures of the fetched markers. */
  function FetchProgressData(rows: seq<map<string, string>>): (t: ProgressTotals)
    ensures t.total == |KeptRows(rows)|
    ensures t.completed <= t.total && t.percentTenths <= 1000
  {
    Totals(FetchMarkers(rows))
  }
}
