/**
 * The data hook (`src/hooks/useGoogleSheetsData.js`): it fetches the board
 * markers, keeps only the latest marker of each area number, recomputes the
 * per-area table and the overall figures from those, then fetches the
 * progress sheet, and tracks a loading flag and an error message.
 *
 * React's state cells are the fields of a `SheetsDataHook` object. The two
 * network responses are parameters: each is either the parsed body or the
 * message of the error the fetch threw.
 */
module SheetsData {
  import opened Wrappers
  import opened Seqs
  import opened Percent
  import opened SheetsApi
  import opened SheetsService
  import opened JsText
  import opened JsObject

  /**
   * `latestMarkersMap`: each area number mapped to the last marker carrying
   * it (`latestMarkersMap[row.areaNumber] = row`, later rows overwrite).
   */
  function LastWins(ms: seq<Marker>): (w: map<string, Marker>)
    ensures forall k :: k in w <==> k in AreaNumbers(ms)
    ensures forall k :: k in w ==> w[k].areaNumber == k
  {
    if ms == [] then map[]
    else
      var n := |ms| - 1;
      assert ms == ms[..n] + [ms[n]];
      AreaNumbersSnoc(ms[..n], ms[n]);
      LastWins(ms[..n])[ms[n].areaNumber := ms[n]]
  }

  /** A later marker overwrites its area's entry and leaves the others alone. */
  lemma LastWinsSnoc(ms: seq<Marker>, m: Marker)
    ensures LastWins(ms + [m]) == LastWins(ms)[m.areaNumber := m]
  {
    assert (ms + [m])[..|ms|] == ms;
  }

  /** The last position of a marker of area `k` (0 when there is none). */
  function LastIndex(ms: seq<Marker>, k: string): nat {
    if ms == [] then 0
    else if ms[|ms| - 1].areaNumber == k then |ms| - 1
    else LastIndex(ms[..|ms| - 1], k)
  }

  /** The map holds, for an area of the list, the marker at that area's last position. */
  lemma {:induction false} LastWinsAt(ms: seq<Marker>, k: string)
    requires k in AreaNumbers(ms)
    ensures LastIndex(ms, k) < |ms| && LastWins(ms)[k] == ms[LastIndex(ms, k)]
  {
    var n := |ms| - 1;
    var p, m := ms[..n], ms[n];
    SplitLast(ms);
    LastWinsSnoc(p, m);
    if m.areaNumber != k {
      AreaNumbersSnoc(p, m);
      LastWinsAt(p, k);
    }
  }

  /** No marker after an area's last position has that area. */
  lemma {:induction false} LastIndexIsLast(ms: seq<Marker>, k: string)
    ensures forall j :: LastIndex(ms, k) < j < |ms| ==> ms[j].areaNumber != k
  {
    if ms != [] {
      var n := |ms| - 1;
      if ms[n].areaNumber != k {
        LastIndexIsLast(ms[..n], k);
        assert forall j :: LastIndex(ms, k) < j < n ==> ms[..n][j] == ms[j];
      }
    }
  }

  /**
   * The value an area number keeps is the marker at the last position that
   * carries the area number: no later marker has it.
   */
  lemma LastWinsIsLast(ms: seq<Marker>, k: string)
    requires k in AreaNumbers(ms)
    ensures exists j :: && 0 <= j < |ms| && LastWins(ms)[k] == ms[j]
                        && forall j' :: j < j' < |ms| ==> ms[j'].areaNumber != k
  {
    LastWinsAt(ms, k);
    LastIndexIsLast(ms, k);
  }

  /**
   * `Object.values(latestMarkersMap)`: the kept markers, listed in the
   * object's key order (array-index area numbers ascending, then the others
   * in the order they were first met).
   */
  function Latest(ms: seq<Marker>): (latest: seq<Marker>)
    ensures AreaNumbers(latest) == AreaOrder(ms)
  {
    var keys := AreaOrder(ms);
    PickAll(LastWins(ms), keys);
    var latest := Pick(LastWins(ms), keys);
    assert forall i :: 0 <= i < |keys| ==> AreaNumbers(latest)[i] == keys[i] by {
      forall i | 0 <= i < |keys| ensures AreaNumbers(latest)[i] == keys[i] {
        assert keys[i] in keys;
      }
    }
    latest
  }

  /** The values `w` holds for `keys`, in the order of `keys`; keys it lacks are passed over. */
  function Pick(w: map<string, Marker>, keys: seq<string>): seq<Marker> {
    if keys == [] then []
    else if keys[0] in w then [w[keys[0]]] + Pick(w, keys[1..])
    else Pick(w, keys[1..])
  }

  /** When `w` holds every key, `Pick` lists one value per key, position by position. */
  lemma {:induction false} PickAll(w: map<string, Marker>, keys: seq<string>)
    requires forall k :: k in keys ==> k in w
    ensures |Pick(w, keys)| == |keys|
    ensures forall i :: 0 <= i < |keys| ==> Pick(w, keys)[i] == w[keys[i]]
  {
    if keys != [] {
      assert keys[0] in keys;
      PickAll(w, keys[1..]);
    }
  }

  /**
   * The dedup loop. The object's insertion order is kept beside it in
   * `keys`, as a JavaScript object keeps it for its string keys: a key is
   * appended when first assigned and keeps its place when overwritten.
   */
  method LatestMarkers(all: seq<Marker>) returns (latest: seq<Marker>)
    ensures latest == Latest(all)
  {
    var latestMap: map<string, Marker> := map[];
    var keys: seq<string> := [];
    for i := 0 to |all|
      invariant latestMap == LastWins(all[..i])
      invariant keys == Dedupe(AreaNumbers(all[..i]))
    {
      var row := all[i];
      assert all[..i + 1] == all[..i] + [row];
      LastWinsSnoc(all[..i], row);
      AreaNumbersSnoc(all[..i], row);
      DedupeSnoc(AreaNumbers(all[..i]), row.areaNumber);
      if row.areaNumber !in latestMap {
        keys := keys + [row.areaNumber];
      }
      latestMap := latestMap[row.areaNumber := row];
    }
    assert all[..|all|] == all;
    var order := OwnKeys(keys);
    assert order == AreaOrder(all);
    latest := Pick(latestMap, order);
  }

  /**
   * The kept markers carry each area number of the input exactly once, in
   * the object's key order.
   */
  lemma LatestAreaNumbers(ms: seq<Marker>)
    ensures AreaNumbers(Latest(ms)) == AreaOrder(ms)
    ensures Distinct(AreaNumbers(Latest(ms)))
    ensures forall k :: k in AreaNumbers(Latest(ms)) <==> k in AreaNumbers(ms)
  {
    var keys := AreaOrder(ms);
    PickAll(LastWins(ms), keys);
    forall i | 0 <= i < |keys| ensures AreaNumbers(Latest(ms))[i] == keys[i] {
      assert keys[i] in keys;
    }
  }

  /**
   * Each kept marker is the last marker of the input with its area number:
   * it occurs in the input, and no later input marker shares its area.
   */
  lemma LatestAreLast(ms: seq<Marker>, i: nat)
    requires i < |Latest(ms)|
    ensures exists j :: && 0 <= j < |ms| && Latest(ms)[i] == ms[j]
                        && forall j' :: j < j' < |ms| ==> ms[j'].areaNumber != Latest(ms)[i].areaNumber
  {
    PickAll(LastWins(ms), AreaOrder(ms));
    var k := AreaOrder(ms)[i];
    assert k in AreaNumbers(ms) by { assert k in AreaOrder(ms); }
    LastWinsIsLast(ms, k);
    assert Latest(ms)[i] == LastWins(ms)[k];
  }

  /**
   * After the dedup every area has exactly one marker, so the recomputed
   * table lists one row per area with total 1, done 0 or 1, and progress 0
   * or 100; and its totals add up to the number of kept markers.
   */
  lemma LatestAreaTable(ms: seq<Marker>)
    ensures var entries := AreaTable(Latest(ms));
      && |entries| == |Latest(ms)|
      && forall i :: 0 <= i < |entries| ==>
           && entries[i].total == 1
           && entries[i].done <= 1
           && (entries[i].progress == 0 || entries[i].progress == 100)
  {
    var latest := Latest(ms);
    var keys := AreaNumbers(latest);
    LatestAreaNumbers(ms);
    DedupeOfDistinct(keys);
    AreaTableCounts(latest);
    var entries := AreaTable(latest);
    forall i | 0 <= i < |entries|
      ensures entries[i].total == 1
      ensures entries[i].progress == 0 || entries[i].progress == 100
    {
      var names := AreaOrder(latest);
      assert entries[i].name == names[i] && names[i] in names;
      DistinctOccursOnce(keys, names[i]);
      RoundedPercentBounds(entries[i].done, entries[i].total);
    }
  }

  /**
   * The successful half of `fetchAllData`: the markers of the board sheet,
   * the latest of each area, and the table and figures recomputed from them.
   */
  method Recompute(rows: seq<map<string, string>>)
    returns (latest: seq<Marker>, table: seq<AreaEntry>, totals: ProgressTotals)
    ensures latest == Latest(FetchMarkers(rows))
    ensures table == AreaTable(latest) && totals == Totals(latest)
    ensures Distinct(AreaNumbers(latest))
  {
    var allMarkerData := FetchMarkers(rows);
    latest := LatestMarkers(allMarkerData);
    table := AreaData(latest);
    totals := Totals(latest);
    LatestAreaNumbers(allMarkerData);
  }

  /** The hook's state cells. */
  class SheetsDataHook {
    var areaData: seq<AreaEntry>
    var progressData: ProgressTotals
    var markers: seq<Marker>
    var progressSheet: seq<ProgressRow>
    var loading: bool
    var error: Option<string>

    /**
     * What the hook keeps between fetches: the table and the overall figures
     * always describe the markers held, and those carry each area number
     * once.
     */
    ghost predicate Consistent()
      reads this
    {
      && areaData == AreaTable(markers)
      && progressData == Totals(markers)
      && Distinct(AreaNumbers(markers))
    }

    /** The initial state: nothing loaded yet, loading, no error. */
    constructor ()
      ensures areaData == [] && markers == [] && progressSheet == []
      ensures progressData == ProgressTotals(0, 0, 0)
      ensures loading && error == None
      ensures Consistent()
    {
      areaData := [];
      progressData := ProgressTotals(0, 0, 0);
      markers := [];
      progressSheet := [];
      loading := true;
      error := None;
    }

    /**
     * The start of `fetchAllData`: loading is switched on and the error
     * cleared, and the data cells keep what they held while the fetches
     * are pending.
     */
    method BeginFetch()
      modifies this
      ensures loading && error == None
      ensures areaData == old(areaData) && progressData == old(progressData)
      ensures markers == old(markers) && progressSheet == old(progressSheet)
    {
      loading := true;
      error := None;
    }

    /**
     * The rest of `fetchAllData`, once the fetches have answered. A failed
     * board fetch changes only the error and the loading flag. A successful
     * one replaces the markers by the latest marker of each area and
     * recomputes the table and the figures from them; a failed progress
     * fetch after that keeps the old progress sheet. In every case loading
     * ends, and the state stays consistent.
     */
    method FinishFetch(boardResponse: Result<seq<map<string, string>>, string>,
                       progressResponse: Result<seq<ProgressRow>, string>)
      requires loading && error == None
      modifies this
      ensures !loading
      ensures boardResponse.Err? ==>
        && error == Some(boardResponse.error)
        && areaData == old(areaData) && progressData == old(progressData)
        && markers == old(markers) && progressSheet == old(progressSheet)
      ensures boardResponse.Ok? ==>
        && markers == Latest(FetchMarkers(boardResponse.value))
        && areaData == AreaTable(markers)
        && progressData == Totals(markers)
        && (progressResponse.Ok? ==> progressSheet == progressResponse.value && error == None)
        && (progressResponse.Err? ==> progressSheet == old(progressSheet) && error == Some(progressResponse.error))
      ensures old(Consistent()) ==> Consistent()
      ensures boardResponse.Ok? ==> Consistent()
    {
      if boardResponse.Err? {
        error, loading := Some(boardResponse.error), false;
      } else {
        var latest, table, totals := Recompute(boardResponse.value);
        ShowBoard(latest, table, totals, progressResponse);
      }
    }

    /**
     * `fetchAllData` from start to end: the pending state of `BeginFetch`
     * followed by `FinishFetch` on the two responses.
     */
    method FetchAllData(boardResponse: Result<seq<map<string, string>>, string>,
                        progressResponse: Result<seq<ProgressRow>, string>)
      modifies this
      ensures !loading
      ensures boardResponse.Err? ==>
        && error == Some(boardResponse.error)
        && areaData == old(areaData) && progressData == old(progressData)
        && markers == old(markers) && progressSheet == old(progressSheet)
      ensures boardResponse.Ok? ==>
        && markers == Latest(FetchMarkers(boardResponse.value))
        && areaData == AreaTable(markers)
        && progressData == Totals(markers)
        && (progressResponse.Ok? ==> progressSheet == progressResponse.value && error == None)
        && (progressResponse.Err? ==> progressSheet == old(progressSheet) && error == Some(progressResponse.error))
      ensures old(Consistent()) ==> Consistent()
      ensures boardResponse.Ok? ==> Consistent()
    {
      BeginFetch();
      FinishFetch(boardResponse, progressResponse);
    }

    /**
     * The end of a successful board fetch: the recomputed markers, table and
     * figures go into their cells, then the progress sheet or the progress
     * fetch's error, and loading stops.
     */
    method ShowBoard(latest: seq<Marker>, table: seq<AreaEntry>, totals: ProgressTotals,
                     progressResponse: Result<seq<ProgressRow>, string>)
      modifies this
      ensures markers == latest && areaData == table && progressData == totals && !loading
      ensures progressResponse.Ok? ==> progressSheet == progressResponse.value && error == old(error)
      ensures progressResponse.Err? ==> progressSheet == old(progressSheet) && error == Some(progressResponse.error)
    {
      markers, areaData, progressData := latest, table, totals;
      if progressResponse.Err? {
        error := Some(progressResponse.error);
      } else {
        progressSheet := progressResponse.value;
      }
      loading := false;
    }
  }

  /**
   * Two boards of area `A1` and one of `B2`: the later `A1` board replaces
   * the earlier one, so two markers remain, one of them done, and the
   * overall figure is 50.0%.
   */
  lemma DedupExample(a1: Marker, a1Later: Marker, b2: Marker)
    requires a1.areaNumber == "A1" && a1Later.areaNumber == "A1" && b2.areaNumber == "B2"
    requires a1Later.status == "1" && b2.status == "2"
    ensures Latest([a1, a1Later, b2]) == [a1Later, b2]
    ensures Totals(Latest([a1, a1Later, b2])) == ProgressTotals(2, 1, 500)
  {
    ExampleLatest([a1, a1Later, b2]);
    ExampleTotals(a1Later, b2);
  }

  lemma ExampleTotals(done: Marker, damaged: Marker)
    requires done.status == "1" && damaged.status == "2"
    ensures Totals([done, damaged]) == ProgressTotals(2, 1, 500)
  {
    assert CountDone([damaged]) == 0 by {
      assert [damaged][1..] == [];
    }
    assert CountDone([done, damaged]) == 1 by {
      assert [done, damaged][1..] == [damaged];
    }
  }

  lemma ExampleLatest(ms: seq<Marker>)
    requires |ms| == 3 && ms[0].areaNumber == "A1" && ms[1].areaNumber == "A1" && ms[2].areaNumber == "B2"
    ensures Latest(ms) == [ms[1], ms[2]]
  {
    ExampleOrder(ms);
    ExamplePick(ms);
  }

  lemma ExamplePick(ms: seq<Marker>)
    requires |ms| == 3 && ms[0].areaNumber == "A1" && ms[1].areaNumber == "A1" && ms[2].areaNumber == "B2"
    ensures Pick(LastWins(ms), ["A1", "B2"]) == [ms[1], ms[2]]
  {
    ExampleLastWins(ms);
    PickAll(LastWins(ms), ["A1", "B2"]);
  }

  /** Neither `A1` nor `B2` is an array index, so the areas keep their first-seen order. */
  lemma ExampleOrder(ms: seq<Marker>)
    requires |ms| == 3 && ms[0].areaNumber == "A1" && ms[1].areaNumber == "A1" && ms[2].areaNumber == "B2"
    ensures AreaOrder(ms) == ["A1", "B2"]
  {
    assert AreaNumbers(ms) == ["A1", "A1", "B2"];
    assert ["A1", "A1", "B2"][..2] == ["A1", "A1"];
    assert ["A1", "A1"][..1] == ["A1"];
    assert Dedupe(["A1", "A1", "B2"]) == ["A1", "B2"];
    assert !IsArrayIndex("A1") && !IsArrayIndex("B2") by { assert !IsDigit('A') && !IsDigit('B'); }
    OwnKeysNoIndex(["A1", "B2"]);
  }

  /** The later `A1` marker overwrites the earlier one. */
  lemma ExampleLastWins(ms: seq<Marker>)
    requires |ms| == 3 && ms[0].areaNumber == "A1" && ms[1].areaNumber == "A1" && ms[2].areaNumber == "B2"
    ensures LastWins(ms)["A1"] == ms[1]
    ensures LastWins(ms)["B2"] == ms[2]
  {
    assert ms[..2][..1] == [ms[0]];
    assert LastWins(ms[..2][..1]) == map["A1" := ms[0]];
    assert LastWins(ms[..2]) == map["A1" := ms[1]];
  }
}
