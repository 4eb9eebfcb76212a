/**
 * The map layer: how a board's status is shown (pin colour, icon, label),
 * the Google Form link for reporting a board, the grouping of boards that
 * stand at the same coordinates into one pin, the React key of each pin,
 * and the single popup panel that a click opens and the close button shuts.
 */
module MarkerLayer {
  import opened Wrappers
  import opened Seqs
  import opened JsText
  import opened JsObject
  import opened UriComponent
  import opened SheetsService

  // ---------------------------------------------------------------------
  // Status presentation
  // ---------------------------------------------------------------------

  const Red: string := "#ff3333"
  const Blue: string := "#0066cc"
  const Orange: string := "#ff9900"
  const Grey: string := "#808080"

  /**
   * `getMarkerColor`: red for not done, blue for pasted, orange for damaged,
   * grey otherwise; each colour stands for exactly one of those cases.
   */
  function MarkerColor(status: string): (c: string)
    ensures c == Red <==> status == "0"
    ensures c == Blue <==> status == "1"
    ensures c == Orange <==> status == "2"
    ensures c == Grey <==> status != "0" && status != "1" && status != "2"
  {
    match status
    case "0" => Red
    case "1" => Blue
    case "2" => Orange
    case _ => Grey
  }

  const PastedText: string := "貼り付け済"
  const DamagedText: string := "破損"
  const NotDoneText: string := "未実施"

  /**
   * `getStatusText`: the label in the popup; each label stands for exactly
   * one case, and anything but `'1'` and `'2'` reads as not done.
   */
  function StatusText(status: string): (t: string)
    ensures t == PastedText <==> status == "1"
    ensures t == DamagedText <==> status == "2"
    ensures t == NotDoneText <==> status != "1" && status != "2"
  {
    match status
    case "1" => PastedText
    case "2" => DamagedText
    case _ => NotDoneText
  }

  /** The three SVG pin images. */
  datatype Icon = NotDoneIcon | PastedIcon | DamagedIcon

  /**
   * `getMarkerIcon`: each pin image stands for exactly one case, and an
   * unknown status gets the not-done pin.
   */
  function MarkerIcon(status: string): (i: Icon)
    ensures i == PastedIcon <==> status == "1"
    ensures i == DamagedIcon <==> status == "2"
    ensures i == NotDoneIcon <==> status != "1" && status != "2"
  {
    match status
    case "0" => NotDoneIcon
    case "1" => PastedIcon
    case "2" => DamagedIcon
    case _ => NotDoneIcon
  }

  /**
   * The pin, its colour and its popup label tell the same story: a board is
   * shown as pasted exactly when its status is `'1'`, which is exactly when
   * the progress counters count it as done; it is shown as damaged exactly
   * when its status is `'2'`; every other status is shown as not done, and
   * only a status outside `'0'`, `'1'`, `'2'` is painted grey.
   */
  lemma PresentationAgrees(m: Marker)
    ensures MarkerIcon(m.status) == PastedIcon <==> StatusText(m.status) == PastedText
    ensures StatusText(m.status) == PastedText <==> MarkerColor(m.status) == Blue
    ensures MarkerColor(m.status) == Blue <==> CountDone([m]) == 1
    ensures MarkerIcon(m.status) == DamagedIcon <==> StatusText(m.status) == DamagedText
    ensures StatusText(m.status) == DamagedText <==> MarkerColor(m.status) == Orange
    ensures MarkerIcon(m.status) == NotDoneIcon <==> StatusText(m.status) == NotDoneText
    ensures MarkerColor(m.status) == Grey <==> m.status != "0" && m.status != "1" && m.status != "2"
  {
    assert [m][1..] == [];
  }

  // ---------------------------------------------------------------------
  // Report link
  // ---------------------------------------------------------------------

  /**
   * `getFormUrl`: the form's address, prefilled through its `usp=pp_url`
   * query with the board's area number, URI-component encoded, as the
   * value of the location entry.
   */
  function FormUrl(base: string, entryId: string, areaNumber: string): (url: string)
    ensures |url| > |base| + 12 + |entryId|
    ensures url[..|base| + 13 + |entryId|] == base + "?usp=pp_url&" + entryId + "="
    ensures Decode(url[|base| + 13 + |entryId|..]) == Some(areaNumber)
  {
    var v := Encode(areaNumber);
    var url := base + "?usp=pp_url&" + entryId + "=" + v;
    PrefilledQueryShape(base, entryId, v);
    DecodeEncode(areaNumber);
    assert url[..|base| + 13 + |entryId|] == base + "?usp=pp_url&" + entryId + "=";
    url
  }

  /**
   * The link is the base address, the fixed prefill parameter, the entry
   * name and `=`, followed by a value that holds no `&`, `=`, `?` or `#`
   * (so it cannot end the value, start another parameter or a fragment)
   * and that decodes back to exactly the area number.
   */
  lemma FormUrlCarriesArea(base: string, entryId: string, areaNumber: string)
    ensures var url := FormUrl(base, entryId, areaNumber);
      var n := |base| + 12 + |entryId|;
      && |url| > n
      && url[..|base|] == base
      && url[|base|..|base| + 12] == "?usp=pp_url&"
      && url[|base| + 12..n] == entryId
      && url[n] == '='
      && (forall k :: n < k < |url| ==> url[k] != '&' && url[k] != '=' && url[k] != '?' && url[k] != '#')
      && Decode(url[n + 1..]) == Some(areaNumber)
  {
    var url := FormUrl(base, entryId, areaNumber);
    var n := |base| + 12 + |entryId|;
    var v := Encode(areaNumber);
    PrefilledQueryShape(base, entryId, v);
    assert url[n + 1..] == v;
    forall k | n < k < |url| ensures url[k] != '&' && url[k] != '=' && url[k] != '?' && url[k] != '#' {
      assert Unreserved(v[k - n - 1]) || v[k - n - 1] == '%';
    }
    DecodeEncode(areaNumber);
  }

  lemma PrefilledQueryShape(base: string, entryId: string, v: string)
    ensures var url := base + "?usp=pp_url&" + entryId + "=" + v;
      var n := |base| + 12 + |entryId|;
      && |url| == n + 1 + |v|
      && url[..|base|] == base
      && url[|base|..|base| + 12] == "?usp=pp_url&"
      && url[|base| + 12..n] == entryId
      && url[n] == '='
      && url[n + 1..] == v
      && (forall k :: n < k < |url| ==> url[k] == v[k - n - 1])
  {
  }

  // ---------------------------------------------------------------------
  // Grouping by coordinates
  // ---------------------------------------------------------------------

  /** The grouping key `${lat},${lng}` of a board. */
  function CoordKey(m: Marker): string {
    m.lat + "," + m.lng
  }

  function CoordKeys(ms: seq<Marker>): (ks: seq<string>)
    ensures |ks| == |ms|
  {
    seq(|ms|, i requires 0 <= i < |ms| => CoordKey(ms[i]))
  }

  /**
   * `const [lat, lng] = key.split(',')`: the text before the first comma
   * and the text between the first and the second comma.
   */
  function SplitCoordKey(key: string): (string, string) {
    var i := FirstIndex(key, ',');
    var rest := if i < |key| then key[i + 1..] else "";
    (key[..i], rest[..FirstIndex(rest, ',')])
  }

  /** Splitting a board's key gives back its coordinates when neither holds a comma. */
  lemma SplitCoordKeyOf(m: Marker)
    requires ',' !in m.lat && ',' !in m.lng
    ensures SplitCoordKey(CoordKey(m)) == (m.lat, m.lng)
  {
    var key := CoordKey(m);
    FirstIndexAfter(m.lat, ',', m.lng);
    assert key[|m.lat| + 1..] == m.lng;
    assert key[..|m.lat|] == m.lat;
    assert m.lng[..FirstIndex(m.lng, ',')] == m.lng;
  }

  /** The boards with coordinate key `k`, in their input order (`grouped[k]`). */
  function Members(ms: seq<Marker>, k: string): seq<Marker> {
    if ms == [] then []
    else
      var rest := Members(ms[..|ms| - 1], k);
      if CoordKey(ms[|ms| - 1]) == k then rest + [ms[|ms| - 1]] else rest
  }

  /** One entry of `Object.entries(grouped)`: a key and its boards. */
  datatype Group = Group(key: string, members: seq<Marker>)

  function GroupsOf(keys: seq<string>, ms: seq<Marker>): (gs: seq<Group>)
    ensures |gs| == |keys|
  {
    seq(|keys|, i requires 0 <= i < |keys| => Group(keys[i], Members(ms, keys[i])))
  }

  /** The groups: one per distinct coordinate key, in order of the key's first occurrence. */
  function Grouped(ms: seq<Marker>): seq<Group> {
    GroupsOf(Dedupe(CoordKeys(ms)), ms)
  }

  /**
   * The grouping loop: each board is pushed onto the list of its key, a
   * list being created the first time the key is met. `order` is the order
   * in which the object's keys were added.
   */
  method CollectGroups(markers: seq<Marker>) returns (grouped: map<string, seq<Marker>>, order: seq<string>)
    ensures Collected(grouped, order, markers)
  {
    grouped := map[];
    order := [];
    for i := 0 to |markers|
      invariant Collected(grouped, order, markers[..i])
    {
      var m := markers[i];
      var key := m.lat + "," + m.lng;
      TakeSnoc(markers, i);
      CollectStep(grouped, order, markers[..i], m);
      if key !in grouped {
        grouped := grouped[key := []];
        order := order + [key];
      }
      grouped := grouped[key := grouped[key] + [m]];
    }
    assert markers[..|markers|] == markers;
  }

  /**
   * The state of the grouping object after the boards `ms`: its keys, in
   * the order they were added, are the distinct coordinate keys in order
   * of first occurrence, and each key holds the boards with that key.
   */
  ghost predicate Collected(grouped: map<string, seq<Marker>>, order: seq<string>, ms: seq<Marker>) {
    && order == Dedupe(CoordKeys(ms))
    && (forall k :: k in grouped <==> k in order)
    && (forall k :: k in grouped ==> grouped[k] == Members(ms, k))
  }

  /** One step of the grouping loop keeps the object in step with the boards seen. */
  lemma CollectStep(grouped: map<string, seq<Marker>>, order: seq<string>, ms: seq<Marker>, m: Marker)
    requires Collected(grouped, order, ms)
    ensures var key := CoordKey(m);
      var g := if key in grouped then grouped else grouped[key := []];
      var o := if key in grouped then order else order + [key];
      Collected(g[key := g[key] + [m]], o, ms + [m])
  {
    var key := CoordKey(m);
    var g := if key in grouped then grouped else grouped[key := []];
    var o := if key in grouped then order else order + [key];
    var after := g[key := g[key] + [m]];
    assert o == Dedupe(CoordKeys(ms + [m])) by {
      MembersSnoc(ms, m);
      DedupeSnoc(CoordKeys(ms), key);
    }
    assert forall k :: k in after <==> k in o;
    assert forall k :: k in after ==> after[k] == Members(ms + [m], k) by {
      MembersSnoc(ms, m);
      if key !in grouped {
        NewKeyHasNoMembers(ms, key);
      }
      forall k | k in after ensures after[k] == Members(ms + [m], k) {
        if k != key {
          assert after[k] == grouped[k];
        }
      }
    }
    assert Collected(after, o, ms + [m]);
  }

  /**
   * `Object.entries(grouped)` for an object whose keys were added in the
   * order `order`: one `[key, value]` pair per key, in the object's key
   * listing order.
   */
  function Entries(grouped: map<string, seq<Marker>>, order: seq<string>): (es: seq<Group>)
    ensures |es| == |order|
  {
    var keys := OwnKeys(order);
    seq(|keys|, t requires 0 <= t < |keys| => Group(keys[t], if keys[t] in grouped then grouped[keys[t]] else []))
  }

  /** The grouping loop followed by `Object.entries`. */
  method GroupMarkers(markers: seq<Marker>) returns (groups: seq<Group>)
    ensures groups == Grouped(markers)
  {
    var grouped, order := CollectGroups(markers);
    groups := Entries(grouped, order);
    EntriesOfCollected(grouped, order, markers);
  }

  /**
   * Listing the collected lists gives one group per distinct coordinate
   * key, in order of first occurrence: coordinate keys are never array
   * indices, so the listing keeps insertion order.
   */
  lemma EntriesOfCollected(grouped: map<string, seq<Marker>>, order: seq<string>, ms: seq<Marker>)
    requires order == Dedupe(CoordKeys(ms))
    requires forall k :: k in grouped <==> k in order
    requires forall k :: k in grouped ==> grouped[k] == Members(ms, k)
    ensures Entries(grouped, order) == Grouped(ms)
  {
    CoordKeysAreNotIndices(ms);
    OwnKeysNoIndex(order);
    var es := Entries(grouped, order);
    var spec := Grouped(ms);
    forall t | 0 <= t < |es| ensures es[t] == spec[t] {
      assert order[t] in grouped;
    }
  }

  /** A coordinate key holds a comma, so it is never an array index and keeps its insertion place. */
  lemma CoordKeysAreNotIndices(ms: seq<Marker>)
    ensures var ks := Dedupe(CoordKeys(ms));
      forall i :: 0 <= i < |ks| ==> !IsArrayIndex(ks[i])
  {
    var ks := Dedupe(CoordKeys(ms));
    forall i | 0 <= i < |ks| ensures !IsArrayIndex(ks[i]) {
      assert ks[i] in CoordKeys(ms);
      var j :| 0 <= j < |ms| && CoordKeys(ms)[j] == ks[i];
      assert ks[i][|ms[j].lat|] == ',';
    }
  }

  /** Appending a board extends the list of its own key and no other. */
  lemma MembersSnoc(ms: seq<Marker>, m: Marker)
    ensures CoordKeys(ms + [m]) == CoordKeys(ms) + [CoordKey(m)]
    ensures forall k :: Members(ms + [m], k) == if CoordKey(m) == k then Members(ms, k) + [m] else Members(ms, k)
  {
    assert (ms + [m])[..|ms|] == ms;
  }

  lemma NewKeyHasNoMembers(ms: seq<Marker>, k: string)
    requires k !in Dedupe(CoordKeys(ms))
    ensures Members(ms, k) == []
  {
    MembersCount(ms, k);
  }

  /** A key's list is as long as the key's number of occurrences. */
  lemma {:induction false} MembersCount(ms: seq<Marker>, k: string)
    ensures |Members(ms, k)| == multiset(CoordKeys(ms))[k]
  {
    if ms != [] {
      var n := |ms| - 1;
      MembersCount(ms[..n], k);
      assert CoordKeys(ms) == CoordKeys(ms[..n]) + [CoordKey(ms[n])];
    }
  }

  /** Every board in a key's list is one of the boards and has that key. */
  lemma {:induction false} MembersShareKey(ms: seq<Marker>, k: string)
    ensures forall m :: m in Members(ms, k) ==> m in ms && CoordKey(m) == k
  {
    if ms != [] {
      MembersShareKey(ms[..|ms| - 1], k);
    }
  }

  /**
   * The lists keep the input order: the list for a concatenation is the
   * list for the first part followed by the list for the second.
   */
  lemma {:induction false} MembersAppend(a: seq<Marker>, b: seq<Marker>, k: string)
    ensures Members(a + b, k) == Members(a, k) + Members(b, k)
  {
    if b == [] {
      assert a + b == a;
    } else {
      var n := |b| - 1;
      MembersAppend(a, b[..n], k);
      assert (a + b)[..|a + b| - 1] == a + b[..n];
    }
  }

  /** A board is in the list of its own key. */
  lemma {:induction false} MembersHas(ms: seq<Marker>, i: nat)
    requires i < |ms|
    ensures ms[i] in Members(ms, CoordKey(ms[i]))
  {
    var x, k := ms[i], CoordKey(ms[i]);
    var front := ms[..i + 1];
    assert front[..i] == ms[..i];
    assert Members(front, k) == Members(ms[..i], k) + [x];
    assert ms == front + ms[i + 1..];
    MembersAppend(front, ms[i + 1..], k);
  }

  function GroupSizes(gs: seq<Group>): nat {
    if gs == [] then 0 else |gs[0].members| + GroupSizes(gs[1..])
  }

  lemma {:induction false} GroupSizesCount(keys: seq<string>, ms: seq<Marker>)
    ensures GroupSizes(GroupsOf(keys, ms)) == CountSum(keys, CoordKeys(ms))
  {
    if keys != [] {
      GroupSizesCount(keys[1..], ms);
      assert GroupsOf(keys, ms)[1..] == GroupsOf(keys[1..], ms);
      MembersCount(ms, keys[0]);
    }
  }

  /** The group sizes add up to the number of boards. */
  lemma GroupedSizes(ms: seq<Marker>)
    ensures GroupSizes(Grouped(ms)) == |ms|
  {
    GroupSizesCount(Dedupe(CoordKeys(ms)), ms);
    CountSumDedupe(CoordKeys(ms));
  }

  /** No two groups have the same key, and the keys are exactly the boards' keys. */
  lemma GroupedKeys(ms: seq<Marker>)
    ensures var gs := Grouped(ms);
      forall g1, g2 :: 0 <= g1 < g2 < |gs| ==> gs[g1].key != gs[g2].key
    ensures forall i :: 0 <= i < |ms| ==> CoordKey(ms[i]) in Dedupe(CoordKeys(ms))
    ensures var gs := Grouped(ms);
      forall g :: 0 <= g < |gs| ==> gs[g].key == Dedupe(CoordKeys(ms))[g]
  {
    DedupeDistinct(CoordKeys(ms));
    forall i | 0 <= i < |ms| ensures CoordKey(ms[i]) in Dedupe(CoordKeys(ms)) {
      assert CoordKeys(ms)[i] == CoordKey(ms[i]);
    }
  }

  /**
   * Every group is non-empty, and a board belongs to a group exactly when
   * the group's key is the board's key: with the keys distinct, each board
   * is in exactly one group.
   */
  lemma GroupedMembers(ms: seq<Marker>)
    ensures var gs := Grouped(ms);
      forall g :: 0 <= g < |gs| ==> gs[g].members != []
    ensures var gs := Grouped(ms);
      forall i, g :: 0 <= i < |ms| && 0 <= g < |gs| ==> (ms[i] in gs[g].members <==> gs[g].key == CoordKey(ms[i]))
    ensures var gs := Grouped(ms);
      forall g, m :: 0 <= g < |gs| && m in gs[g].members ==> CoordKey(m) == gs[g].key
  {
    var gs := Grouped(ms);
    var ks := Dedupe(CoordKeys(ms));
    forall g | 0 <= g < |gs| ensures gs[g].members != [] {
      assert ks[g] in CoordKeys(ms);
      MembersCount(ms, ks[g]);
    }
    forall g | 0 <= g < |gs| ensures forall m :: m in gs[g].members ==> CoordKey(m) == gs[g].key {
      MembersShareKey(ms, ks[g]);
    }
    forall i, g | 0 <= i < |ms| && 0 <= g < |gs|
      ensures ms[i] in gs[g].members <==> gs[g].key == CoordKey(ms[i])
    {
      MembersShareKey(ms, ks[g]);
      if gs[g].key == CoordKey(ms[i]) {
        MembersHas(ms, i);
      }
    }
  }

  /**
   * Groups come in the order of their keys' first occurrence: any board of
   * a later group is preceded by some board of every earlier group.
   */
  lemma GroupedFirstOccurrence(ms: seq<Marker>, g1: nat, g2: nat, q: nat)
    requires g1 < g2 < |Grouped(ms)|
    requires q < |ms| && CoordKey(ms[q]) == Grouped(ms)[g2].key
    ensures Grouped(ms)[g1].key in CoordKeys(ms[..q])
  {
    var ks := CoordKeys(ms);
    DedupeFirstOccurrenceOrder(ks, g1, g2, q);
    assert ks[..q] == CoordKeys(ms[..q]);
  }

  // ---------------------------------------------------------------------
  // Rendering the pins
  // ---------------------------------------------------------------------

  /** A board as the popup shows it: with its status label and report link. */
  datatype MarkerView = MarkerView(marker: Marker, statusText: string, formUrl: string)

  function Views(base: string, entryId: string, ms: seq<Marker>): (vs: seq<MarkerView>)
    ensures |vs| == |ms|
  {
    seq(|ms|, i requires 0 <= i < |ms| =>
      MarkerView(ms[i], StatusText(ms[i].status), FormUrl(base, entryId, ms[i].areaNumber)))
  }

  /** `array.join(sep)` */
  function Join(xs: seq<string>, sep: string): string {
    if xs == [] then ""
    else if |xs| == 1 then xs[0]
    else xs[0] + sep + Join(xs[1..], sep)
  }

  /**
   * `${lat},${lng},${areaNumbers.join('-')},${groupIdx}`: whatever the
   * coordinates and area numbers hold, the text after the key's last comma
   * is the decimal group index.
   */
  function MarkerKey(lat: string, lng: string, areas: string, idx: nat): (key: string)
    ensures AllDigits(AfterLastComma(key))
    ensures DigitsValue(AfterLastComma(key)) == idx
  {
    var d := NatToString(idx);
    assert ',' !in d by {
      forall k | 0 <= k < |d| ensures d[k] != ',' { assert IsDigit(d[k]); }
    }
    AfterLastCommaOf(lat + "," + lng + "," + areas, d);
    DigitsValueNatToString(idx);
    lat + "," + lng + "," + areas + "," + d
  }

  /** One rendered pin: its React key, position, icon and the popup content of its boards. */
  datatype Pin = Pin(key: string, lat: string, lng: string, icon: Icon, group: seq<MarkerView>)

  predicate NonEmptyGroups(gs: seq<Group>) {
    forall g :: 0 <= g < |gs| ==> gs[g].members != []
  }

  /** The pin of the group at position `idx`; its icon is taken from the group's first board. */
  function RenderGroup(base: string, entryId: string, g: Group, idx: nat): Pin
    requires g.members != []
  {
    var (lat, lng) := SplitCoordKey(g.key);
    Pin(MarkerKey(lat, lng, Join(AreaNumbers(g.members), "-"), idx), lat, lng,
        MarkerIcon(g.members[0].status), Views(base, entryId, g.members))
  }

  function Render(base: string, entryId: string, gs: seq<Group>): (pins: seq<Pin>)
    requires NonEmptyGroups(gs)
    ensures |pins| == |gs|
  {
    seq(|gs|, i requires 0 <= i < |gs| => RenderGroup(base, entryId, gs[i], i))
  }

  /** The text after the last comma of `s`. */
  function AfterLastComma(s: string): (d: string)
    ensures ',' !in d && |d| <= |s|
  {
    if s == [] || s[|s| - 1] == ',' then []
    else AfterLastComma(s[..|s| - 1]) + [s[|s| - 1]]
  }

  lemma {:induction false} AfterLastCommaOf(x: string, d: string)
    requires ',' !in d
    ensures AfterLastComma(x + "," + d) == d
  {
    var s := x + "," + d;
    if d != [] {
      var n := |d| - 1;
      AfterLastCommaOf(x, d[..n]);
      assert s[..|s| - 1] == x + "," + d[..n];
      assert d == d[..n] + [d[n]];
    }
  }

  /** The pins' React keys are pairwise different. */
  lemma PinKeysUnique(base: string, entryId: string, gs: seq<Group>)
    requires NonEmptyGroups(gs)
    ensures var pins := Render(base, entryId, gs);
      forall i, j :: 0 <= i < j < |pins| ==> pins[i].key != pins[j].key
  {
    var pins := Render(base, entryId, gs);
    forall i, j | 0 <= i < j < |pins| ensures pins[i].key != pins[j].key {
      assert DigitsValue(AfterLastComma(pins[i].key)) == i;
      assert DigitsValue(AfterLastComma(pins[j].key)) == j;
    }
  }

  /** A pin's icon agrees with the status label of the first board in its popup. */
  lemma PinIconAgrees(base: string, entryId: string, g: Group, idx: nat)
    requires g.members != []
    ensures var pin := RenderGroup(base, entryId, g, idx);
      && pin.group != []
      && pin.group[0].marker == g.members[0]
      && (pin.icon == PastedIcon <==> pin.group[0].statusText == PastedText)
      && (pin.icon == DamagedIcon <==> pin.group[0].statusText == DamagedText)
      && (pin.icon == NotDoneIcon <==> pin.group[0].statusText == NotDoneText)
  {
    PresentationAgrees(g.members[0]);
  }

  /**
   * A pin stands at the coordinates of each of its boards when they share
   * its key and hold no comma, and its popup lists those boards in order.
   */
  lemma PinPosition(base: string, entryId: string, g: Group, idx: nat)
    requires g.members != []
    requires forall m :: m in g.members ==> CoordKey(m) == g.key && ',' !in m.lat && ',' !in m.lng
    ensures var pin := RenderGroup(base, entryId, g, idx);
      && |pin.group| == |g.members|
      && forall t :: 0 <= t < |pin.group| ==>
        && pin.group[t].marker == g.members[t]
        && pin.lat == g.members[t].lat
        && pin.lng == g.members[t].lng
  {
    forall t | 0 <= t < |g.members| ensures SplitCoordKey(g.key) == (g.members[t].lat, g.members[t].lng) {
      assert g.members[t] in g.members;
      SplitCoordKeyOf(g.members[t]);
    }
  }

  /**
   * Each pin drawn for a board list stands at its boards' coordinates (when
   * coordinates hold no comma) and its popup lists its boards in input order.
   */
  lemma PinsOfBoards(base: string, entryId: string, ms: seq<Marker>, g: nat)
    requires forall i :: 0 <= i < |ms| ==> ',' !in ms[i].lat && ',' !in ms[i].lng
    requires g < |Grouped(ms)|
    ensures NonEmptyGroups(Grouped(ms))
    ensures NonEmptyGroups(Grouped(ms)) &&
      var gs := Grouped(ms); var pin := Render(base, entryId, gs)[g];
      forall t :: 0 <= t < |pin.group| ==>
        && pin.group[t].marker == gs[g].members[t]
        && pin.lat == gs[g].members[t].lat
        && pin.lng == gs[g].members[t].lng
  {
    GroupedMembers(ms);
    var gs := Grouped(ms);
    forall m | m in gs[g].members ensures CoordKey(m) == gs[g].key && ',' !in m.lat && ',' !in m.lng {
      MembersShareKey(ms, gs[g].key);
      var i :| 0 <= i < |ms| && ms[i] == m;
    }
    PinPosition(base, entryId, gs[g], g);
  }

  // ---------------------------------------------------------------------
  // The popup panel
  // ---------------------------------------------------------------------

  /** The open panel: the boards of the clicked pin and where it stands. */
  datatype Popup = Popup(group: seq<MarkerView>, lat: string, lng: string)

  /** The "several boards at this place" banner. */
  predicate ShowsBanner(p: Popup) {
    |p.group| > 1
  }

  /** The one `activePopup` slot of the layer. */
  class MarkerPopup {
    var activePopup: Option<Popup>

    /** The layer starts with no panel open. */
    constructor()
      ensures activePopup == None
    {
      activePopup := None;
    }

    /** Clicking a pin replaces whatever panel is open with that pin's boards. */
    method Click(pin: Pin)
      modifies this
      ensures activePopup == Some(Popup(pin.group, pin.lat, pin.lng))
    {
      activePopup := Some(Popup(pin.group, pin.lat, pin.lng));
    }

    /** The close button shuts the panel. */
    method Close()
      modifies this
      ensures activePopup == None
    {
      activePopup := None;
    }
  }

  /**
   * The panel opened on a pin of the board list shows the banner exactly
   * when at least two boards of the list share that pin's coordinate key.
   */
  lemma BannerMeansSharedSite(base: string, entryId: string, ms: seq<Marker>, g: nat)
    requires g < |Grouped(ms)|
    ensures NonEmptyGroups(Grouped(ms))
    ensures NonEmptyGroups(Grouped(ms)) &&
      var pin := Render(base, entryId, Grouped(ms))[g];
      ShowsBanner(Popup(pin.group, pin.lat, pin.lng)) <==> multiset(CoordKeys(ms))[Grouped(ms)[g].key] > 1
  {
    GroupedMembers(ms);
    MembersCount(ms, Grouped(ms)[g].key);
  }
}
