/**
 * The order in which `Object.keys`, `Object.values` and `Object.entries`
 * list the string-keyed properties of a plain object (OrdinaryOwnPropertyKeys,
 * section 10.1.11.1 of ECMA-262): first the keys that are array indices, in
 * ascending numeric order, then the other keys in the order they were first
 * added. Overwriting a property keeps its place.
 */
module JsObject {
  import opened JsText
  import opened Seqs

  /**
   * An array index: the canonical decimal text of a whole number below
   * 2^32 - 1 (digits only, no leading zero except `0` itself).
   */
  predicate IsArrayIndex(k: string) {
    k != [] && AllDigits(k) && (k[0] == '0' ==> |k| == 1) && DigitsValue(k) < 0xFFFF_FFFF
  }

  /** The numeric value of a key of digits (0 for other keys, which are never compared). */
  function IndexValue(k: string): nat {
    if AllDigits(k) then DigitsValue(k) else 0
  }

  /** The array-index keys of `ks`, in their order in `ks`. */
  function IndexKeys(ks: seq<string>): (r: seq<string>)
    ensures forall i :: 0 <= i < |r| ==> IsArrayIndex(r[i])
  {
    if ks == [] then []
    else (if IsArrayIndex(ks[0]) then [ks[0]] else []) + IndexKeys(ks[1..])
  }

  /** The other keys of `ks`, in their order in `ks`. */
  function NamedKeys(ks: seq<string>): (r: seq<string>)
    ensures forall i :: 0 <= i < |r| ==> !IsArrayIndex(r[i])
  {
    if ks == [] then []
    else (if IsArrayIndex(ks[0]) then [] else [ks[0]]) + NamedKeys(ks[1..])
  }

  /** Splitting the keys into the two kinds loses and adds nothing. */
  lemma {:induction false} SplitKeys(ks: seq<string>)
    ensures multiset(IndexKeys(ks)) + multiset(NamedKeys(ks)) == multiset(ks)
  {
    if ks != [] {
      SplitKeys(ks[1..]);
      assert ks == [ks[0]] + ks[1..];
    }
  }

  /** The keys of `s` are in ascending numeric order. */
  ghost predicate Ascending(s: seq<string>) {
    forall i, j :: 0 <= i < j < |s| ==> IndexValue(s[i]) <= IndexValue(s[j])
  }

  /** `k` placed into the ascending list `s` before the first larger key. */
  function Insert(k: string, s: seq<string>): (r: seq<string>)
    requires Ascending(s)
    ensures multiset(r) == multiset(s) + multiset{k}
    ensures Ascending(r)
  {
    if s == [] then [k]
    else if IndexValue(k) <= IndexValue(s[0]) then
      AscendingCons(k, s);
      [k] + s
    else
      var rest := Insert(k, s[1..]);
      assert multiset(s) == multiset{s[0]} + multiset(s[1..]) by { assert s == [s[0]] + s[1..]; }
      assert forall j :: 0 <= j < |s[1..]| ==> IndexValue(s[0]) <= IndexValue(s[1..][j]) by {
        forall j | 0 <= j < |s[1..]| ensures IndexValue(s[0]) <= IndexValue(s[1..][j]) {
          assert s[1..][j] == s[j + 1];
        }
      }
      LowerBoundKept(s[0], k, s[1..], rest);
      AscendingCons(s[0], rest);
      [s[0]] + rest
  }

  /** A lower bound of `t` and of `k` is a lower bound of any rearrangement of `t` with `k` added. */
  lemma LowerBoundKept(x: string, k: string, t: seq<string>, rest: seq<string>)
    requires multiset(rest) == multiset(t) + multiset{k}
    requires IndexValue(x) <= IndexValue(k)
    requires forall j :: 0 <= j < |t| ==> IndexValue(x) <= IndexValue(t[j])
    ensures forall j :: 0 <= j < |rest| ==> IndexValue(x) <= IndexValue(rest[j])
  {
    forall j | 0 <= j < |rest| ensures IndexValue(x) <= IndexValue(rest[j]) {
      assert rest[j] in multiset(rest);
      if rest[j] != k {
        assert rest[j] in multiset(t);
        var q :| 0 <= q < |t| && t[q] == rest[j];
      }
    }
  }

  /** A key no larger than any key of an ascending list can go in front of it. */
  lemma AscendingCons(x: string, s: seq<string>)
    requires Ascending(s)
    requires forall j :: 0 <= j < |s| ==> IndexValue(x) <= IndexValue(s[j])
    ensures Ascending([x] + s)
  {
    forall i, j | 0 <= i < j < |s| + 1 ensures IndexValue(([x] + s)[i]) <= IndexValue(([x] + s)[j]) {
      assert ([x] + s)[j] == s[j - 1];
    }
  }

  /** The keys sorted by numeric value (an insertion sort). */
  function SortByIndex(ks: seq<string>): (r: seq<string>)
    ensures multiset(r) == multiset(ks)
    ensures Ascending(r)
  {
    if ks == [] then []
    else
      assert ks == [ks[0]] + ks[1..];
      Insert(ks[0], SortByIndex(ks[1..]))
  }

  /**
   * The listing order of an object whose keys were first added in the order
   * `ks`: array indices ascending, then the other keys in insertion order.
   */
  function OwnKeys(ks: seq<string>): (r: seq<string>)
    ensures multiset(r) == multiset(ks)
    ensures |r| == |ks|
  {
    SplitKeys(ks);
    var r := SortByIndex(IndexKeys(ks)) + NamedKeys(ks);
    assert multiset(r) == multiset(SortByIndex(IndexKeys(ks))) + multiset(NamedKeys(ks));
    assert |r| == |multiset(r)| == |multiset(ks)| == |ks|;
    r
  }

  /**
   * The listing puts every array index before every other key, lists the
   * array indices in ascending numeric order, and the other keys in their
   * insertion order.
   */
  lemma OwnKeysOrder(ks: seq<string>)
    ensures var r := OwnKeys(ks); var n := |IndexKeys(ks)|;
      && n <= |r|
      && (forall i :: 0 <= i < n ==> IsArrayIndex(r[i]))
      && (forall i, j :: 0 <= i < j < n ==> IndexValue(r[i]) <= IndexValue(r[j]))
      && r[n..] == NamedKeys(ks)
  {
    var sorted := SortByIndex(IndexKeys(ks));
    assert |sorted| == |IndexKeys(ks)| by { assert |multiset(sorted)| == |multiset(IndexKeys(ks))|; }
    forall i | 0 <= i < |sorted| ensures IsArrayIndex(sorted[i]) {
      assert sorted[i] in multiset(IndexKeys(ks)) by { assert sorted[i] in multiset(sorted); }
    }
  }

  /** The listing of keys added without repeats has no repeats. */
  lemma OwnKeysDistinct(ks: seq<string>)
    requires Distinct(ks)
    ensures Distinct(OwnKeys(ks))
  {
    DistinctPermutation(ks, OwnKeys(ks));
  }

  /** An object without array-index keys lists its keys in insertion order. */
  lemma {:induction false} OwnKeysNoIndex(ks: seq<string>)
    requires forall i :: 0 <= i < |ks| ==> !IsArrayIndex(ks[i])
    ensures OwnKeys(ks) == ks
  {
    NoIndexKeys(ks);
  }

  lemma {:induction false} NoIndexKeys(ks: seq<string>)
    requires forall i :: 0 <= i < |ks| ==> !IsArrayIndex(ks[i])
    ensures IndexKeys(ks) == [] && NamedKeys(ks) == ks
  {
    if ks != [] {
      NoIndexKeys(ks[1..]);
      assert ks == [ks[0]] + ks[1..];
    }
  }

  lemma TenAndNineAreIndices()
    ensures IsArrayIndex("10") && IndexValue("10") == 10
    ensures IsArrayIndex("9") && IndexValue("9") == 9
  {
    assert "10"[..1] == "1";
    assert DigitsValue("10") == 10;
  }

  /** Numeric keys come first and in numeric order; the others keep their insertion order. */
  lemma OwnKeysExample()
    ensures OwnKeys(["b", "10", "a", "9"]) == ["9", "10", "b", "a"]
  {
    SplitExample();
    SortExample();
  }

  lemma SplitExample()
    ensures IndexKeys(["b", "10", "a", "9"]) == ["10", "9"]
    ensures NamedKeys(["b", "10", "a", "9"]) == ["b", "a"]
  {
    TenAndNineAreIndices();
    var ks: seq<string> := ["b", "10", "a", "9"];
    assert !IsArrayIndex("a") && !IsArrayIndex("b");
    assert ks[1..] == ["10", "a", "9"] && ks[1..][1..] == ["a", "9"] && ks[1..][1..][1..] == ["9"];
    assert IndexKeys(["9"]) == ["9"] && NamedKeys(["9"]) == [];
  }

  lemma SortExample()
    ensures SortByIndex(["10", "9"]) == ["9", "10"]
  {
    TenAndNineAreIndices();
    assert ["10", "9"][1..] == ["9"];
    assert SortByIndex(["9"]) == Insert("9", []) == ["9"];
    assert Insert("10", ["9"]) == ["9"] + Insert("10", []);
  }
}
