/**
 * Sequence facts shared by the pipeline: the first-occurrence order that a
 * JavaScript `Set` (and the insertion order of a plain object's string keys)
 * gives to the distinct values of a list, and how occurrence counts add up
 * over those distinct values.
 */
module Seqs {

  /** No value occurs twice in `s`. */
  ghost predicate Distinct(s: seq<string>) {
    forall i, j :: 0 <= i < j < |s| ==> s[i] != s[j]
  }

  /**
   * The distinct values of `s`, each once, in the order of their first
   * occurrence: `[...new Set(s)]`.
   */
  function Dedupe(s: seq<string>): (d: seq<string>)
    ensures |d| <= |s|
    ensures forall x :: x in d <==> x in s
  {
    if s == [] then []
    else
      var p := Dedupe(s[..|s| - 1]);
      var x := s[|s| - 1];
      assert forall y :: y in s <==> y in s[..|s| - 1] || y == x by {
        assert s == s[..|s| - 1] + [x];
      }
      if x in p then p else p + [x]
  }

  /** Appending a value to the input adds it at the end of `Dedupe` exactly when it is new. */
  lemma DedupeSnoc(s: seq<string>, x: string)
    ensures Dedupe(s + [x]) == if x in s then Dedupe(s) else Dedupe(s) + [x]
  {
    assert (s + [x])[..|s + [x]| - 1] == s;
  }

  lemma {:induction false} DedupeDistinct(s: seq<string>)
    ensures Distinct(Dedupe(s))
  {
    if s != [] {
      DedupeDistinct(s[..|s| - 1]);
    }
  }

  /**
   * `Dedupe` lists values in the order of their first occurrence: the first
   * occurrence of an earlier listed value comes before every occurrence of a
   * later listed one.
   */
  lemma {:induction false} DedupeFirstOccurrenceOrder(s: seq<string>, i: nat, j: nat, q: nat)
    requires i < j < |Dedupe(s)|
    requires q < |s| && s[q] == Dedupe(s)[j]
    ensures Dedupe(s)[i] in s[..q]
  {
    var n := |s| - 1;
    var p := Dedupe(s[..n]);
    var x := s[n];
    if x in p {
      assert Dedupe(s) == p;
      if q == n {
        // the same value occurs earlier, at the position `Dedupe(s[..n])` knows
        var q' :| 0 <= q' < n && s[q'] == x;
        DedupeFirstOccurrenceOrder(s[..n], i, j, q');
        assert s[..n][..q'] == s[..q'];
        assert s[..q'] <= s[..q];
      } else {
        DedupeFirstOccurrenceOrder(s[..n], i, j, q);
        assert s[..n][..q] == s[..q];
      }
    } else {
      assert Dedupe(s) == p + [x];
      if j < |p| {
        DedupeFirstOccurrenceOrder(s[..n], i, j, q);
        assert s[..n][..q] == s[..q];
      } else {
        // Dedupe(s)[j] == x is new, so its only occurrence is the last one
        assert q == n;
        assert p[i] in s[..n];
        assert s[..n] == s[..q];
      }
    }
  }

  /** The first `i + 1` elements are the first `i` followed by element `i`. */
  lemma TakeSnoc<T>(s: seq<T>, i: nat)
    requires i < |s|
    ensures s[..i + 1] == s[..i] + [s[i]]
  {
  }

  /** A non-empty sequence is its front followed by its last element. */
  lemma SplitLast<T>(s: seq<T>)
    requires s != []
    ensures s == s[..|s| - 1] + [s[|s| - 1]]
  {
  }

  /** Appending to a non-empty sequence keeps its first element in front. */
  lemma ConsAppend<T>(s: seq<T>, r: seq<T>)
    requires s != []
    ensures [s[0]] + (s[1..] + r) == s + r
  {
    assert s == [s[0]] + s[1..];
  }

  /** The sum, over the values listed in `keys`, of how often each occurs in `s`. */
  function CountSum(keys: seq<string>, s: seq<string>): nat {
    if keys == [] then 0 else multiset(s)[keys[0]] + CountSum(keys[1..], s)
  }

  lemma {:induction false} CountSumAppend(a: seq<string>, b: seq<string>, s: seq<string>)
    ensures CountSum(a + b, s) == CountSum(a, s) + CountSum(b, s)
  {
    if a != [] {
      assert (a + b)[1..] == a[1..] + b;
      CountSumAppend(a[1..], b, s);
    } else {
      assert a + b == b;
    }
  }

  /** One more element in `s` adds one to the sum when its value is listed (once) in `keys`. */
  lemma {:induction false} CountSumSnoc(keys: seq<string>, s: seq<string>, x: string)
    requires Distinct(keys)
    ensures CountSum(keys, s + [x]) == CountSum(keys, s) + (if x in keys then 1 else 0)
  {
    if keys != [] {
      assert multiset(s + [x]) == multiset(s) + multiset{x};
      CountSumSnoc(keys[1..], s, x);
      assert x in keys <==> x == keys[0] || x in keys[1..] by {
        assert keys == [keys[0]] + keys[1..];
      }
      assert x == keys[0] ==> x !in keys[1..];
    }
  }

  /**
   * Counting every distinct value's occurrences accounts for each element
   * exactly once: the counts sum to the length of the list.
   */
  lemma {:induction false} CountSumDedupe(s: seq<string>)
    ensures CountSum(Dedupe(s), s) == |s|
  {
    if s != [] {
      var n := |s| - 1;
      var p, x := s[..n], s[n];
      assert s == p + [x];
      CountSumDedupe(p);
      DedupeDistinct(p);
      CountSumSnoc(Dedupe(p), p, x);
      DedupeSnoc(p, x);
      if x !in p {
        CountSumAppend(Dedupe(p), [x], s);
        assert multiset(p)[x] == 0;
        assert multiset(s) == multiset(p) + multiset{x};
      }
    }
  }

  /** A list without repeats is its own `Dedupe`. */
  lemma {:induction false} DedupeOfDistinct(s: seq<string>)
    requires Distinct(s)
    ensures Dedupe(s) == s
  {
    if s != [] {
      var n := |s| - 1;
      DedupeOfDistinct(s[..n]);
      assert s[n] !in s[..n];
      assert s[..n] + [s[n]] == s;
    }
  }

  /** In a list without repeats, each listed value occurs exactly once. */
  lemma {:induction false} DistinctOccursOnce(s: seq<string>, x: string)
    requires Distinct(s) && x in s
    ensures multiset(s)[x] == 1
  {
    var n := |s| - 1;
    assert s == s[..n] + [s[n]];
    assert multiset(s) == multiset(s[..n]) + multiset{s[n]};
    if s[n] == x {
      assert x !in s[..n];
    } else {
      DistinctOccursOnce(s[..n], x);
    }
  }

  /** Rearranging a list without repeats leaves it without repeats. */
  lemma DistinctPermutation(a: seq<string>, b: seq<string>)
    requires Distinct(a) && multiset(a) == multiset(b)
    ensures Distinct(b)
  {
    forall i, j | 0 <= i < j < |b| ensures b[i] != b[j] {
      if b[i] == b[j] {
        var x := b[i];
        assert b == b[..j] + [b[j]] + b[j + 1..];
        assert multiset(b) == multiset(b[..j]) + multiset{x} + multiset(b[j + 1..]);
        assert x in b[..j];
        assert multiset(b[..j])[x] >= 1;
        assert x in a by { assert x in multiset(b); }
        DistinctOccursOnce(a, x);
        assert false;
      }
    }
  }

  /** Taking one listed key out of the sum takes out its count. */
  lemma CountSumRemove(b: seq<string>, i: nat, s: seq<string>)
    requires i < |b|
    ensures CountSum(b, s) == multiset(s)[b[i]] + CountSum(b[..i] + b[i + 1..], s)
  {
    CountSumAppend(b[..i], [b[i]] + b[i + 1..], s);
    CountSumAppend(b[..i], b[i + 1..], s);
    assert ([b[i]] + b[i + 1..])[1..] == b[i + 1..];
    assert b[..i] + ([b[i]] + b[i + 1..]) == b;
  }

  /** Equal multisets stay equal once the same value is taken out of each. */
  lemma MultisetRemove(a: seq<string>, b: seq<string>, i: nat)
    requires a != [] && i < |b| && b[i] == a[0]
    requires multiset(a) == multiset(b)
    ensures multiset(a[1..]) == multiset(b[..i] + b[i + 1..])
  {
    var x := a[0];
    assert a == [x] + a[1..];
    assert b == b[..i] + [x] + b[i + 1..];
    assert multiset(a) == multiset{x} + multiset(a[1..]);
    assert multiset(b) == multiset(b[..i]) + multiset{x} + multiset(b[i + 1..]);
    assert multiset(b[..i] + b[i + 1..]) == multiset(b[..i]) + multiset(b[i + 1..]);
    forall y ensures multiset(a[1..])[y] == multiset(b[..i] + b[i + 1..])[y] {
      assert multiset(a)[y] == multiset(b)[y];
    }
  }

  /** The sum of occurrence counts does not depend on the order the keys are listed in. */
  lemma {:induction false} CountSumPermutation(a: seq<string>, b: seq<string>, s: seq<string>)
    requires multiset(a) == multiset(b)
    ensures CountSum(a, s) == CountSum(b, s)
    decreases |a|
  {
    if a == [] {
      assert b == [] by { assert |b| == |multiset(b)| == 0; }
    } else {
      assert a[0] in multiset(b) by { assert a[0] in multiset(a); }
      var i :| 0 <= i < |b| && b[i] == a[0];
      MultisetRemove(a, b, i);
      CountSumPermutation(a[1..], b[..i] + b[i + 1..], s);
      CountSumRemove(b, i, s);
    }
  }
}
