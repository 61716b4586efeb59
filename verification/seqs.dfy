/**
 * The array operations the screens use: `filter`, `find`, appending with a
 * spread, writing one index of a copy, and removing one index with
 * `filter((_, i) => i !== index)`.
 */
module Seqs {
  import opened Wrappers

  /** `s.filter(p)`. */
  function Filter<T>(s: seq<T>, p: T -> bool): (r: seq<T>)
    ensures |r| <= |s|
    ensures forall i :: 0 <= i < |r| ==> p(r[i])
    ensures forall x :: x in r ==> x in s
    ensures forall i :: 0 <= i < |s| && p(s[i]) ==> s[i] in r
  {
    if s == [] then []
    else (if p(s[0]) then [s[0]] else []) + Filter(s[1..], p)
  }

  /** Filtering commutes with concatenation, so the kept elements stay in their original order. */
  lemma {:induction false} FilterAppend<T>(a: seq<T>, b: seq<T>, p: T -> bool)
    ensures Filter(a + b, p) == Filter(a, p) + Filter(b, p)
  {
    if a == [] {
      assert a + b == b;
    } else {
      assert (a + b)[1..] == a[1..] + b;
      FilterAppend(a[1..], b, p);
    }
  }

  /** A filter that keeps every element returns the same list. */
  lemma {:induction false} FilterKeepsAll<T>(s: seq<T>, p: T -> bool)
    requires forall i :: 0 <= i < |s| ==> p(s[i])
    ensures Filter(s, p) == s
  {
    if s != [] {
      FilterKeepsAll(s[1..], p);
    }
  }

  /** Filtering by `p` and then by `q` is filtering once by their conjunction `pq`. */
  lemma {:induction false} FilterFilter<T>(s: seq<T>, p: T -> bool, q: T -> bool, pq: T -> bool)
    requires forall x :: pq(x) == (p(x) && q(x))
    ensures Filter(Filter(s, p), q) == Filter(s, pq)
  {
    if s != [] {
      FilterFilter(s[1..], p, q, pq);
      if p(s[0]) {
        assert Filter(s, p) == [s[0]] + Filter(s[1..], p);
        FilterAppend([s[0]], Filter(s[1..], p), q);
        assert [s[0]][1..] == [];
        assert Filter([s[0]], q) == if q(s[0]) then [s[0]] else [];
        assert Filter(Filter(s, p), q) == Filter([s[0]], q) + Filter(s[1..], pq);
        assert pq(s[0]) == q(s[0]);
        assert Filter(s, pq) == (if pq(s[0]) then [s[0]] else []) + Filter(s[1..], pq);
      } else {
        assert !pq(s[0]);
        assert Filter(s, p) == [] + Filter(s[1..], p);
        assert Filter(s, p) == Filter(s[1..], p);
        assert Filter(s, pq) == [] + Filter(s[1..], pq);
      }
    }
  }

  /** A filter returns a list as long as its input exactly when it keeps every element. */
  lemma {:induction false} FilterLengthAll<T>(s: seq<T>, p: T -> bool)
    ensures |Filter(s, p)| == |s| <==> forall i :: 0 <= i < |s| ==> p(s[i])
  {
    if s != [] {
      FilterLengthAll(s[1..], p);
      assert Filter(s, p) == (if p(s[0]) then [s[0]] else []) + Filter(s[1..], p);
      if forall i :: 0 <= i < |s| ==> p(s[i]) {
        assert forall i :: 0 <= i < |s[1..]| ==> p(s[1..][i]) by {
          forall i | 0 <= i < |s[1..]| ensures p(s[1..][i]) {
            assert s[1..][i] == s[i + 1];
          }
        }
      } else if p(s[0]) {
        var k :| 0 <= k < |s| && !p(s[k]);
        assert s[1..][k - 1] == s[k];
      }
    }
  }

  /** `r` is `s` with some elements left out, the rest in their original order. */
  predicate Subsequence<T(==)>(r: seq<T>, s: seq<T>)
    decreases |s|
  {
    if r == [] then true
    else if s == [] then false
    else (r[0] == s[0] && Subsequence(r[1..], s[1..])) || Subsequence(r, s[1..])
  }

  /** A filter keeps its elements in their original order. */
  lemma {:induction false} FilterIsSubsequence<T>(s: seq<T>, p: T -> bool)
    ensures Subsequence(Filter(s, p), s)
  {
    if s != [] {
      FilterIsSubsequence(s[1..], p);
      var r := Filter(s, p);
      if p(s[0]) {
        assert r == [s[0]] + Filter(s[1..], p);
        assert r[1..] == Filter(s[1..], p);
      } else {
        assert r == Filter(s[1..], p);
      }
    }
  }

  /** `s.find(p)`: the first element satisfying `p`. */
  function Find<T>(s: seq<T>, p: T -> bool): (r: Option<T>)
    ensures r.None? <==> forall i :: 0 <= i < |s| ==> !p(s[i])
    ensures r.Some? ==> exists i :: 0 <= i < |s| && s[i] == r.value && p(s[i])
                                    && forall j :: 0 <= j < i ==> !p(s[j])
  {
    if s == [] then None
    else if p(s[0]) then Some(s[0])
    else
      var r := Find(s[1..], p);
      assert r.Some? ==> exists i :: 0 <= i < |s| - 1 && s[1..][i] == r.value && p(s[1..][i])
                                     && forall j :: 0 <= j < i ==> !p(s[1..][j]);
      r
  }

  /** `[...s, x]`. */
  function Append<T>(s: seq<T>, x: T): (r: seq<T>)
    ensures |r| == |s| + 1 && r[|s|] == x && r[..|s|] == s
  {
    s + [x]
  }

  /** `const copy = [...s]; copy[index] = x;` for an index inside the list. */
  function ReplaceAt<T>(s: seq<T>, index: nat, x: T): (r: seq<T>)
    requires index < |s|
    ensures |r| == |s| && r[index] == x
    ensures forall j :: 0 <= j < |s| && j != index ==> r[j] == s[j]
  {
    s[index := x]
  }

  /** `s.filter((_, i) => i !== index)`; an index outside the list removes nothing. */
  function RemoveAt<T>(s: seq<T>, index: nat): (r: seq<T>)
    ensures index < |s| ==> |r| == |s| - 1
    ensures index < |s| ==> forall j :: 0 <= j < index ==> r[j] == s[j]
    ensures index < |s| ==> forall j :: index <= j < |r| ==> r[j] == s[j + 1]
    ensures index >= |s| ==> r == s
  {
    RemoveAtFrom(s, index, 0)
  }

  /** The index filter over a suffix whose first element sits at position `offset`. */
  function RemoveAtFrom<T>(s: seq<T>, index: nat, offset: nat): (r: seq<T>)
    ensures offset <= index < offset + |s| ==> |r| == |s| - 1
    ensures offset <= index < offset + |s| ==> forall j :: 0 <= j < index - offset ==> r[j] == s[j]
    ensures offset <= index < offset + |s| ==> forall j :: index - offset <= j < |r| ==> r[j] == s[j + 1]
    ensures !(offset <= index < offset + |s|) ==> r == s
    decreases |s|
  {
    if s == [] then []
    else (if offset != index then [s[0]] else []) + RemoveAtFrom(s[1..], index, offset + 1)
  }
  /** Removing the element just appended gives the list back. */
  lemma RemoveAppended<T>(s: seq<T>, x: T)
    ensures RemoveAt(Append(s, x), |s|) == s
  {
    var r := RemoveAt(Append(s, x), |s|);
    assert |r| == |s|;
    assert forall j :: 0 <= j < |s| ==> r[j] == s[j];
  }

  /** Writing back the element already at an index changes nothing. */
  lemma ReplaceWithSame<T>(s: seq<T>, index: nat)
    requires index < |s|
    ensures ReplaceAt(s, index, s[index]) == s
  {
  }

  /**
   * A property every element has survives removing an index, and, when the
   * new element has it too, appending it or writing it at an index.
   */
  lemma ChangesKeep<T>(s: seq<T>, x: T, index: nat, q: T -> bool)
    requires forall j :: 0 <= j < |s| ==> q(s[j])
    ensures q(x) ==> forall j :: 0 <= j < |Append(s, x)| ==> q(Append(s, x)[j])
    ensures q(x) && index < |s| ==> forall j :: 0 <= j < |ReplaceAt(s, index, x)| ==> q(ReplaceAt(s, index, x)[j])
    ensures forall j :: 0 <= j < |RemoveAt(s, index)| ==> q(RemoveAt(s, index)[j])
  {
    var r := Append(s, x);
    forall j | 0 <= j < |r| && q(x) ensures q(r[j]) {
      if j < |s| {
        assert r[j] == r[..|s|][j];
      }
    }
    RemoveAtKeepsOthers(s, index, q);
  }

  /** Every element of the list without one index was in the list. */
  lemma RemoveAtKeepsOthers<T>(s: seq<T>, index: nat, q: T -> bool)
    requires forall j :: 0 <= j < |s| ==> q(s[j])
    ensures forall j :: 0 <= j < |RemoveAt(s, index)| ==> q(RemoveAt(s, index)[j])
  {
    var r := RemoveAt(s, index);
    if index < |s| {
      forall j | 0 <= j < |r| ensures q(r[j]) {
        if j < index {
          assert r[j] == s[j];
        } else {
          assert r[j] == s[j + 1];
        }
      }
    }
  }
}
