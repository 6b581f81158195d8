/** `Array.prototype.sort` with a comparator `(a, b) => key(b) - key(a)`:
    a stable sort into non-increasing key order. It is modelled as insertion
    sort, each element placed after every earlier element with a key at
    least as large. */
module Sorting {

  ghost predicate SortedDesc<T>(s: seq<T>, key: T -> int) {
    forall i, j :: 0 <= i < j < |s| ==> key(s[i]) >= key(s[j])
  }

  /** Inserts `x` after every element of `s` whose key is at least `x`'s. */
  function InsertDesc<T>(x: T, s: seq<T>, key: T -> int): (r: seq<T>)
    decreases |s|
  {
    if s == [] || key(s[|s| - 1]) >= key(x) then s + [x]
    else InsertDesc(x, s[..|s| - 1], key) + [s[|s| - 1]]
  }

  function SortDesc<T>(s: seq<T>, key: T -> int): (r: seq<T>)
    decreases |s|
  {
    if s == [] then [] else InsertDesc(s[|s| - 1], SortDesc(s[..|s| - 1], key), key)
  }

  /** The first `n` elements, or all of them when there are fewer. */
  function Take<T>(s: seq<T>, n: nat): (r: seq<T>)
    ensures |r| == if |s| < n then |s| else n
    ensures forall i :: 0 <= i < |r| ==> r[i] == s[i]
  {
    if |s| <= n then s else s[..n]
  }

  lemma {:induction false} InsertDescPermutes<T>(x: T, s: seq<T>, key: T -> int)
    ensures multiset(InsertDesc(x, s, key)) == multiset(s) + multiset{x}
    decreases |s|
  {
    if !(s == [] || key(s[|s| - 1]) >= key(x)) {
      var init := s[..|s| - 1];
      InsertDescPermutes(x, init, key);
      assert s == init + [s[|s| - 1]];
    }
  }

  /** When `x` goes before the last element, everything inserted ahead of
      it has a key at least the last element's. */
  lemma InsertedAhead<T>(x: T, s: seq<T>, key: T -> int)
    requires s != [] && SortedDesc(s, key) && key(s[|s| - 1]) < key(x)
    ensures forall y :: y in InsertDesc(x, s[..|s| - 1], key) ==> key(y) >= key(s[|s| - 1])
  {
    var init := s[..|s| - 1];
    InsertDescPermutes(x, init, key);
    var r := InsertDesc(x, init, key);
    forall y | y in r
      ensures key(y) >= key(s[|s| - 1])
    {
      assert y in multiset(r);
      if y != x {
        assert y in multiset(init);
        var j :| 0 <= j < |init| && init[j] == y;
        assert s[j] == y;
      }
    }
  }

  lemma {:induction false} InsertDescSorted<T>(x: T, s: seq<T>, key: T -> int)
    requires SortedDesc(s, key)
    ensures SortedDesc(InsertDesc(x, s, key), key)
    decreases |s|
  {
    if !(s == [] || key(s[|s| - 1]) >= key(x)) {
      var init := s[..|s| - 1];
      var last := s[|s| - 1];
      InsertDescSorted(x, init, key);
      InsertedAhead(x, s, key);
      var r := InsertDesc(x, init, key);
      forall i, j | 0 <= i < j < |r + [last]|
        ensures key((r + [last])[i]) >= key((r + [last])[j])
      {
        if j == |r| {
          assert r[i] in r;
        }
      }
    }
  }

  /** The result is in non-increasing key order and is a permutation of the
      input. */
  lemma {:induction false} SortDescCorrect<T>(s: seq<T>, key: T -> int)
    ensures SortedDesc(SortDesc(s, key), key)
    ensures multiset(SortDesc(s, key)) == multiset(s)
    ensures |SortDesc(s, key)| == |s|
    decreases |s|
  {
    if s != [] {
      var init := s[..|s| - 1];
      SortDescCorrect(init, key);
      InsertDescSorted(s[|s| - 1], SortDesc(init, key), key);
      InsertDescPermutes(s[|s| - 1], SortDesc(init, key), key);
      assert s == init + [s[|s| - 1]];
      assert |SortDesc(s, key)| == |multiset(SortDesc(s, key))|;
    }
  }

  /** No element occurs twice. */
  ghost predicate Distinct<T>(s: seq<T>) {
    forall i, j :: 0 <= i < j < |s| ==> s[i] != s[j]
  }

  lemma {:induction false} DistinctAtMostOnce<T>(s: seq<T>, x: T)
    requires Distinct(s)
    ensures multiset(s)[x] <= 1
    decreases |s|
  {
    if s != [] {
      var init := s[..|s| - 1];
      assert s == init + [s[|s| - 1]];
      DistinctAtMostOnce(init, x);
      if x == s[|s| - 1] {
        assert x !in init;
      }
    }
  }

  /** Reordering keeps elements distinct; in particular sorting does. */
  lemma PermutationDistinct<T>(s: seq<T>, t: seq<T>)
    requires multiset(s) == multiset(t)
    requires Distinct(s)
    ensures Distinct(t)
  {
    forall i, j | 0 <= i < j < |t|
      ensures t[i] != t[j]
    {
      if t[i] == t[j] {
        var x := t[i];
        assert t == t[..j] + t[j..];
        assert x in t[..j] && x in t[j..];
        DistinctAtMostOnce(s, x);
        assert false;
      }
    }
  }
}
