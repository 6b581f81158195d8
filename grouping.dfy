/** Grouping rows by a string key in order of first appearance: the shape of
    the per-user reduce in services/poi.service.ts and of the per-city Map in
    services/geocoding.service.ts. These functions are the specification the
    two loops are proved against. */
module Grouping {

  /** The distinct keys of `rows`, each where it first appears. */
  function Keys<R>(rows: seq<R>, keyOf: R -> string): (ks: seq<string>)
    ensures forall i, j :: 0 <= i < j < |ks| ==> ks[i] != ks[j]
    decreases |rows|
  {
    if rows == [] then []
    else
      var ks := Keys(rows[..|rows| - 1], keyOf);
      var k := keyOf(rows[|rows| - 1]);
      if k in ks then ks else ks + [k]
  }

  /** `k` is the key of some row. */
  predicate HasKey<R>(rows: seq<R>, keyOf: R -> string, k: string) {
    exists i :: 0 <= i < |rows| && keyOf(rows[i]) == k
  }

  /** The first row with key `k`. */
  function FirstRow<R>(rows: seq<R>, keyOf: R -> string, k: string): R
    requires k in Keys(rows, keyOf)
    decreases |rows|
  {
    var init := rows[..|rows| - 1];
    if k in Keys(init, keyOf) then FirstRow(init, keyOf, k) else rows[|rows| - 1]
  }

  /** The sum of `weight` over the rows with key `k`. */
  function SumFor<R>(rows: seq<R>, keyOf: R -> string, k: string, weight: R -> int): int
    decreases |rows|
  {
    if rows == [] then 0
    else
      var last := rows[|rows| - 1];
      SumFor(rows[..|rows| - 1], keyOf, k, weight) + (if keyOf(last) == k then weight(last) else 0)
  }

  /** The key of every row, in order. */
  function KeyColumn<R>(rows: seq<R>, keyOf: R -> string): (c: seq<string>)
    ensures |c| == |rows|
    ensures forall i :: 0 <= i < |rows| ==> c[i] == keyOf(rows[i])
  {
    seq(|rows|, i requires 0 <= i < |rows| => keyOf(rows[i]))
  }

  function One<R>(r: R): int { 1 }

  // ---------------------------------------------------------------------------
  // Properties
  // ---------------------------------------------------------------------------

  /** The keys are exactly the keys of the rows. */
  lemma {:induction false} KeysAreRowKeys<R>(rows: seq<R>, keyOf: R -> string, k: string)
    ensures k in Keys(rows, keyOf) <==> HasKey(rows, keyOf, k)
    decreases |rows|
  {
    if rows != [] {
      var init := rows[..|rows| - 1];
      KeysAreRowKeys(init, keyOf, k);
      if HasKey(init, keyOf, k) {
        var i :| 0 <= i < |init| && keyOf(init[i]) == k;
        assert keyOf(rows[i]) == k;
      }
      if HasKey(rows, keyOf, k) {
        var i :| 0 <= i < |rows| && keyOf(rows[i]) == k;
        if i < |rows| - 1 {
          assert keyOf(init[i]) == k;
        }
      }
    }
  }

  /** The first row with key `k` is a row with that key, and no earlier row
      has it. */
  lemma {:induction false} FirstRowIsFirst<R>(rows: seq<R>, keyOf: R -> string, k: string)
    requires k in Keys(rows, keyOf)
    ensures exists i :: 0 <= i < |rows| && rows[i] == FirstRow(rows, keyOf, k) && keyOf(rows[i]) == k
              && forall j :: 0 <= j < i ==> keyOf(rows[j]) != k
    decreases |rows|
  {
    var init := rows[..|rows| - 1];
    if k in Keys(init, keyOf) {
      FirstRowIsFirst(init, keyOf, k);
      var i :| 0 <= i < |init| && init[i] == FirstRow(init, keyOf, k) && keyOf(init[i]) == k
                && forall j :: 0 <= j < i ==> keyOf(init[j]) != k;
      assert rows[i] == init[i];
      assert forall j :: 0 <= j < i ==> rows[j] == init[j];
    } else {
      var i := |rows| - 1;
      assert keyOf(rows[i]) == k;
      forall j | 0 <= j < i
        ensures keyOf(rows[j]) != k
      {
        KeysAreRowKeys(init, keyOf, k);
        assert rows[j] == init[j];
      }
    }
  }

  /** The count of rows with key `k` is the multiplicity of `k` in the key
      column. */
  lemma {:induction false} CountIsMultiplicity<R>(rows: seq<R>, keyOf: R -> string, k: string)
    ensures SumFor(rows, keyOf, k, One) == multiset(KeyColumn(rows, keyOf))[k]
    decreases |rows|
  {
    if rows != [] {
      var init := rows[..|rows| - 1];
      CountIsMultiplicity(init, keyOf, k);
      assert KeyColumn(rows, keyOf) == KeyColumn(init, keyOf) + [keyOf(rows[|rows| - 1])];
    }
  }
  // ---------------------------------------------------------------------------
  // One more row: how each function extends
  // ---------------------------------------------------------------------------

  lemma KeysSnoc<R>(rows: seq<R>, r: R, keyOf: R -> string)
    ensures Keys(rows + [r], keyOf) ==
              if keyOf(r) in Keys(rows, keyOf) then Keys(rows, keyOf) else Keys(rows, keyOf) + [keyOf(r)]
  {
    assert (rows + [r])[..|rows|] == rows;
  }

  lemma FirstRowSnoc<R>(rows: seq<R>, r: R, keyOf: R -> string, k: string)
    requires k in Keys(rows + [r], keyOf)
    ensures FirstRow(rows + [r], keyOf, k) == if k in Keys(rows, keyOf) then FirstRow(rows, keyOf, k) else r
  {
    assert (rows + [r])[..|rows|] == rows;
  }

  lemma SumForSnoc<R>(rows: seq<R>, r: R, keyOf: R -> string, k: string, weight: R -> int)
    ensures SumFor(rows + [r], keyOf, k, weight) ==
              SumFor(rows, keyOf, k, weight) + (if keyOf(r) == k then weight(r) else 0)
  {
    assert (rows + [r])[..|rows|] == rows;
  }

  /** A key no row has sums to zero. */
  lemma {:induction false} SumForAbsent<R>(rows: seq<R>, keyOf: R -> string, k: string, weight: R -> int)
    requires k !in Keys(rows, keyOf)
    ensures SumFor(rows, keyOf, k, weight) == 0
    decreases |rows|
  {
    if rows != [] {
      SumForAbsent(rows[..|rows| - 1], keyOf, k, weight);
    }
  }
}
