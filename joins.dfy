/**
 * `pd.merge` on one key: the inner merge used to pair home and away rows
 * (and to attach advanced stats), and the left merge that attaches odds to
 * predictions.  Output follows the order of the left table; a left row
 * meets every right row with its key, in right-table order.
 */
module Joins {
  import opened Common

  function MatchesOf<L, R, K(==), O>(l: L, right: seq<R>, lk: L -> K, rk: R -> K, combine: (L, R) -> O): (r: seq<O>)
    ensures |r| <= |right|
    ensures forall j :: 0 <= j < |right| && rk(right[j]) == lk(l) ==> combine(l, right[j]) in r
  {
    if |right| == 0 then []
    else
      var tail := right[1..];
      var rest := MatchesOf(l, tail, lk, rk, combine);
      var r := if rk(right[0]) == lk(l) then [combine(l, right[0])] + rest else rest;
      forall j | 0 <= j < |right| && rk(right[j]) == lk(l) ensures combine(l, right[j]) in r {
        if j > 0 {
          assert tail[j - 1] == right[j];
        }
      }
      r
  }

  /** Every row of the matches pairs `l` with a right row of its key. */
  lemma {:induction false} MatchesOfSound<L, R, K, O>(l: L, right: seq<R>, lk: L -> K, rk: R -> K, combine: (L, R) -> O)
    ensures forall k :: 0 <= k < |MatchesOf(l, right, lk, rk, combine)| ==>
      exists j :: 0 <= j < |right| && rk(right[j]) == lk(l) && MatchesOf(l, right, lk, rk, combine)[k] == combine(l, right[j])
  {
    if |right| > 0 {
      var tail := right[1..];
      MatchesOfSound(l, tail, lk, rk, combine);
      var rest := MatchesOf(l, tail, lk, rk, combine);
      var here := rk(right[0]) == lk(l);
      var r := MatchesOf(l, right, lk, rk, combine);
      assert r == if here then [combine(l, right[0])] + rest else rest;
      forall k | 0 <= k < |MatchesOf(l, right, lk, rk, combine)|
        ensures exists j :: 0 <= j < |right| && rk(right[j]) == lk(l) && MatchesOf(l, right, lk, rk, combine)[k] == combine(l, right[j])
      {
        if here && k == 0 {
          assert rk(right[0]) == lk(l) && r[0] == combine(l, right[0]);
        } else {
          var k' := if here then k - 1 else k;
          assert r[k] == rest[k'];
          var j :| 0 <= j < |tail| && rk(tail[j]) == lk(l) && rest[k'] == combine(l, tail[j]);
          assert tail[j] == right[j + 1];
          assert 0 <= j + 1 < |right| && rk(right[j + 1]) == lk(l) && r[k] == combine(l, right[j + 1]);
        }
      }
    } else {
      assert MatchesOf(l, right, lk, rk, combine) == [];
    }
  }

  /** Inner merge: one output row per matching (left, right) pair. */
  function InnerJoin<L, R, K(==), O>(left: seq<L>, right: seq<R>, lk: L -> K, rk: R -> K, combine: (L, R) -> O): (r: seq<O>)
    ensures forall i, j :: 0 <= i < |left| && 0 <= j < |right| && lk(left[i]) == rk(right[j]) ==> combine(left[i], right[j]) in r
  {
    if |left| == 0 then []
    else
      var tail := left[1..];
      var here := MatchesOf(left[0], right, lk, rk, combine);
      var rest := InnerJoin(tail, right, lk, rk, combine);
      var r := here + rest;
      forall i, j | 0 <= i < |left| && 0 <= j < |right| && lk(left[i]) == rk(right[j])
        ensures combine(left[i], right[j]) in r
      {
        if i > 0 {
          assert tail[i - 1] == left[i];
        }
      }
      r
  }

  /** `x` combines a left row and a right row with equal keys. */
  ghost predicate JoinedRow<L, R, K, O>(left: seq<L>, right: seq<R>, lk: L -> K, rk: R -> K, combine: (L, R) -> O, x: O)
  {
    exists i, j :: 0 <= i < |left| && 0 <= j < |right| && lk(left[i]) == rk(right[j]) && x == combine(left[i], right[j])
  }

  /** Every output row combines a left row and a right row with equal keys. */
  lemma {:induction false} InnerJoinSound<L, R, K, O>(left: seq<L>, right: seq<R>, lk: L -> K, rk: R -> K, combine: (L, R) -> O)
    ensures forall x :: x in InnerJoin(left, right, lk, rk, combine) ==> JoinedRow(left, right, lk, rk, combine, x)
  {
    if |left| > 0 {
      var tail := left[1..];
      var here := MatchesOf(left[0], right, lk, rk, combine);
      var rest := InnerJoin(tail, right, lk, rk, combine);
      MatchesOfSound(left[0], right, lk, rk, combine);
      InnerJoinSound(tail, right, lk, rk, combine);
      assert InnerJoin(left, right, lk, rk, combine) == here + rest;
      forall x | x in here + rest ensures JoinedRow(left, right, lk, rk, combine, x) {
        if x in here {
          var k :| 0 <= k < |here| && here[k] == x;
          var j :| 0 <= j < |right| && rk(right[j]) == lk(left[0]) && here[k] == combine(left[0], right[j]);
          assert lk(left[0]) == rk(right[j]) && x == combine(left[0], right[j]);
        } else {
          assert x in rest;
          var i, j :| 0 <= i < |tail| && 0 <= j < |right| && lk(tail[i]) == rk(right[j]) && x == combine(tail[i], right[j]);
          assert left[i + 1] == tail[i];
          assert lk(left[i + 1]) == rk(right[j]) && x == combine(left[i + 1], right[j]);
        }
      }
    }
  }

  /** The unique right row with the left row's key, if any. */
  function FindByKey<R, K(==)>(right: seq<R>, rk: R -> K, k: K): (r: Option<R>)
    ensures r.Some? ==> r.value in right && rk(r.value) == k
    ensures r.None? ==> forall j :: 0 <= j < |right| ==> rk(right[j]) != k
  {
    if |right| == 0 then None
    else if rk(right[0]) == k then Some(right[0])
    else
      assert forall j :: 0 < j < |right| ==> right[j] == right[1..][j - 1];
      FindByKey(right[1..], rk, k)
  }

  /**
   * Left merge: every left row is kept; it meets each right row with its
   * key, or none, in which case the right-hand columns are missing.
   */
  function LeftJoin<L, R, K(==), O>(left: seq<L>, right: seq<R>, lk: L -> K, rk: R -> K, combine: (L, Option<R>) -> O): (r: seq<O>)
    ensures |r| >= |left|
  {
    if |left| == 0 then []
    else
      var here := MatchesOf(left[0], right, lk, rk, (l, x) => combine(l, Some(x)));
      (if |here| == 0 then [combine(left[0], None)] else here)
      + LeftJoin(left[1..], right, lk, rk, combine)
  }

  ghost predicate UniqueRightKeys<R, K>(right: seq<R>, rk: R -> K)
  {
    forall i, j :: 0 <= i < j < |right| ==> rk(right[i]) != rk(right[j])
  }

  lemma {:induction false} MatchesOfUnique<L, R, K, O>(l: L, right: seq<R>, lk: L -> K, rk: R -> K, combine: (L, R) -> O)
    requires UniqueRightKeys(right, rk)
    ensures MatchesOf(l, right, lk, rk, combine) ==
      (var m := FindByKey(right, rk, lk(l)); if m.Some? then [combine(l, m.value)] else [])
  {
    if |right| > 0 {
      assert UniqueRightKeys(right[1..], rk) by {
        assert forall j :: 0 <= j < |right[1..]| ==> right[1..][j] == right[j + 1];
      }
      MatchesOfUnique(l, right[1..], lk, rk, combine);
      if rk(right[0]) == lk(l) {
        assert forall j :: 0 <= j < |right[1..]| ==> rk(right[1..][j]) != lk(l);
      }
    }
  }

  /** With unique right keys the left merge keeps the left table row for row. */
  lemma {:induction false} LeftJoinUnique<L, R, K, O>(left: seq<L>, right: seq<R>, lk: L -> K, rk: R -> K, combine: (L, Option<R>) -> O)
    requires UniqueRightKeys(right, rk)
    ensures |LeftJoin(left, right, lk, rk, combine)| == |left|
    ensures forall i :: 0 <= i < |left| ==>
      LeftJoin(left, right, lk, rk, combine)[i] == combine(left[i], FindByKey(right, rk, lk(left[i])))
  {
    if |left| > 0 {
      MatchesOfUnique(left[0], right, lk, rk, (l, x) => combine(l, Some(x)));
      LeftJoinUnique(left[1..], right, lk, rk, combine);
      assert forall i :: 0 < i < |left| ==> left[i] == left[1..][i - 1];
    }
  }
}
