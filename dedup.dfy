/**
 * `drop_duplicates(subset=key, keep='last')` and the append-then-deduplicate
 * pattern every incremental table of the pipeline uses: the stored rows
 * followed by a freshly fetched batch, reduced so that each key keeps only
 * its last occurrence, surviving rows in their original order.
 */
module Dedup {

  function KeySet<T, K(==)>(rows: seq<T>, key: T -> K): set<K>
  {
    set i | 0 <= i < |rows| :: key(rows[i])
  }

  /** No later row has the same key: this occurrence is the one kept. */
  ghost predicate IsLast<T, K>(rows: seq<T>, key: T -> K, i: int)
    requires 0 <= i < |rows|
  {
    forall j :: i < j < |rows| ==> key(rows[j]) != key(rows[i])
  }

  ghost predicate UniqueKeys<T, K>(rows: seq<T>, key: T -> K)
  {
    forall i, j :: 0 <= i < j < |rows| ==> key(rows[i]) != key(rows[j])
  }

  lemma KeySetCons<T, K>(x: T, rows: seq<T>, key: T -> K)
    ensures KeySet([x] + rows, key) == {key(x)} + KeySet(rows, key)
  {
    var s := [x] + rows;
    assert forall i :: 0 < i < |s| ==> s[i] == rows[i - 1];
    assert key(s[0]) in KeySet(s, key);
    forall k | k in KeySet(rows, key) ensures k in KeySet(s, key) {
      var i :| 0 <= i < |rows| && key(rows[i]) == k;
      assert s[i + 1] == rows[i];
    }
    forall k | k in KeySet(s, key) ensures k in {key(x)} + KeySet(rows, key) {
      var i :| 0 <= i < |s| && key(s[i]) == k;
      if i > 0 {
        assert key(rows[i - 1]) in KeySet(rows, key);
      }
    }
  }

  function KeepLast<T, K(==)>(rows: seq<T>, key: T -> K): (r: seq<T>)
    ensures UniqueKeys(r, key)
    ensures KeySet(r, key) == KeySet(rows, key)
    ensures |r| <= |rows|
  {
    if |rows| == 0 then []
    else
      var rest := KeepLast(rows[1..], key);
      assert rows == [rows[0]] + rows[1..];
      KeySetCons(rows[0], rows[1..], key);
      if key(rows[0]) in KeySet(rows[1..], key) then rest
      else
        KeySetCons(rows[0], rest, key);
        [rows[0]] + rest
  }

  /**
   * The rows kept are exactly the last occurrences of their keys, in the
   * order they had.
   */
  lemma {:induction false} KeepLastKeepsLastOccurrences<T, K>(rows: seq<T>, key: T -> K)
    ensures forall i :: 0 <= i < |rows| && IsLast(rows, key, i) ==> rows[i] in KeepLast(rows, key)
    ensures forall x :: x in KeepLast(rows, key) ==>
              exists i :: 0 <= i < |rows| && rows[i] == x && IsLast(rows, key, i)
  {
    if |rows| > 0 {
      var tail := rows[1..];
      KeepLastKeepsLastOccurrences(tail, key);
      assert forall i :: 0 < i < |rows| ==> (IsLast(rows, key, i) <==> IsLast(tail, key, i - 1)) by {
        forall i | 0 < i < |rows| ensures IsLast(rows, key, i) <==> IsLast(tail, key, i - 1) {
          if !IsLast(tail, key, i - 1) {
            var j :| i - 1 < j < |tail| && key(tail[j]) == key(tail[i - 1]);
            assert key(rows[j + 1]) == key(rows[i]);
          }
        }
      }
      var r := KeepLast(rows, key);
      assert IsLast(rows, key, 0) <==> key(rows[0]) !in KeySet(tail, key);
      forall x | x in r
        ensures exists i :: 0 <= i < |rows| && rows[i] == x && IsLast(rows, key, i)
      {
        if x in KeepLast(tail, key) {
          var i :| 0 <= i < |tail| && tail[i] == x && IsLast(tail, key, i);
          assert rows[i + 1] == x;
        } else {
          assert x == rows[0];
        }
      }
    }
  }

  /** Rows whose key is not in `ks`. */
  function DropKeys<T, K(==)>(rows: seq<T>, key: T -> K, ks: set<K>): (r: seq<T>)
    ensures forall i :: 0 <= i < |r| ==> key(r[i]) !in ks && r[i] in rows
  {
    if |rows| == 0 then []
    else if key(rows[0]) in ks then DropKeys(rows[1..], key, ks)
    else [rows[0]] + DropKeys(rows[1..], key, ks)
  }

  lemma {:induction false} DropKeysAppend<T, K>(a: seq<T>, b: seq<T>, key: T -> K, ks: set<K>)
    ensures DropKeys(a + b, key, ks) == DropKeys(a, key, ks) + DropKeys(b, key, ks)
  {
    if |a| == 0 {
      assert a + b == b;
    } else {
      assert (a + b)[1..] == a[1..] + b;
      DropKeysAppend(a[1..], b, key, ks);
    }
  }

  lemma {:induction false} DropKeysNone<T, K>(rows: seq<T>, key: T -> K, ks: set<K>)
    requires KeySet(rows, key) <= ks
    ensures DropKeys(rows, key, ks) == []
  {
    if |rows| > 0 {
      assert key(rows[0]) in KeySet(rows, key);
      assert KeySet(rows[1..], key) <= KeySet(rows, key) by {
        assert forall i :: 0 <= i < |rows[1..]| ==> rows[1..][i] == rows[i + 1];
      }
      DropKeysNone(rows[1..], key, ks);
    }
  }

  lemma {:induction false} KeySetDropKeys<T, K>(rows: seq<T>, key: T -> K, ks: set<K>)
    ensures KeySet(DropKeys(rows, key, ks), key) == KeySet(rows, key) - ks
  {
    if |rows| > 0 {
      KeySetDropKeys(rows[1..], key, ks);
      assert rows == [rows[0]] + rows[1..];
      KeySetCons(rows[0], rows[1..], key);
      var d := DropKeys(rows[1..], key, ks);
      KeySetCons(rows[0], d, key);
    }
  }

  lemma {:induction false} DropKeysTwice<T, K>(rows: seq<T>, key: T -> K, ks: set<K>)
    ensures DropKeys(DropKeys(rows, key, ks), key, ks) == DropKeys(rows, key, ks)
  {
    if |rows| > 0 {
      DropKeysTwice(rows[1..], key, ks);
      var d := DropKeys(rows[1..], key, ks);
      if key(rows[0]) !in ks {
        assert ([rows[0]] + d)[1..] == d;
      }
    }
  }

  /** Filtering by key commutes with keeping last occurrences. */
  lemma {:induction false} DropKeysKeepLast<T, K>(rows: seq<T>, key: T -> K, ks: set<K>)
    ensures DropKeys(KeepLast(rows, key), key, ks) == KeepLast(DropKeys(rows, key, ks), key)
  {
    if |rows| > 0 {
      var tail := rows[1..];
      DropKeysKeepLast(tail, key, ks);
      var d := DropKeys(tail, key, ks);
      KeySetDropKeys(tail, key, ks);
      if key(rows[0]) !in ks {
        assert ([rows[0]] + d)[1..] == d;
        if key(rows[0]) !in KeySet(tail, key) {
          var kl := KeepLast(tail, key);
          assert ([rows[0]] + kl)[1..] == kl;
        }
      }
    }
  }

  lemma KeySetAppend<T, K>(a: seq<T>, b: seq<T>, key: T -> K)
    ensures KeySet(a + b, key) == KeySet(a, key) + KeySet(b, key)
  {
    var s := a + b;
    forall k | k in KeySet(a, key) + KeySet(b, key) ensures k in KeySet(s, key) {
      if k in KeySet(b, key) {
        var i :| 0 <= i < |b| && key(b[i]) == k;
        assert s[|a| + i] == b[i];
      } else {
        var i :| 0 <= i < |a| && key(a[i]) == k;
        assert s[i] == a[i];
      }
    }
    forall k | k in KeySet(s, key) ensures k in KeySet(a, key) + KeySet(b, key) {
      var i :| 0 <= i < |s| && key(s[i]) == k;
      if i < |a| {
        assert s[i] == a[i];
      } else {
        assert s[i] == b[i - |a|];
      }
    }
  }

  lemma KeepLastConsIn<T, K>(x: T, rows: seq<T>, key: T -> K)
    requires key(x) in KeySet(rows, key)
    ensures KeepLast([x] + rows, key) == KeepLast(rows, key)
  {
    assert ([x] + rows)[1..] == rows;
  }

  lemma KeepLastConsOut<T, K>(x: T, rows: seq<T>, key: T -> K)
    requires key(x) !in KeySet(rows, key)
    ensures KeepLast([x] + rows, key) == [x] + KeepLast(rows, key)
  {
    assert ([x] + rows)[1..] == rows;
  }

  /** Appending a batch: the stored rows of other keys, then the batch reduced. */
  lemma {:induction false} KeepLastAppend<T, K>(a: seq<T>, b: seq<T>, key: T -> K)
    ensures KeepLast(a + b, key) == KeepLast(DropKeys(a, key, KeySet(b, key)), key) + KeepLast(b, key)
  {
    var kb := KeySet(b, key);
    if |a| == 0 {
      assert a + b == b;
    } else {
      var x := a[0];
      var tail := a[1..];
      assert a + b == [x] + (tail + b);
      KeepLastAppend(tail, b, key);
      var d := DropKeys(tail, key, kb);
      KeySetDropKeys(tail, key, kb);
      KeySetAppend(tail, b, key);
      if key(x) in kb {
        assert DropKeys(a, key, kb) == d;
        KeepLastConsIn(x, tail + b, key);
      } else {
        assert DropKeys(a, key, kb) == [x] + d;
        if key(x) in KeySet(tail, key) {
          KeepLastConsIn(x, tail + b, key);
          KeepLastConsIn(x, d, key);
        } else {
          KeepLastConsOut(x, tail + b, key);
          KeepLastConsOut(x, d, key);
        }
      }
    }
  }

  lemma {:induction false} KeepLastUnique<T, K>(rows: seq<T>, key: T -> K)
    requires UniqueKeys(rows, key)
    ensures KeepLast(rows, key) == rows
  {
    if |rows| > 0 {
      assert UniqueKeys(rows[1..], key) by {
        assert forall i :: 0 <= i < |rows[1..]| ==> rows[1..][i] == rows[i + 1];
      }
      KeepLastUnique(rows[1..], key);
      assert key(rows[0]) !in KeySet(rows[1..], key) by {
        assert forall i :: 0 <= i < |rows[1..]| ==> rows[1..][i] == rows[i + 1];
      }
      assert rows == [rows[0]] + rows[1..];
    }
  }

  /** Deduplicating a deduplicated table changes nothing. */
  lemma KeepLastIdempotent<T, K>(rows: seq<T>, key: T -> K)
    ensures KeepLast(KeepLast(rows, key), key) == KeepLast(rows, key)
  {
    KeepLastUnique(KeepLast(rows, key), key);
  }

  /** In the merged table every key of the new batch carries the batch's last row. */
  lemma NewBatchWins<T, K>(stored: seq<T>, batch: seq<T>, key: T -> K)
    ensures forall x :: x in KeepLast(stored + batch, key) && key(x) in KeySet(batch, key) ==>
              exists i :: 0 <= i < |batch| && batch[i] == x && IsLast(batch, key, i)
    ensures forall i :: 0 <= i < |batch| && IsLast(batch, key, i) ==> batch[i] in KeepLast(stored + batch, key)
  {
    KeepLastAppend(stored, batch, key);
    KeepLastKeepsLastOccurrences(batch, key);
    var d := KeepLast(DropKeys(stored, key, KeySet(batch, key)), key);
    KeySetDropKeys(stored, key, KeySet(batch, key));
    forall x | x in d ensures key(x) !in KeySet(batch, key) {
      var i :| 0 <= i < |d| && d[i] == x;
      assert key(d[i]) in KeySet(d, key);
    }
  }

  /**
   * Re-ingesting the same batch is a no-op: the stored table after a second
   * run equals the one after the first.
   */
  lemma ReingestIdempotent<T, K>(stored: seq<T>, batch: seq<T>, key: T -> K)
    ensures KeepLast(KeepLast(stored + batch, key) + batch, key) == KeepLast(stored + batch, key)
  {
    var kb := KeySet(batch, key);
    var d := DropKeys(stored, key, kb);
    var s1 := KeepLast(stored + batch, key);
    KeepLastAppend(stored, batch, key);
    assert s1 == KeepLast(d, key) + KeepLast(batch, key);
    KeepLastAppend(s1, batch, key);
    DropKeysAppend(KeepLast(d, key), KeepLast(batch, key), key, kb);
    DropKeysNone(KeepLast(batch, key), key, kb);
    DropKeysKeepLast(d, key, kb);
    DropKeysTwice(stored, key, kb);
    assert DropKeys(s1, key, kb) == KeepLast(d, key);
    KeepLastIdempotent(d, key);
  }
}
