/**
 * Sorting as pandas `sort_values` does it for the tables of the pipeline:
 * rows are ordered by a lexicographic key made of one component per sort
 * column (strings compare code point by code point, a proper prefix first,
 * as Python does; dates compare by year, month, day).  The sort is stable.
 */
module Ordering {
  import opened Common
  import opened Dates
  import opened Dedup

  type Key = seq<seq<int>>

  /** Python sequence comparison: first difference decides, a prefix is smaller. */
  predicate SeqLess(a: seq<int>, b: seq<int>)
    decreases |a|
  {
    if |a| == 0 then |b| > 0
    else if |b| == 0 then false
    else if a[0] != b[0] then a[0] < b[0]
    else SeqLess(a[1..], b[1..])
  }

  lemma {:induction false} SeqLessIrreflexive(a: seq<int>)
    ensures !SeqLess(a, a)
    decreases |a|
  {
    if |a| > 0 {
      SeqLessIrreflexive(a[1..]);
    }
  }

  lemma {:induction false} SeqLessTransitive(a: seq<int>, b: seq<int>, c: seq<int>)
    requires SeqLess(a, b) && SeqLess(b, c)
    ensures SeqLess(a, c)
    decreases |a|
  {
    if |a| > 0 && |b| > 0 && |c| > 0 && a[0] == b[0] && b[0] == c[0] {
      SeqLessTransitive(a[1..], b[1..], c[1..]);
    }
  }

  lemma {:induction false} SeqLessTotal(a: seq<int>, b: seq<int>)
    ensures a == b || SeqLess(a, b) || SeqLess(b, a)
    decreases |a|
  {
    if |a| > 0 && |b| > 0 && a[0] == b[0] {
      SeqLessTotal(a[1..], b[1..]);
      if a[1..] == b[1..] {
        assert a == [a[0]] + a[1..] && b == [b[0]] + b[1..];
      }
    }
  }

  /** Multi-column key: the first column that differs decides. */
  predicate KeyLess(a: Key, b: Key)
    decreases |a|
  {
    if |a| == 0 then |b| > 0
    else if |b| == 0 then false
    else if a[0] != b[0] then SeqLess(a[0], b[0])
    else KeyLess(a[1..], b[1..])
  }

  predicate KeyLe(a: Key, b: Key)
  {
    a == b || KeyLess(a, b)
  }

  lemma {:induction false} KeyLessIrreflexive(a: Key)
    ensures !KeyLess(a, a)
    decreases |a|
  {
    if |a| > 0 {
      KeyLessIrreflexive(a[1..]);
    }
  }

  lemma {:induction false} KeyLessTransitive(a: Key, b: Key, c: Key)
    requires KeyLess(a, b) && KeyLess(b, c)
    ensures KeyLess(a, c)
    decreases |a|
  {
    if |a| > 0 && |b| > 0 && |c| > 0 {
      if a[0] == b[0] && b[0] == c[0] {
        KeyLessTransitive(a[1..], b[1..], c[1..]);
      } else if a[0] != b[0] && b[0] != c[0] {
        SeqLessTransitive(a[0], b[0], c[0]);
        if a[0] == c[0] {
          SeqLessIrreflexive(a[0]);
        }
      }
    }
  }

  lemma {:induction false} KeyLessTotal(a: Key, b: Key)
    ensures a == b || KeyLess(a, b) || KeyLess(b, a)
    decreases |a|
  {
    if |a| > 0 && |b| > 0 {
      if a[0] == b[0] {
        KeyLessTotal(a[1..], b[1..]);
        if a[1..] == b[1..] {
          assert a == [a[0]] + a[1..] && b == [b[0]] + b[1..];
        }
      } else {
        SeqLessTotal(a[0], b[0]);
      }
    }
  }

  lemma KeyLeTransitive(a: Key, b: Key, c: Key)
    requires KeyLe(a, b) && KeyLe(b, c)
    ensures KeyLe(a, c)
  {
    if KeyLess(a, b) && KeyLess(b, c) {
      KeyLessTransitive(a, b, c);
    }
  }

  /** Exactly one of `a <= b`, `b < a` holds. */
  lemma KeyLeOrGreater(a: Key, b: Key)
    ensures KeyLe(a, b) <==> !KeyLess(b, a)
  {
    KeyLessTotal(a, b);
    if KeyLess(a, b) && KeyLess(b, a) {
      KeyLessTransitive(a, b, a);
      KeyLessIrreflexive(a);
    }
    if a == b {
      KeyLessIrreflexive(a);
    }
  }

  // ---------------------------------------------------------------------
  // Key components
  // ---------------------------------------------------------------------

  function StrKey(s: string): (k: seq<int>)
    ensures |k| == |s|
  {
    seq(|s|, i requires 0 <= i < |s| => s[i] as int)
  }

  lemma StrKeyInjective(a: string, b: string)
    requires StrKey(a) == StrKey(b)
    ensures a == b
  {
    assert |a| == |b|;
    forall i | 0 <= i < |a| ensures a[i] == b[i] {
      assert StrKey(a)[i] == StrKey(b)[i];
    }
  }

  function DateKey(d: Date): seq<int>
  {
    [d.year, d.month, d.day]
  }

  lemma DateKeyOrder(a: Date, b: Date)
    ensures SeqLess(DateKey(a), DateKey(b)) <==> CalendarBefore(a, b)
  {
    var ka, kb := DateKey(a), DateKey(b);
    assert ka[1..] == [a.month, a.day] && kb[1..] == [b.month, b.day];
    assert ka[1..][1..] == [a.day] && kb[1..][1..] == [b.day];
    assert ka[1..][1..][1..] == [] && kb[1..][1..][1..] == [];
    assert SeqLess(ka[1..][1..], kb[1..][1..]) <==> a.day < b.day;
    assert SeqLess(ka[1..], kb[1..]) <==> a.month < b.month || (a.month == b.month && a.day < b.day);
  }

  // ---------------------------------------------------------------------
  // Stable sort
  // ---------------------------------------------------------------------

  ghost predicate SortedBy<T>(s: seq<T>, key: T -> Key)
  {
    forall i, j :: 0 <= i < j < |s| ==> KeyLe(key(s[i]), key(s[j]))
  }

  /** Places `x` before the first element whose key is not smaller. */
  function Insert<T>(x: T, s: seq<T>, key: T -> Key): (r: seq<T>)
    requires SortedBy(s, key)
    ensures SortedBy(r, key)
    ensures multiset(r) == multiset(s) + multiset{x}
  {
    if |s| == 0 then [x]
    else if KeyLe(key(x), key(s[0])) then
      forall j | 0 <= j < |s| ensures KeyLe(key(x), key(s[j])) {
        if j > 0 { KeyLeTransitive(key(x), key(s[0]), key(s[j])); }
      }
      [x] + s
    else
      assert s == [s[0]] + s[1..];
      var rest := Insert(x, s[1..], key);
      KeyLeOrGreater(key(x), key(s[0]));
      forall j | 0 <= j < |rest| ensures KeyLe(key(s[0]), key(rest[j])) {
        assert rest[j] in multiset(rest);
        if rest[j] != x {
          assert rest[j] in multiset(s[1..]);
          var k :| 0 <= k < |s[1..]| && s[1..][k] == rest[j];
          assert KeyLe(key(s[0]), key(s[k + 1]));
        }
      }
      [s[0]] + rest
  }

  /** `sort_values(by=...)`: sorted by the key, same rows. */
  function SortBy<T>(s: seq<T>, key: T -> Key): (r: seq<T>)
    ensures SortedBy(r, key)
    ensures multiset(r) == multiset(s)
    ensures |r| == |s|
  {
    if |s| == 0 then []
    else
      assert s == [s[0]] + s[1..];
      Insert(s[0], SortBy(s[1..], key), key)
  }

  /** The rows whose key is `k`, in their order. */
  function WithKey<T>(key: T -> Key, k: Key): T -> Option<T>
  {
    x => if key(x) == k then Some(x) else None
  }

  lemma InsertHere<T>(x: T, s: seq<T>, key: T -> Key)
    requires SortedBy(s, key) && (|s| == 0 || KeyLe(key(x), key(s[0])))
    ensures Insert(x, s, key) == [x] + s
  {
  }

  lemma InsertLater<T>(x: T, s: seq<T>, key: T -> Key)
    requires SortedBy(s, key) && |s| > 0 && !KeyLe(key(x), key(s[0]))
    ensures SortedBy(s[1..], key) && Insert(x, s, key) == [s[0]] + Insert(x, s[1..], key)
  {
  }

  lemma WithKeyOne<T>(y: T, key: T -> Key, k: Key)
    ensures FilterMap([y], WithKey(key, k)) == if key(y) == k then [y] else []
  {
    assert [y][..0] == [];
  }

  /** `y` in front of both sides: a key other than `x`'s does not disturb where `x` is filtered. */
  lemma TiesCons<T>(x: T, y: T, t: seq<T>, rest: seq<T>, key: T -> Key, k: Key)
    requires key(x) != key(y)
    requires FilterMap(t, WithKey(key, k)) == FilterMap([x], WithKey(key, k)) + FilterMap(rest, WithKey(key, k))
    ensures FilterMap([y] + t, WithKey(key, k)) == FilterMap([x], WithKey(key, k)) + FilterMap([y] + rest, WithKey(key, k))
  {
    var w := WithKey(key, k);
    FilterMapAppend([y], t, w);
    FilterMapAppend([y], rest, w);
    WithKeyOne(y, key, k);
    if key(y) == k {
      TiesConsKept(x, y, FilterMap(t, w), FilterMap(rest, w), key, k);
    }
  }

  lemma TiesConsKept<T>(x: T, y: T, ft: seq<T>, fr: seq<T>, key: T -> Key, k: Key)
    requires key(x) != key(y) && key(y) == k && ft == FilterMap([x], WithKey(key, k)) + fr
    ensures [y] + ft == FilterMap([x], WithKey(key, k)) + ([y] + fr)
  {
    WithKeyOne(x, key, k);
  }

  /** Inserting `x` puts it before the rows with the same key. */
  lemma {:induction false} InsertKeepsTies<T>(x: T, s: seq<T>, key: T -> Key, k: Key)
    requires SortedBy(s, key)
    ensures FilterMap(Insert(x, s, key), WithKey(key, k)) == FilterMap([x], WithKey(key, k)) + FilterMap(s, WithKey(key, k))
    decreases |s|
  {
    if |s| == 0 || KeyLe(key(x), key(s[0])) {
      InsertHere(x, s, key);
      FilterMapAppend([x], s, WithKey(key, k));
    } else {
      InsertLater(x, s, key);
      InsertKeepsTies(x, s[1..], key, k);
      TiesCons(x, s[0], Insert(x, s[1..], key), s[1..], key, k);
      assert s == [s[0]] + s[1..];
    }
  }

  /** Stability: for every key, the sorted rows with that key are the input's rows with that key, in input order. */
  lemma {:induction false} SortByStable<T>(s: seq<T>, key: T -> Key, k: Key)
    ensures FilterMap(SortBy(s, key), WithKey(key, k)) == FilterMap(s, WithKey(key, k))
  {
    if |s| > 0 {
      SortByStable(s[1..], key, k);
      InsertKeepsTies(s[0], SortBy(s[1..], key), key, k);
      assert s == [s[0]] + s[1..];
      FilterMapAppend([s[0]], s[1..], WithKey(key, k));
    }
  }

  function Reverse<T>(s: seq<T>): (r: seq<T>)
    ensures |r| == |s|
    ensures forall i :: 0 <= i < |s| ==> r[i] == s[|s| - 1 - i]
  {
    if |s| == 0 then [] else Reverse(s[1..]) + [s[0]]
  }

  lemma {:induction false} ReverseMultiset<T>(s: seq<T>)
    ensures multiset(Reverse(s)) == multiset(s)
  {
    if |s| > 0 {
      ReverseMultiset(s[1..]);
      assert s == [s[0]] + s[1..];
    }
  }

  /** A sort in descending order: the reverse of an ascending one. */
  lemma ReverseSortedDescending<T>(s: seq<T>, key: T -> Key)
    requires SortedBy(s, key)
    ensures forall i, j :: 0 <= i < j < |s| ==> KeyLe(key(Reverse(s)[j]), key(Reverse(s)[i]))
  {
    var r := Reverse(s);
    forall i, j | 0 <= i < j < |s| ensures KeyLe(key(r[j]), key(r[i])) {
      assert r[j] == s[|s| - 1 - j] && r[i] == s[|s| - 1 - i];
    }
  }

  // ---------------------------------------------------------------------
  // sorted(set(strings))
  // ---------------------------------------------------------------------

  predicate StrLess(a: string, b: string)
  {
    SeqLess(StrKey(a), StrKey(b))
  }

  lemma StrLessTotal(a: string, b: string)
    ensures a == b || StrLess(a, b) || StrLess(b, a)
  {
    SeqLessTotal(StrKey(a), StrKey(b));
    if StrKey(a) == StrKey(b) {
      StrKeyInjective(a, b);
    }
  }

  ghost predicate StrictlyIncreasing(s: seq<string>)
  {
    forall i, j :: 0 <= i < j < |s| ==> StrLess(s[i], s[j])
  }

  function InsertUnique(x: string, s: seq<string>): (r: seq<string>)
    requires StrictlyIncreasing(s)
    ensures StrictlyIncreasing(r)
    ensures forall y :: y in r <==> y in s || y == x
  {
    if |s| == 0 then [x]
    else if x == s[0] then s
    else if StrLess(x, s[0]) then
      forall j | 0 < j < |s| ensures StrLess(x, s[j]) {
        SeqLessTransitive(StrKey(x), StrKey(s[0]), StrKey(s[j]));
      }
      [x] + s
    else
      StrLessTotal(x, s[0]);
      var tail := s[1..];
      assert forall k :: 0 < k < |s| ==> s[k] == tail[k - 1];
      var rest := InsertUnique(x, tail);
      forall j | 0 <= j < |rest| ensures StrLess(s[0], rest[j]) {
        assert rest[j] in rest;
      }
      assert s == [s[0]] + tail;
      [s[0]] + rest
  }

  /** `sorted(list(set(xs)))`: each distinct string once, in increasing order. */
  function SortedUnique(xs: seq<string>): (r: seq<string>)
    ensures StrictlyIncreasing(r)
    ensures forall x :: x in r <==> x in xs
  {
    if |xs| == 0 then []
    else
      assert xs == xs[..|xs| - 1] + [xs[|xs| - 1]];
      InsertUnique(xs[|xs| - 1], SortedUnique(xs[..|xs| - 1]))
  }

  // ---------------------------------------------------------------------
  // Sorting, then keeping last occurrences
  // ---------------------------------------------------------------------

  lemma KeySetMultiset<T, K>(a: seq<T>, b: seq<T>, key: T -> K)
    requires multiset(a) == multiset(b)
    ensures KeySet(a, key) == KeySet(b, key)
  {
    forall k | k in KeySet(a, key) ensures k in KeySet(b, key) {
      var i :| 0 <= i < |a| && key(a[i]) == k;
      assert a[i] in multiset(b);
      var j :| 0 <= j < |b| && b[j] == a[i];
    }
    forall k | k in KeySet(b, key) ensures k in KeySet(a, key) {
      var j :| 0 <= j < |b| && key(b[j]) == k;
      assert b[j] in multiset(a);
      var i :| 0 <= i < |a| && a[i] == b[j];
    }
  }

  /** Keeping last occurrences keeps a subsequence, so a sorted table stays sorted. */
  lemma {:induction false} KeepLastSorted<T, K>(rows: seq<T>, key: T -> K, order: T -> Key)
    requires SortedBy(rows, order)
    ensures SortedBy(KeepLast(rows, key), order)
    ensures forall x :: x in KeepLast(rows, key) ==> x in rows
  {
    KeepLastKeepsLastOccurrences(rows, key);
    if |rows| > 0 {
      var tail := rows[1..];
      assert SortedBy(tail, order) by {
        assert forall i :: 0 <= i < |tail| ==> tail[i] == rows[i + 1];
      }
      KeepLastSorted(tail, key, order);
      var rest := KeepLast(tail, key);
      if key(rows[0]) !in KeySet(tail, key) {
        assert KeepLast(rows, key) == [rows[0]] + rest;
        ConsSorted(rows[0], rest, order);
        forall j | 0 <= j < |rest| ensures KeyLe(order(rows[0]), order(rest[j])) {
          assert rest[j] in tail;
          var k :| 0 <= k < |tail| && tail[k] == rest[j];
          assert rows[k + 1] == tail[k];
        }
      } else {
        assert KeepLast(rows, key) == rest;
      }
    }
  }

  lemma ConsSorted<T>(x: T, s: seq<T>, order: T -> Key)
    requires SortedBy(s, order)
    ensures (forall j :: 0 <= j < |s| ==> KeyLe(order(x), order(s[j]))) ==> SortedBy([x] + s, order)
  {
    var r := [x] + s;
    assert forall i :: 0 < i < |r| ==> r[i] == s[i - 1];
  }
}
