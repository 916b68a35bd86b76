/**
 * The window arithmetic of the feature builders, over a frame given as a
 * column of values and a column of group keys (one entry per row, in frame
 * order).
 *
 * Grouped operations (`groupby(keys)[col].cumsum()`, `.shift(1)`,
 * `.expanding().mean().shift(1)`) see, for row i, only the earlier rows of
 * i's own group: `Prior`.  Frame-wide operations (`Series.shift(1)`,
 * `Series.rolling(w, min_periods=1).mean()` applied to a column that is no
 * longer grouped) see the previous rows of the frame whatever their group.
 */
module Rolling {
  import opened Common

  // ---------------------------------------------------------------------
  // Rows of one group before a position
  // ---------------------------------------------------------------------

  /** Values of the rows j < n whose key is k, in frame order. */
  function GroupValuesBefore<V, K(==)>(vals: seq<V>, keys: seq<K>, k: K, n: nat): (r: seq<V>)
    requires |vals| == |keys| && n <= |keys|
    ensures |r| <= n
  {
    if n == 0 then []
    else GroupValuesBefore(vals, keys, k, n - 1) + (if keys[n - 1] == k then [vals[n - 1]] else [])
  }

  /** The rows of row i's group that come before it. */
  function Prior<V, K(==)>(vals: seq<V>, keys: seq<K>, i: nat): seq<V>
    requires |vals| == |keys| && i < |keys|
  {
    GroupValuesBefore(vals, keys, keys[i], i)
  }

  /** `groupby(keys).cumcount()`: how many earlier rows share the group. */
  function PriorCount<K(==)>(keys: seq<K>, i: nat): nat
    requires i < |keys|
  {
    |Prior(keys, keys, i)|
  }

  lemma {:induction false} GroupValuesBeforeLength<V, W, K>(vals: seq<V>, other: seq<W>, keys: seq<K>, k: K, n: nat)
    requires |vals| == |keys| && |other| == |keys| && n <= |keys|
    ensures |GroupValuesBefore(vals, keys, k, n)| == |GroupValuesBefore(other, keys, k, n)|
  {
    if n > 0 {
      GroupValuesBeforeLength(vals, other, keys, k, n - 1);
    }
  }

  /** `groupby(keys)[col].cumsum()`: the group's running total including row i. */
  function GroupCumSum<K(==)>(vals: seq<real>, keys: seq<K>, i: nat): real
    requires |vals| == |keys| && i < |keys|
  {
    Sum(Prior(vals, keys, i)) + vals[i]
  }

  /** Index of the previous row of the same group, if any. */
  function GroupPrev<K(==)>(keys: seq<K>, i: nat): (r: Option<nat>)
    requires i < |keys|
    ensures r.Some? ==> r.value < i && keys[r.value] == keys[i]
    ensures r.Some? ==> forall j :: r.value < j < i ==> keys[j] != keys[i]
    ensures r.None? ==> forall j :: 0 <= j < i ==> keys[j] != keys[i]
  {
    GroupPrevBelow(keys, keys[i], i)
  }

  function GroupPrevBelow<K(==)>(keys: seq<K>, k: K, n: nat): (r: Option<nat>)
    requires n <= |keys|
    ensures r.Some? ==> r.value < n && keys[r.value] == k && forall j :: r.value < j < n ==> keys[j] != k
    ensures r.None? ==> forall j :: 0 <= j < n ==> keys[j] != k
  {
    if n == 0 then None
    else if keys[n - 1] == k then Some(n - 1)
    else GroupPrevBelow(keys, k, n - 1)
  }

  lemma {:induction false} GroupValuesBeforeSkip<V, K>(vals: seq<V>, keys: seq<K>, k: K, lo: nat, n: nat)
    requires |vals| == |keys| && lo <= n <= |keys|
    requires forall j :: lo <= j < n ==> keys[j] != k
    ensures GroupValuesBefore(vals, keys, k, n) == GroupValuesBefore(vals, keys, k, lo)
    decreases n
  {
    if n > lo {
      GroupValuesBeforeSkip(vals, keys, k, lo, n - 1);
    }
  }

  /**
   * Shifting a grouped cumulative sum by one row within the group gives the
   * sum over the group's earlier rows: the value row i sees never includes
   * its own.
   */
  lemma ShiftedCumSumIsPriorSum<K>(vals: seq<real>, keys: seq<K>, i: nat)
    requires |vals| == |keys| && i < |keys|
    ensures match GroupPrev(keys, i)
      case Some(j) => j < i && GroupCumSum(vals, keys, j) == Sum(Prior(vals, keys, i))
      case None => Prior(vals, keys, i) == []
  {
    match GroupPrev(keys, i)
    case Some(j) =>
      GroupValuesBeforeSkip(vals, keys, keys[i], j + 1, i);
    case None =>
      GroupValuesBeforeSkip(vals, keys, keys[i], 0, i);
  }

  lemma HasPriorIffPrev<K>(keys: seq<K>, i: nat)
    requires i < |keys|
    ensures PriorCount(keys, i) > 0 <==> GroupPrev(keys, i).Some?
  {
    match GroupPrev(keys, i)
    case Some(j) =>
      GroupValuesBeforeSkip(keys, keys, keys[i], j + 1, i);
    case None =>
      GroupValuesBeforeSkip(keys, keys, keys[i], 0, i);
  }

  /** `groupby(keys)[col].shift(1)`: the value of the group's previous row. */
  function GroupShift<V, K(==)>(vals: seq<V>, keys: seq<K>, i: nat): (r: Option<V>)
    requires |vals| == |keys| && i < |keys|
    ensures r.Some? <==> PriorCount(keys, i) > 0
  {
    HasPriorIffPrev(keys, i);
    match GroupPrev(keys, i)
    case Some(j) => Some(vals[j])
    case None => None
  }

  /**
   * `groupby(keys)[col].expanding().mean().shift(1)`, missing at a group's
   * first row: the mean of the group's earlier values.
   */
  function PriorMean<K(==)>(vals: seq<real>, keys: seq<K>, i: nat): (r: Option<real>)
    requires |vals| == |keys| && i < |keys|
    ensures r.Some? <==> PriorCount(keys, i) > 0
    ensures r.Some? ==> r.value * (PriorCount(keys, i) as real) == Sum(Prior(vals, keys, i))
  {
    GroupValuesBeforeLength(vals, keys, keys, keys[i], i);
    Mean(Prior(vals, keys, i))
  }

  function OrElse(x: Option<real>, d: real): real
  {
    if x.Some? then x.value else d
  }

  // ---------------------------------------------------------------------
  // Contiguous groups
  // ---------------------------------------------------------------------

  /** Rows of each group are adjacent, as after sorting by a key that refines the group. */
  ghost predicate Contiguous<K>(keys: seq<K>)
  {
    forall a, b, c :: 0 <= a < b < c < |keys| && keys[a] == keys[c] ==> keys[b] == keys[a]
  }

  function GroupStart<K(==)>(keys: seq<K>, i: nat): (g: nat)
    requires i < |keys|
    ensures g <= i && (g == 0 || keys[g - 1] != keys[i])
    ensures forall j :: g <= j <= i ==> keys[j] == keys[i]
  {
    if i > 0 && keys[i - 1] == keys[i] then GroupStart(keys, i - 1) else i
  }

  lemma {:induction false} GroupValuesBeforeRun<V, K>(vals: seq<V>, keys: seq<K>, k: K, g: nat, n: nat)
    requires |vals| == |keys| && g <= n <= |keys|
    requires GroupValuesBefore(vals, keys, k, g) == []
    requires forall j :: g <= j < n ==> keys[j] == k
    ensures GroupValuesBefore(vals, keys, k, n) == vals[g..n]
    decreases n
  {
    if n > g {
      GroupValuesBeforeRun(vals, keys, k, g, n - 1);
      assert vals[g..n] == vals[g..n - 1] + [vals[n - 1]];
    }
  }

  /** In a frame of contiguous groups the earlier group rows are the slice from the group's start. */
  lemma PriorIsSlice<V, K>(vals: seq<V>, keys: seq<K>, i: nat)
    requires |vals| == |keys| && i < |keys| && Contiguous(keys)
    ensures Prior(vals, keys, i) == vals[GroupStart(keys, i)..i]
  {
    var g := GroupStart(keys, i);
    assert forall j :: 0 <= j < g ==> keys[j] != keys[i];
    GroupValuesBeforeSkip(vals, keys, keys[i], 0, g);
    GroupValuesBeforeRun(vals, keys, keys[i], g, i);
  }

  lemma PriorCountIsOffset<K>(keys: seq<K>, i: nat)
    requires i < |keys| && Contiguous(keys)
    ensures PriorCount(keys, i) == i - GroupStart(keys, i)
  {
    PriorIsSlice(keys, keys, i);
  }

  // ---------------------------------------------------------------------
  // Frame-wide shift and rolling window
  // ---------------------------------------------------------------------

  /** `Series.shift(1)` on the whole frame. */
  function FrameShift<V>(col: seq<V>, i: nat): (r: Option<V>)
    requires i < |col|
  {
    if i == 0 then None else Some(col[i - 1])
  }

  function PresentValues(xs: seq<Option<real>>): (r: seq<real>)
    ensures |r| <= |xs|
  {
    if |xs| == 0 then []
    else PresentValues(xs[..|xs| - 1]) + (if xs[|xs| - 1].Some? then [xs[|xs| - 1].value] else [])
  }

  lemma {:induction false} PresentValuesAll(xs: seq<Option<real>>, ys: seq<real>)
    requires |xs| == |ys| && forall k :: 0 <= k < |xs| ==> xs[k] == Some(ys[k])
    ensures PresentValues(xs) == ys
  {
    if |xs| > 0 {
      PresentValuesAll(xs[..|xs| - 1], ys[..|ys| - 1]);
      assert ys == ys[..|ys| - 1] + [ys[|ys| - 1]];
    }
  }

  lemma {:induction false} PresentValuesNone(xs: seq<Option<real>>)
    requires forall k :: 0 <= k < |xs| ==> xs[k].None?
    ensures PresentValues(xs) == []
  {
    if |xs| > 0 {
      PresentValuesNone(xs[..|xs| - 1]);
    }
  }

  function WindowStart(i: nat, w: nat): nat
    requires w >= 1
  {
    if i + 1 >= w then i + 1 - w else 0
  }

  /**
   * `Series.rolling(w, min_periods=1).mean()` at row i: mean of the present
   * values among the last w rows of the frame, missing when none is present.
   */
  function RollingMean(col: seq<Option<real>>, w: nat, i: nat): Option<real>
    requires w >= 1 && i < |col|
  {
    Mean(PresentValues(col[WindowStart(i, w)..i + 1]))
  }

  /** The grouped-shift column the rolling windows of the feature builder read. */
  function ShiftedColumn<K(==)>(vals: seq<real>, keys: seq<K>): (r: seq<Option<real>>)
    requires |vals| == |keys|
    ensures |r| == |keys| && forall i :: 0 <= i < |keys| ==> r[i] == GroupShift(vals, keys, i)
  {
    seq(|keys|, i requires 0 <= i < |keys| => GroupShift(vals, keys, i))
  }

  /**
   * `groupby(keys)[col].shift(1).rolling(w, min_periods=1).mean()`, where the
   * rolling runs over the shifted column as one frame-wide series.
   */
  function WindowAsWritten<K(==)>(vals: seq<real>, keys: seq<K>, w: nat, i: nat): Option<real>
    requires |vals| == |keys| && w >= 1 && i < |keys|
  {
    RollingMean(ShiftedColumn(vals, keys), w, i)
  }

  /** The last n items of a sequence (all of them when it is shorter). */
  function LastN<V>(s: seq<V>, n: nat): (r: seq<V>)
    ensures |r| == if |s| < n then |s| else n
  {
    if |s| <= n then s else s[|s| - n..]
  }

  /** The window as intended: the group's own previous w values. */
  function WindowGrouped<K(==)>(vals: seq<real>, keys: seq<K>, w: nat, i: nat): (r: Option<real>)
    requires |vals| == |keys| && w >= 1 && i < |keys|
    ensures r.Some? <==> PriorCount(keys, i) > 0
  {
    GroupValuesBeforeLength(vals, keys, keys, keys[i], i);
    Mean(LastN(Prior(vals, keys, i), w))
  }

  /** A row right after a row of its own group is shifted the value of that row. */
  lemma ShiftAfterSameKey<K>(vals: seq<real>, keys: seq<K>, j: nat)
    requires |vals| == |keys| && 0 < j < |keys| && keys[j - 1] == keys[j]
    ensures ShiftedColumn(vals, keys)[j] == Some(vals[j - 1])
  {
    assert GroupPrev(keys, j) == Some(j - 1);
  }

  /**
   * Once a row has at least w earlier rows in its (contiguous) group, the
   * frame-wide window lies inside the group and equals the group's mean of
   * its previous w values.
   */
  lemma WindowAsWrittenDeepInGroup<K>(vals: seq<real>, keys: seq<K>, w: nat, i: nat)
    requires |vals| == |keys| && w >= 1 && i < |keys| && Contiguous(keys)
    requires PriorCount(keys, i) >= w
    ensures WindowAsWritten(vals, keys, w, i) == WindowGrouped(vals, keys, w, i)
    ensures WindowAsWritten(vals, keys, w, i) == Mean(vals[i - w..i])
  {
    var g := GroupStart(keys, i);
    PriorCountIsOffset(keys, i);
    PriorIsSlice(vals, keys, i);
    DeepWindowValues(vals, keys, w, i);
    assert WindowStart(i, w) == i + 1 - w;
    assert LastN(vals[g..i], w) == vals[i - w..i];
  }

  /** Deep in a group, the frame-wide window holds the w previous values of the row's own group. */
  lemma DeepWindowValues<K>(vals: seq<real>, keys: seq<K>, w: nat, i: nat)
    requires |vals| == |keys| && w >= 1 && i < |keys| && Contiguous(keys)
    requires i - GroupStart(keys, i) >= w
    ensures PresentValues(ShiftedColumn(vals, keys)[i + 1 - w..i + 1]) == vals[i - w..i]
  {
    var g := GroupStart(keys, i);
    var col := ShiftedColumn(vals, keys);
    var win := col[i + 1 - w..i + 1];
    forall k | 0 <= k < |win| ensures win[k] == Some(vals[i - w..i][k]) {
      var j := i + 1 - w + k;
      assert win[k] == col[j];
      assert g < j <= i;
      assert keys[j - 1] == keys[i] == keys[j];
      ShiftAfterSameKey(vals, keys, j);
    }
    PresentValuesAll(win, vals[i - w..i]);
  }

  /** The frame-wide window only ever reads rows that come earlier in the frame. */
  lemma WindowAsWrittenReadsOnlyEarlierRows<K>(vals: seq<real>, keys: seq<K>, vals': seq<real>, keys': seq<K>, w: nat, i: nat)
    requires |vals| == |keys| && |vals'| == |keys'| && w >= 1 && i < |keys| && i < |keys'|
    requires vals[..i] == vals'[..i] && keys[..i + 1] == keys'[..i + 1]
    ensures WindowAsWritten(vals, keys, w, i) == WindowAsWritten(vals', keys', w, i)
  {
    var col, col' := ShiftedColumn(vals, keys), ShiftedColumn(vals', keys');
    var lo := WindowStart(i, w);
    forall j | lo <= j <= i ensures col[j] == col'[j] {
      assert keys[..j + 1] == keys'[..j + 1] by {
        assert keys[..j + 1] == keys[..i + 1][..j + 1];
        assert keys'[..j + 1] == keys'[..i + 1][..j + 1];
      }
      GroupPrevPrefix(keys, keys', keys[j], j);
      assert keys[j] == keys'[j] by { assert keys[..i + 1][j] == keys'[..i + 1][j]; }
      match GroupPrevBelow(keys, keys[j], j)
      case Some(p) =>
        assert vals[p] == vals'[p] by { assert vals[..i][p] == vals'[..i][p]; }
      case None =>
    }
    assert col[lo..i + 1] == col'[lo..i + 1];
  }

  lemma {:induction false} GroupPrevPrefix<K>(keys: seq<K>, keys': seq<K>, k: K, n: nat)
    requires n <= |keys| && n <= |keys'| && keys[..n] == keys'[..n]
    ensures GroupPrevBelow(keys, k, n) == GroupPrevBelow(keys', k, n)
  {
    if n > 0 {
      assert keys[n - 1] == keys'[n - 1] by { assert keys[..n][n - 1] == keys'[..n][n - 1]; }
      assert keys[..n - 1] == keys'[..n - 1] by {
        assert keys[..n - 1] == keys[..n][..n - 1];
        assert keys'[..n - 1] == keys'[..n][..n - 1];
      }
      GroupPrevPrefix(keys, keys', k, n - 1);
    }
  }

  /** The window falls back to its default only when every entry in it is missing. */
  lemma RollingMeanMissing(col: seq<Option<real>>, w: nat, i: nat)
    requires w >= 1 && i < |col|
    requires forall k :: WindowStart(i, w) <= k <= i ==> col[k].None?
    ensures RollingMean(col, w, i).None?
  {
    var win := col[WindowStart(i, w)..i + 1];
    assert forall k :: 0 <= k < |win| ==> win[k] == col[WindowStart(i, w) + k];
    PresentValuesNone(win);
  }

  lemma {:induction false} PresentValuesSome(xs: seq<Option<real>>, k: nat)
    requires k < |xs| && xs[k].Some?
    ensures |PresentValues(xs)| > 0
  {
    if k < |xs| - 1 {
      PresentValuesSome(xs[..|xs| - 1], k);
    }
  }

  lemma RollingMeanPresent(col: seq<Option<real>>, w: nat, i: nat, k: nat)
    requires w >= 1 && i < |col| && WindowStart(i, w) <= k <= i && col[k].Some?
    ensures RollingMean(col, w, i).Some?
  {
    var lo := WindowStart(i, w);
    var win := col[lo..i + 1];
    assert win[k - lo] == col[k];
    PresentValuesSome(win, k - lo);
  }

  // ---------------------------------------------------------------------
  // Frame-wide shift of a grouped cumulative sum
  // ---------------------------------------------------------------------

  /** `groupby(keys)[col].cumsum().shift(1)`: the previous frame row's group total. */
  function CumSumFrameShifted<K(==)>(vals: seq<real>, keys: seq<K>, i: nat): Option<real>
    requires |vals| == |keys| && i < |keys|
  {
    FrameShift(CumSumColumn(vals, keys), i)
  }

  /** Inside a group the frame-wide shift behaves as a grouped one. */
  lemma CumSumFrameShiftedInsideGroup<K>(vals: seq<real>, keys: seq<K>, i: nat)
    requires |vals| == |keys| && 0 < i < |keys| && keys[i - 1] == keys[i]
    ensures CumSumFrameShifted(vals, keys, i) == Some(Sum(Prior(vals, keys, i)))
  {
    ShiftedCumSumIsPriorSum(vals, keys, i);
    assert GroupPrev(keys, i) == Some(i - 1);
  }

  // ---------------------------------------------------------------------
  // Ratios of shifted cumulative columns
  // ---------------------------------------------------------------------

  /** `groupby(keys)[col].cumsum()` as a column. */
  function CumSumColumn<K(==)>(vals: seq<real>, keys: seq<K>): (r: seq<real>)
    requires |vals| == |keys|
    ensures |r| == |keys| && forall i :: 0 <= i < |keys| ==> r[i] == GroupCumSum(vals, keys, i)
  {
    seq(|keys|, i requires 0 <= i < |keys| => GroupCumSum(vals, keys, i))
  }

  /** `groupby(keys).cumcount() + 1` as a column. */
  function CountColumn<K(==)>(keys: seq<K>): (r: seq<real>)
    ensures |r| == |keys| && forall i :: 0 <= i < |keys| ==> r[i] == PriorCount(keys, i) as real + 1.0
  {
    seq(|keys|, i requires 0 <= i < |keys| => PriorCount(keys, i) as real + 1.0)
  }

  /** `num.groupby(keys).shift(1) / den.groupby(keys).shift(1)`, NaN filled with 0. */
  function ShiftedRatio<K(==)>(num: seq<real>, den: seq<real>, keys: seq<K>, i: nat): real
    requires |num| == |keys| && |den| == |keys| && i < |keys|
  {
    var a := GroupShift(num, keys, i);
    var b := GroupShift(den, keys, i);
    if a.Some? && b.Some? && b.value != 0.0 then a.value / b.value else 0.0
  }

  /** The previous row of a group has one group row fewer before it. */
  lemma PriorStep<V, K>(vals: seq<V>, keys: seq<K>, i: nat, j: nat)
    requires |vals| == |keys| && i < |keys| && GroupPrev(keys, i) == Some(j)
    ensures Prior(vals, keys, i) == Prior(vals, keys, j) + [vals[j]]
    ensures PriorCount(keys, i) == PriorCount(keys, j) + 1
  {
    GroupValuesBeforeSkip(vals, keys, keys[i], j + 1, i);
    GroupValuesBeforeSkip(keys, keys, keys[i], j + 1, i);
  }

  /**
   * Shifted running total over shifted running count is the mean of the
   * group's earlier values, and 0 at the group's first row.
   */
  lemma ShiftedRatioIsPriorMean<K>(vals: seq<real>, keys: seq<K>, i: nat)
    requires |vals| == |keys| && i < |keys|
    ensures ShiftedRatio(CumSumColumn(vals, keys), CountColumn(keys), keys, i) == OrElse(PriorMean(vals, keys, i), 0.0)
  {
    HasPriorIffPrev(keys, i);
    match GroupPrev(keys, i)
    case Some(j) =>
      ShiftedCumSumIsPriorSum(vals, keys, i);
      PriorStep(vals, keys, i, j);
      GroupValuesBeforeLength(vals, keys, keys, keys[i], i);
    case None =>
  }

  /** `groupby(keys).cumcount().shift(1).fillna(0)` of the count column: the number of earlier group rows. */
  lemma ShiftedCountIsPriorCount<K>(keys: seq<K>, i: nat)
    requires i < |keys|
    ensures OrElse(GroupShift(CountColumn(keys), keys, i), 0.0) == PriorCount(keys, i) as real
  {
    HasPriorIffPrev(keys, i);
    match GroupPrev(keys, i)
    case Some(j) =>
      PriorStep(keys, keys, i, j);
    case None =>
  }

  /**
   * `num.groupby(keys).cumsum().shift(1) / den.groupby(keys).cumsum().shift(1)`
   * where `.shift(1)` is applied to the already ungrouped result: the
   * previous frame row's group totals, NaN (0/0 or no previous row) filled
   * with 0.
   */
  function FrameShiftedRatio<K(==)>(num: seq<real>, den: seq<real>, keys: seq<K>, i: nat): real
    requires |num| == |keys| && |den| == |keys| && i < |keys|
  {
    var a := CumSumFrameShifted(num, keys, i);
    var b := CumSumFrameShifted(den, keys, i);
    if a.Some? && b.Some? && b.value != 0.0 then a.value / b.value else 0.0
  }

  /** The ratio over the group's own earlier rows, 0 where there is nothing to divide by. */
  function PriorRatio<K(==)>(num: seq<real>, den: seq<real>, keys: seq<K>, i: nat): real
    requires |num| == |keys| && |den| == |keys| && i < |keys|
  {
    var b := Sum(Prior(den, keys, i));
    if b != 0.0 then Sum(Prior(num, keys, i)) / b else 0.0
  }

  /** Away from group boundaries the two shifts agree. */
  lemma FrameShiftedRatioInsideGroup<K>(num: seq<real>, den: seq<real>, keys: seq<K>, i: nat)
    requires |num| == |keys| && |den| == |keys| && 0 < i < |keys| && keys[i - 1] == keys[i]
    ensures FrameShiftedRatio(num, den, keys, i) == PriorRatio(num, den, keys, i)
  {
    CumSumFrameShiftedInsideGroup(num, keys, i);
    CumSumFrameShiftedInsideGroup(den, keys, i);
  }

  /** At a group's first row there are no earlier rows of the group, so its prior ratio is 0. */
  lemma PriorRatioFirstRow<K>(num: seq<real>, den: seq<real>, keys: seq<K>, i: nat)
    requires |num| == |keys| && |den| == |keys| && i < |keys| && PriorCount(keys, i) == 0
    ensures PriorRatio(num, den, keys, i) == 0.0
  {
    GroupValuesBeforeLength(den, keys, keys, keys[i], i);
  }

  // ---------------------------------------------------------------------
  // A row's place in its group's series
  // ---------------------------------------------------------------------

  lemma {:induction false} GroupValuesBeforeGrows<V, K>(vals: seq<V>, keys: seq<K>, k: K, m: nat, n: nat)
    requires |vals| == |keys| && m <= n <= |keys|
    ensures GroupValuesBefore(vals, keys, k, m) <= GroupValuesBefore(vals, keys, k, n)
    decreases n
  {
    if n > m {
      GroupValuesBeforeGrows(vals, keys, k, m, n - 1);
    }
  }

  /**
   * `groupby(keys)[col].apply(f)` hands f the group's whole series; row i
   * sits at position `PriorCount(keys, i)` of it, after its earlier rows.
   */
  lemma GroupSeriesAt<V, K>(vals: seq<V>, keys: seq<K>, i: nat)
    requires |vals| == |keys| && i < |keys|
    ensures var s := GroupValuesBefore(vals, keys, keys[i], |keys|);
      PriorCount(keys, i) < |s| && s[PriorCount(keys, i)] == vals[i] && s[..PriorCount(keys, i)] == Prior(vals, keys, i)
  {
    var k := keys[i];
    var s := GroupValuesBefore(vals, keys, k, |keys|);
    var p := Prior(vals, keys, i);
    GroupValuesBeforeLength(vals, keys, keys, k, i);
    GroupValuesBeforeGrows(vals, keys, k, i + 1, |keys|);
    assert GroupValuesBefore(vals, keys, k, i + 1) == p + [vals[i]];
    assert (p + [vals[i]])[|p|] == vals[i];
    assert s[..|p| + 1] == p + [vals[i]];
    assert s[..|p|] == (p + [vals[i]])[..|p|];
  }
}
