/**
 * The accuracy chart's numbers: the season report's games are grouped by
 * date in increasing order, each date gets its correct and total counts
 * and their ratio, and the running sums over the dates give the
 * cumulative accuracy.
 */
module Accuracy {
  import opened Common
  import opened Ordering

  /** A game of the season report: its date and `Is_Correct` (1 when the prediction was right). */
  datatype Pick = Pick(date: string, isCorrect: int)

  /** One row of `daily_stats`. */
  datatype DayStat = DayStat(date: string, correct: int, total: int, dailyAccuracy: real,
                             cumulativeCorrect: int, cumulativeTotal: int, cumulativeAccuracy: real)

  function One(p: Pick): int { 1 }
  function Hit(p: Pick): int { p.isCorrect }

  /** The sum of `w` over the games of date `d`. */
  function WeightOn(rows: seq<Pick>, d: string, w: Pick -> int): int
  {
    if |rows| == 0 then 0
    else WeightOn(rows[..|rows| - 1], d, w) + (if rows[|rows| - 1].date == d then w(rows[|rows| - 1]) else 0)
  }

  /** The sum of `w` over the games of the dates `days`, date by date. */
  function OverDays(rows: seq<Pick>, days: seq<string>, w: Pick -> int): int
  {
    if |days| == 0 then 0 else OverDays(rows, days[..|days| - 1], w) + WeightOn(rows, days[|days| - 1], w)
  }

  /** The sum of `w` over all games. */
  function Total(rows: seq<Pick>, w: Pick -> int): int
  {
    if |rows| == 0 then 0 else Total(rows[..|rows| - 1], w) + w(rows[|rows| - 1])
  }

  function Dates(rows: seq<Pick>): seq<string>
  {
    seq(|rows|, k requires 0 <= k < |rows| => rows[k].date)
  }

  /** The dates of the chart: each date once, in increasing order (`groupby` sorts its keys). */
  function Days(rows: seq<Pick>): seq<string>
  {
    SortedUnique(Dates(rows))
  }

  function Ratio(a: int, b: int): real
  {
    if b == 0 then 0.0 else a as real / b as real
  }

  /** The chart row of the `k`-th date: its counts and ratio, then the running sums up to it and their ratio. */
  function DayLine(rows: seq<Pick>, days: seq<string>, k: nat): DayStat
    requires k < |days|
  {
    var c, n := WeightOn(rows, days[k], Hit), WeightOn(rows, days[k], One);
    var cc, cn := OverDays(rows, days[..k + 1], Hit), OverDays(rows, days[..k + 1], One);
    DayStat(days[k], c, n, Ratio(c, n), cc, cn, Ratio(cc, cn))
  }

  /** `daily_stats`: one row per date of the chart. */
  function DailyStats(rows: seq<Pick>): (r: seq<DayStat>)
    ensures |r| == |Days(rows)|
    ensures forall k :: 0 <= k < |r| ==> r[k] == DayLine(rows, Days(rows), k)
  {
    var days := Days(rows);
    seq(|days|, k requires 0 <= k < |days| => DayLine(rows, days, k))
  }

  // ---------------------------------------------------------------------
  // Every game is counted on exactly one date
  // ---------------------------------------------------------------------

  ghost predicate Distinct(days: seq<string>)
  {
    forall i, j :: 0 <= i < j < |days| ==> days[i] != days[j]
  }

  /** The weight of one game summed over the dates: its own weight if its date is listed once. */
  function Indicator(days: seq<string>, p: Pick, w: Pick -> int): int
  {
    if |days| == 0 then 0 else Indicator(days[..|days| - 1], p, w) + (if days[|days| - 1] == p.date then w(p) else 0)
  }

  lemma {:induction false} IndicatorOnce(days: seq<string>, p: Pick, w: Pick -> int)
    requires Distinct(days)
    ensures Indicator(days, p, w) == if p.date in days then w(p) else 0
  {
    if |days| > 0 {
      var init := days[..|days| - 1];
      assert days == init + [days[|days| - 1]];
      IndicatorOnce(init, p, w);
    }
  }

  lemma {:induction false} OverDaysSnoc(rows: seq<Pick>, days: seq<string>, w: Pick -> int)
    requires |rows| > 0
    ensures OverDays(rows, days, w) == OverDays(rows[..|rows| - 1], days, w) + Indicator(days, rows[|rows| - 1], w)
  {
    if |days| > 0 {
      OverDaysSnoc(rows, days[..|days| - 1], w);
    }
  }

  /** Summed date by date over dates that list every game's date once, the weights add up to their total. */
  lemma {:induction false} Partition(rows: seq<Pick>, days: seq<string>, w: Pick -> int)
    requires Distinct(days)
    requires forall k :: 0 <= k < |rows| ==> rows[k].date in days
    ensures OverDays(rows, days, w) == Total(rows, w)
  {
    if |rows| == 0 {
      ZeroOverDays(rows, days, w);
    } else {
      OverDaysSnoc(rows, days, w);
      IndicatorOnce(days, rows[|rows| - 1], w);
      Partition(rows[..|rows| - 1], days, w);
    }
  }

  lemma {:induction false} ZeroOverDays(rows: seq<Pick>, days: seq<string>, w: Pick -> int)
    requires |rows| == 0
    ensures OverDays(rows, days, w) == 0
  {
    if |days| > 0 {
      ZeroOverDays(rows, days[..|days| - 1], w);
    }
  }

  lemma {:induction false} TotalOne(rows: seq<Pick>)
    ensures Total(rows, One) == |rows|
  {
    if |rows| > 0 {
      TotalOne(rows[..|rows| - 1]);
    }
  }

  lemma DaysSpec(rows: seq<Pick>)
    ensures Distinct(Days(rows))
    ensures forall d :: d in Days(rows) <==> exists k :: 0 <= k < |rows| && rows[k].date == d
  {
    var days := Days(rows);
    forall i, j | 0 <= i < j < |days| ensures days[i] != days[j] {
      SeqLessIrreflexive(StrKey(days[i]));
    }
    forall d | d in days ensures exists k :: 0 <= k < |rows| && rows[k].date == d {
      assert d in Dates(rows);
    }
    forall k | 0 <= k < |rows| ensures rows[k].date in days {
      assert Dates(rows)[k] == rows[k].date;
    }
  }

  // ---------------------------------------------------------------------
  // Properties of the chart
  // ---------------------------------------------------------------------

  /** The chart's dates increase, and each has at least one game and its ratio as daily accuracy. */
  lemma DailyStatsDays(rows: seq<Pick>)
    ensures var s := DailyStats(rows);
      forall i, j :: 0 <= i < j < |s| ==> StrLess(s[i].date, s[j].date)
    ensures var s := DailyStats(rows);
      forall k :: 0 <= k < |s| ==> s[k].total > 0 && s[k].dailyAccuracy == s[k].correct as real / s[k].total as real
  {
    var days := Days(rows);
    var s := DailyStats(rows);
    DaysSpec(rows);
    forall k | 0 <= k < |s| ensures s[k].total > 0 {
      assert days[k] in days;
      var i :| 0 <= i < |rows| && rows[i].date == days[k];
      PositiveCount(rows, i);
    }
  }

  lemma RunningStep(rows: seq<Pick>, days: seq<string>, k: nat)
    requires 0 < k < |days|
    ensures DayLine(rows, days, k).cumulativeCorrect == DayLine(rows, days, k - 1).cumulativeCorrect + DayLine(rows, days, k).correct
    ensures DayLine(rows, days, k).cumulativeTotal == DayLine(rows, days, k - 1).cumulativeTotal + DayLine(rows, days, k).total
  {
    assert days[..k + 1][..k] == days[..k] && days[..k + 1][k] == days[k];
  }

  lemma RunningFirst(rows: seq<Pick>, days: seq<string>)
    requires 0 < |days|
    ensures DayLine(rows, days, 0).cumulativeCorrect == DayLine(rows, days, 0).correct
    ensures DayLine(rows, days, 0).cumulativeTotal == DayLine(rows, days, 0).total
  {
    assert days[..1][..0] == [] && days[..1][0] == days[0];
    assert OverDays(rows, days[..1][..0], Hit) == 0 && OverDays(rows, days[..1][..0], One) == 0;
  }

  /** The cumulative counts are running sums of the daily ones. */
  lemma DailyStatsRunning(rows: seq<Pick>)
    ensures var s := DailyStats(rows);
      forall k :: 0 < k < |s| ==> s[k].cumulativeCorrect == s[k - 1].cumulativeCorrect + s[k].correct
    ensures var s := DailyStats(rows);
      forall k :: 0 < k < |s| ==> s[k].cumulativeTotal == s[k - 1].cumulativeTotal + s[k].total
    ensures var s := DailyStats(rows);
      |s| > 0 ==> s[0].cumulativeCorrect == s[0].correct && s[0].cumulativeTotal == s[0].total
  {
    var days := Days(rows);
    forall k | 0 < k < |days| ensures DayLine(rows, days, k).cumulativeCorrect == DayLine(rows, days, k - 1).cumulativeCorrect + DayLine(rows, days, k).correct
      ensures DayLine(rows, days, k).cumulativeTotal == DayLine(rows, days, k - 1).cumulativeTotal + DayLine(rows, days, k).total
    {
      RunningStep(rows, days, k);
    }
    if |days| > 0 {
      RunningFirst(rows, days);
    }
  }

  /** Over dates that list every game's date once, the last running sums are the totals. */
  lemma FinalLine(rows: seq<Pick>, days: seq<string>)
    requires |days| > 0 && Distinct(days)
    requires forall k :: 0 <= k < |rows| ==> rows[k].date in days
    ensures DayLine(rows, days, |days| - 1).cumulativeTotal == |rows|
    ensures DayLine(rows, days, |days| - 1).cumulativeCorrect == Total(rows, Hit)
  {
    assert days[..|days|] == days;
    Partition(rows, days, One);
    Partition(rows, days, Hit);
    TotalOne(rows);
  }

  /** The last cumulative total is the number of games, and the last cumulative count of correct picks is their total. */
  lemma DailyStatsFinal(rows: seq<Pick>)
    requires |rows| > 0
    ensures |DailyStats(rows)| > 0
    ensures DailyStats(rows)[|DailyStats(rows)| - 1].cumulativeTotal == |rows|
    ensures DailyStats(rows)[|DailyStats(rows)| - 1].cumulativeCorrect == Total(rows, Hit)
  {
    var days := Days(rows);
    DaysSpec(rows);
    assert rows[0].date in days;
    FinalLine(rows, days);
  }

  lemma {:induction false} PositiveCount(rows: seq<Pick>, i: nat)
    requires i < |rows|
    ensures WeightOn(rows, rows[i].date, One) > 0
  {
    if i < |rows| - 1 {
      PositiveCount(rows[..|rows| - 1], i);
      assert rows[..|rows| - 1][i] == rows[i];
    }
    WeightOnNonNegative(rows[..|rows| - 1], rows[i].date);
  }

  lemma {:induction false} WeightOnNonNegative(rows: seq<Pick>, d: string)
    ensures WeightOn(rows, d, One) >= 0
  {
    if |rows| > 0 {
      WeightOnNonNegative(rows[..|rows| - 1], d);
    }
  }

  ghost predicate ZeroOne(rows: seq<Pick>)
  {
    forall k :: 0 <= k < |rows| ==> rows[k].isCorrect == 0 || rows[k].isCorrect == 1
  }

  lemma {:induction false} HitsBounded(rows: seq<Pick>, d: string)
    requires ZeroOne(rows)
    ensures 0 <= WeightOn(rows, d, Hit) <= WeightOn(rows, d, One)
  {
    if |rows| > 0 {
      HitsBounded(rows[..|rows| - 1], d);
    }
  }

  lemma {:induction false} OverDaysBounded(rows: seq<Pick>, days: seq<string>)
    requires ZeroOne(rows)
    ensures 0 <= OverDays(rows, days, Hit) <= OverDays(rows, days, One)
  {
    if |days| > 0 {
      OverDaysBounded(rows, days[..|days| - 1]);
      HitsBounded(rows, days[|days| - 1]);
    }
  }

  lemma RatioBounds(a: int, b: int)
    requires 0 <= a <= b
    ensures 0.0 <= Ratio(a, b) <= 1.0
  {
    if b > 0 {
      assert a as real <= b as real;
    }
  }

  /** With `Is_Correct` 0 or 1 every daily and cumulative accuracy is a fraction. */
  lemma AccuracyBounds(rows: seq<Pick>)
    requires ZeroOne(rows)
    ensures forall k :: 0 <= k < |DailyStats(rows)| ==> 0.0 <= DailyStats(rows)[k].dailyAccuracy <= 1.0
    ensures forall k :: 0 <= k < |DailyStats(rows)| ==> 0.0 <= DailyStats(rows)[k].cumulativeAccuracy <= 1.0
  {
    var days := Days(rows);
    forall k | 0 <= k < |days|
      ensures 0.0 <= DailyStats(rows)[k].dailyAccuracy <= 1.0
      ensures 0.0 <= DailyStats(rows)[k].cumulativeAccuracy <= 1.0
    {
      HitsBounded(rows, days[k]);
      RatioBounds(WeightOn(rows, days[k], Hit), WeightOn(rows, days[k], One));
      OverDaysBounded(rows, days[..k + 1]);
      RatioBounds(OverDays(rows, days[..k + 1], Hit), OverDays(rows, days[..k + 1], One));
    }
  }
}
