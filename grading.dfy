/**
 * The grading robot: for every date of an analysis report that still has
 * unsettled rows, the final scores of that day fill in each row's score,
 * winner and outcome, the side bet on being read off the signal's tags.
 * Settled rows are never rewritten.  The summary counts wins and losses
 * and the net units and ROI of one unit per bet.
 */
module Grading {
  import opened Common
  import opened Decision

  /** The Outcome column: empty, "-", "✅ WIN" or "❌ LOSS". */
  datatype Outcome = Blank | NoBet | Win | Loss

  predicate Settled(o: Outcome)
  {
    o == Win || o == Loss
  }

  /** One row of a report; `tags` are the markers in its signal text. */
  datatype ReportRow = ReportRow(date: string, home: string, away: string, tags: set<Tag>,
                                 oddsHome: Option<real>, oddsAway: Option<real>,
                                 homeScore: Option<int>, awayScore: Option<int>,
                                 winner: Option<string>, outcome: Outcome)

  /** The day's final scores by (home, away): (home score, away score). */
  type Scores = map<(string, string), (int, int)>

  datatype Side = HomeSide | AwaySide | NoSide

  predicate Excluded(tags: set<Tag>)
  {
    WatchTag in tags || PassTag in tags || NoOddsTag in tags
  }

  predicate NamesHome(tags: set<Tag>) { HomeMark in tags || BetHomeTag in tags }
  predicate NamesAway(tags: set<Tag>) { AwayMark in tags || BetAwayTag in tags }

  /** The side bet on: home before away, and none at all once the text says 觀望, PASS or 無賠率. */
  function BetSide(tags: set<Tag>): (s: Side)
    ensures s == HomeSide <==> NamesHome(tags) && !Excluded(tags)
    ensures s == AwaySide <==> !NamesHome(tags) && NamesAway(tags) && !Excluded(tags)
    ensures s == NoSide <==> Excluded(tags) || (!NamesHome(tags) && !NamesAway(tags))
  {
    if Excluded(tags) then NoSide
    else if NamesHome(tags) then HomeSide
    else if NamesAway(tags) then AwaySide
    else NoSide
  }

  /** The winner column: home on a strictly higher score, away otherwise (a tie goes to away). */
  function Winner(home: string, away: string, h: int, a: int): (w: string)
    ensures h > a ==> w == home
    ensures h <= a ==> w == away
  {
    if h > a then home else away
  }

  /** A bet wins when its side scored strictly more; no side is "-". */
  function OutcomeOf(side: Side, h: int, a: int): (o: Outcome)
    ensures o != Blank
    ensures o == NoBet <==> side == NoSide
    ensures o == Win <==> (side == HomeSide && h > a) || (side == AwaySide && a > h)
    ensures o == Loss <==> (side == HomeSide && h <= a) || (side == AwaySide && a <= h)
  {
    match side
    case HomeSide => if h > a then Win else Loss
    case AwaySide => if a > h then Win else Loss
    case NoSide => NoBet
  }

  /** The row after its game is graded against the day's scores. */
  function Graded(r: ReportRow, scores: Scores): (g: ReportRow)
    ensures Settled(r.outcome) ==> g == r
    ensures (r.home, r.away) !in scores ==> g == r
    ensures g.date == r.date && g.home == r.home && g.away == r.away && g.tags == r.tags && g.oddsHome == r.oddsHome && g.oddsAway == r.oddsAway
    ensures !Settled(r.outcome) && (r.home, r.away) in scores ==>
      var (h, a) := scores[(r.home, r.away)];
      g.homeScore == Some(h) && g.awayScore == Some(a) && g.winner == Some(Winner(r.home, r.away, h, a)) &&
      g.outcome == OutcomeOf(BetSide(r.tags), h, a)
  {
    if Settled(r.outcome) || (r.home, r.away) !in scores then r
    else
      var (h, a) := scores[(r.home, r.away)];
      r.(homeScore := Some(h), awayScore := Some(a), winner := Some(Winner(r.home, r.away, h, a)),
         outcome := OutcomeOf(BetSide(r.tags), h, a))
  }

  /** Grading twice against the same scores changes nothing more. */
  lemma GradedIdempotent(r: ReportRow, scores: Scores)
    ensures Graded(Graded(r, scores), scores) == Graded(r, scores)
  {
  }

  /** Every row graded against its own day's scores. */
  function GradeAll(rows: seq<ReportRow>, scoresOf: string -> Scores): (g: seq<ReportRow>)
    ensures |g| == |rows|
  {
    seq(|rows|, i requires 0 <= i < |rows| => Graded(rows[i], scoresOf(rows[i].date)))
  }

  /**
   * A settled row stays as it was; a row whose game has no score stays as
   * it was; every other row gets its scores, winner and outcome; a second
   * pass over the graded report changes nothing.
   */
  lemma GradeAllSpec(rows: seq<ReportRow>, scoresOf: string -> Scores)
    ensures forall i :: 0 <= i < |rows| && Settled(rows[i].outcome) ==> GradeAll(rows, scoresOf)[i] == rows[i]
    ensures forall i :: 0 <= i < |rows| && (rows[i].home, rows[i].away) !in scoresOf(rows[i].date) ==> GradeAll(rows, scoresOf)[i] == rows[i]
    ensures forall i :: 0 <= i < |rows| && !Settled(rows[i].outcome) && (rows[i].home, rows[i].away) in scoresOf(rows[i].date) ==>
      GradeAll(rows, scoresOf)[i].outcome != Blank
    ensures GradeAll(GradeAll(rows, scoresOf), scoresOf) == GradeAll(rows, scoresOf)
  {
    var g := GradeAll(rows, scoresOf);
    forall i | 0 <= i < |rows| ensures GradeAll(g, scoresOf)[i] == g[i] {
      GradedIdempotent(rows[i], scoresOf(rows[i].date));
    }
  }

  // ---------------------------------------------------------------------
  // The report, graded in place
  // ---------------------------------------------------------------------

  /** The dates of a table in order of first appearance (`unique`). */
  function UniqueDates(rows: seq<ReportRow>): seq<string>
  {
    if |rows| == 0 then []
    else
      var p := UniqueDates(rows[..|rows| - 1]);
      if rows[|rows| - 1].date in p then p else p + [rows[|rows| - 1].date]
  }

  ghost predicate DistinctDates(ds: seq<string>)
  {
    forall i, j :: 0 <= i < j < |ds| ==> ds[i] != ds[j]
  }

  lemma {:induction false} UniqueDatesContents(rows: seq<ReportRow>)
    ensures DistinctDates(UniqueDates(rows))
    ensures forall d :: d in UniqueDates(rows) <==> exists i :: 0 <= i < |rows| && rows[i].date == d
  {
    if |rows| > 0 {
      var init := rows[..|rows| - 1];
      UniqueDatesContents(init);
      forall d ensures d in UniqueDates(rows) <==> exists i :: 0 <= i < |rows| && rows[i].date == d {
        if d in UniqueDates(init) {
          var i :| 0 <= i < |init| && init[i].date == d;
          assert rows[i].date == d;
        }
        if i :| 0 <= i < |rows| && rows[i].date == d {
          if i < |init| {
            assert init[i].date == d;
          }
        }
      }
    }
  }

  /** All rows of the day are already WIN or LOSS. */
  predicate DaySettled(rows: seq<ReportRow>, d: string)
  {
    forall i :: 0 <= i < |rows| && rows[i].date == d ==> Settled(rows[i].outcome)
  }

  /** The rows of one date graded against that day's scores, the others as they are. */
  function GradeDate(rows: seq<ReportRow>, d: string, scores: Scores): (g: seq<ReportRow>)
    ensures |g| == |rows|
  {
    seq(|rows|, i requires 0 <= i < |rows| => if rows[i].date == d then Graded(rows[i], scores) else rows[i])
  }

  /** The rows whose date is in `done` graded against their day's scores. */
  function GradedUpTo(rows: seq<ReportRow>, done: seq<string>, scoresOf: string -> Scores): (g: seq<ReportRow>)
    ensures |g| == |rows|
  {
    seq(|rows|, i requires 0 <= i < |rows| => if rows[i].date in done then Graded(rows[i], scoresOf(rows[i].date)) else rows[i])
  }

  /** The table of an analysis report, its rows updated in place. */
  class Report {
    var rows: array<ReportRow>

    constructor (table: seq<ReportRow>)
      ensures rows[..] == table && fresh(rows)
    {
      rows := new ReportRow[|table|](i requires 0 <= i < |table| => table[i]);
    }

    /** The row loop of one date: every unsettled row with a score is graded. */
    method GradeDay(d: string, scores: Scores)
      modifies rows
      ensures rows[..] == GradeDate(old(rows[..]), d, scores)
    {
      ghost var orig := rows[..];
      for i := 0 to rows.Length
        invariant forall j :: 0 <= j < i ==> rows[j] == (if orig[j].date == d then Graded(orig[j], scores) else orig[j])
        invariant forall j :: i <= j < rows.Length ==> rows[j] == orig[j]
      {
        var r := rows[i];
        if r.date != d || Settled(r.outcome) {
          continue;
        }
        if (r.home, r.away) in scores {
          var (h, a) := scores[(r.home, r.away)];
          var side := BetSide(r.tags);
          var outcome := NoBet;
          if side == HomeSide {
            outcome := if h > a then Win else Loss;
          } else if side == AwaySide {
            outcome := if a > h then Win else Loss;
          }
          rows[i] := r.(homeScore := Some(h), awayScore := Some(a), winner := Some(if h > a then r.home else r.away), outcome := outcome);
        }
      }
    }

    /** `process_report` up to the summary: each date is graded unless all its rows are settled or no score was found. */
    method Grade(scoresOf: string -> Scores)
      modifies rows
      ensures rows[..] == GradeAll(old(rows[..]), scoresOf)
    {
      ghost var orig := rows[..];
      var dates := UniqueDates(rows[..]);
      UniqueDatesContents(orig);
      for k := 0 to |dates|
        invariant rows[..] == GradedUpTo(orig, dates[..k], scoresOf)
      {
        var d := dates[k];
        assert dates[..k + 1] == dates[..k] + [d];
        assert d !in dates[..k];
        if DaySettled(rows[..], d) {
          SkipSettledDay(orig, dates[..k], d, scoresOf);
          continue;
        }
        var scores := scoresOf(d);
        if |scores| == 0 {
          SkipEmptyDay(orig, dates[..k], d, scoresOf);
          continue;
        }
        GradeDay(d, scores);
        NextDate(orig, dates[..k], d, scoresOf);
      }
      assert dates[..|dates|] == dates;
      forall i | 0 <= i < |orig| ensures orig[i].date in dates {
      }
    }
  }

  lemma SkipSettledDay(orig: seq<ReportRow>, done: seq<string>, d: string, scoresOf: string -> Scores)
    requires d !in done
    requires DaySettled(GradedUpTo(orig, done, scoresOf), d)
    ensures GradedUpTo(orig, done + [d], scoresOf) == GradedUpTo(orig, done, scoresOf)
  {
    var cur := GradedUpTo(orig, done, scoresOf);
    forall i | 0 <= i < |orig| ensures GradedUpTo(orig, done + [d], scoresOf)[i] == cur[i] {
      if orig[i].date == d {
        assert Settled(cur[i].outcome);
      }
    }
  }

  lemma SkipEmptyDay(orig: seq<ReportRow>, done: seq<string>, d: string, scoresOf: string -> Scores)
    requires d !in done && |scoresOf(d)| == 0
    ensures GradedUpTo(orig, done + [d], scoresOf) == GradedUpTo(orig, done, scoresOf)
  {
    var cur := GradedUpTo(orig, done, scoresOf);
    forall i | 0 <= i < |orig| ensures GradedUpTo(orig, done + [d], scoresOf)[i] == cur[i] {
      if orig[i].date == d {
        assert (orig[i].home, orig[i].away) !in scoresOf(d);
      }
    }
  }

  lemma NextDate(orig: seq<ReportRow>, done: seq<string>, d: string, scoresOf: string -> Scores)
    requires d !in done
    ensures GradeDate(GradedUpTo(orig, done, scoresOf), d, scoresOf(d)) == GradedUpTo(orig, done + [d], scoresOf)
  {
  }

  // ---------------------------------------------------------------------
  // The summary
  // ---------------------------------------------------------------------

  function CountOf(rows: seq<ReportRow>, o: Outcome): (n: nat)
    ensures n <= |rows|
  {
    if |rows| == 0 then 0 else CountOf(rows[..|rows| - 1], o) + (if rows[|rows| - 1].outcome == o then 1 else 0)
  }

  /** The odds of the side a winning row bet on: home when the text names home, away otherwise. */
  function WinOdds(r: ReportRow): Option<real>
  {
    if NamesHome(r.tags) then r.oddsHome else r.oddsAway
  }

  /** `odds - 1` for a win, `-1` for a loss, nothing for other rows; a missing odd makes the total missing. */
  function Profit(r: ReportRow): Option<real>
  {
    match r.outcome
    case Win => if WinOdds(r).None? then None else Some(WinOdds(r).value - 1.0)
    case Loss => Some(-1.0)
    case _ => Some(0.0)
  }

  function AddProfit(acc: Option<real>, p: Option<real>): Option<real>
  {
    if acc.None? || p.None? then None else Some(acc.value + p.value)
  }

  function Net(rows: seq<ReportRow>): Option<real>
  {
    if |rows| == 0 then Some(0.0) else AddProfit(Net(rows[..|rows| - 1]), Profit(rows[|rows| - 1]))
  }

  datatype Summary = Summary(wins: nat, losses: nat, winRate: real, net: Option<real>, roi: Option<real>)

  /** Win rate and ROI over the settled rows, both 0 with no settled row. */
  function SummaryOf(rows: seq<ReportRow>): (s: Summary)
    ensures s.wins == CountOf(rows, Win) && s.losses == CountOf(rows, Loss)
  {
    var w, l := CountOf(rows, Win), CountOf(rows, Loss);
    var rate := if w + l > 0 then w as real / (w + l) as real else 0.0;
    var net := Net(rows);
    var roi := if net.None? then None else if w + l > 0 then Some(net.value / (w + l) as real * 100.0) else Some(0.0);
    Summary(w, l, rate, net, roi)
  }

  /** The summary of `process_report`, with the ROI loop over the settled rows. */
  method Summarize(rows: seq<ReportRow>) returns (s: Summary)
    ensures s == SummaryOf(rows)
  {
    var wins, losses := CountOf(rows, Win), CountOf(rows, Loss);
    var rate := if wins + losses > 0 then wins as real / (wins + losses) as real else 0.0;
    var net: Option<real> := Some(0.0);
    for k := 0 to |rows|
      invariant net == Net(rows[..k])
    {
      assert rows[..k + 1][..k] == rows[..k];
      var r := rows[k];
      if r.outcome == Win {
        var odds := if NamesHome(r.tags) then r.oddsHome else r.oddsAway;
        net := if net.None? || odds.None? then None else Some(net.value + (odds.value - 1.0));
      } else if r.outcome == Loss {
        net := if net.None? then None else Some(net.value - 1.0);
      } else {
        net := AddProfit(net, Some(0.0));
      }
    }
    assert rows[..|rows|] == rows;
    var roi := if net.None? then None else if wins + losses > 0 then Some(net.value / (wins + losses) as real * 100.0) else Some(0.0);
    s := Summary(wins, losses, rate, net, roi);
  }

  lemma {:induction false} CountSettled(rows: seq<ReportRow>)
    ensures CountOf(rows, Win) + CountOf(rows, Loss) <= |rows|
    ensures CountOf(rows, Win) + CountOf(rows, Loss) == 0 <==> forall i :: 0 <= i < |rows| ==> !Settled(rows[i].outcome)
  {
    if |rows| > 0 {
      var init := rows[..|rows| - 1];
      CountSettled(init);
      assert forall i :: 0 <= i < |init| ==> init[i] == rows[i];
    }
  }

  /** The win rate is a fraction, 0 when nothing is settled and 1 when every settled row won. */
  lemma WinRateBounds(rows: seq<ReportRow>)
    ensures 0.0 <= SummaryOf(rows).winRate <= 1.0
    ensures (forall i :: 0 <= i < |rows| ==> !Settled(rows[i].outcome)) ==> SummaryOf(rows).winRate == 0.0
    ensures CountOf(rows, Win) > 0 && CountOf(rows, Loss) == 0 ==> SummaryOf(rows).winRate == 1.0
  {
    CountSettled(rows);
    var w, l := CountOf(rows, Win), CountOf(rows, Loss);
    var rate := SummaryOf(rows).winRate;
    assert rate == if w + l > 0 then w as real / (w + l) as real else 0.0;
    if w + l > 0 {
      FractionBounds(w as real, (w + l) as real);
    }
  }

  lemma FractionBounds(x: real, t: real)
    requires 0.0 <= x <= t && 0.0 < t
    ensures 0.0 <= x / t <= 1.0
    ensures x == t ==> x / t == 1.0
  {
  }

  ghost predicate WinsPriced(rows: seq<ReportRow>)
  {
    forall i :: 0 <= i < |rows| && rows[i].outcome == Win ==> WinOdds(rows[i]).Some? && WinOdds(rows[i]).value >= 1.0
  }

  /** With every win priced at odds of at least 1, the net is known, never below minus the losses, and exactly that with no win. */
  lemma {:induction false} NetBounds(rows: seq<ReportRow>)
    requires WinsPriced(rows)
    ensures Net(rows).Some?
    ensures Net(rows).value >= -(CountOf(rows, Loss) as real)
    ensures CountOf(rows, Win) == 0 ==> Net(rows).value == -(CountOf(rows, Loss) as real)
  {
    if |rows| > 0 {
      var init := rows[..|rows| - 1];
      assert forall i :: 0 <= i < |init| ==> init[i] == rows[i];
      NetBounds(init);
    }
  }

  /** One unit per bet loses at most everything: the ROI is at least -100 %, and exactly that when every bet lost. */
  lemma RoiFloor(rows: seq<ReportRow>)
    requires WinsPriced(rows)
    ensures SummaryOf(rows).roi.Some? && SummaryOf(rows).roi.value >= -100.0
    ensures CountOf(rows, Win) == 0 && CountOf(rows, Loss) > 0 ==> SummaryOf(rows).roi.value == -100.0
  {
    NetBounds(rows);
    var w, l := CountOf(rows, Win), CountOf(rows, Loss);
    if w + l > 0 {
      RatioFloor(Net(rows).value, (w + l) as real, l as real);
    }
  }

  // ---------------------------------------------------------------------
  // The side read off the signals of both rules
  // ---------------------------------------------------------------------

  /** A simple signal is graded as a home bet when the home value is positive, else as an away bet when the away value is. */
  lemma SimpleSignalSide(hp: real, eh: Option<real>, ea: Option<real>)
    ensures BetSide(SimpleTags(SimpleSignalOf(hp, eh, ea))) ==
      if eh.None? || ea.None? then NoSide
      else if eh.value > 0.0 then HomeSide
      else if ea.value > 0.0 then AwaySide
      else NoSide
  {
    if eh.Some? && ea.Some? {
      SimpleTagsSpec(hp, eh.value, ea.value);
    }
  }

  /** The banded rule's passes and missing odds are never graded; its locks are graded on their side. */
  lemma BandedSignalSide(hp: real, eh: real, ea: real)
    ensures BetSide(BandedTags(BandedSignalOf(hp, None, Some(ea)))) == NoSide
    ensures 0.80 <= hp < 0.90 || 0.40 <= hp < 0.60 ==> BetSide(BandedTags(BandedSignalOf(hp, Some(eh), Some(ea)))) == NoSide
    ensures hp >= 0.90 ==> BetSide(BandedTags(BandedSignalOf(hp, Some(eh), Some(ea)))) == HomeSide
    ensures hp < 0.20 ==> BetSide(BandedTags(BandedSignalOf(hp, Some(eh), Some(ea)))) == AwaySide
    ensures 0.70 <= hp < 0.80 && eh > 0.0 ==> BetSide(BandedTags(BandedSignalOf(hp, Some(eh), Some(ea)))) == HomeSide
  {
    BandedSignalBands(hp, eh, ea);
    var s := BandedSignalOf(hp, Some(eh), Some(ea));
    if hp >= 0.90 {
      assert BandedEntryTag(s.entries[0]) == BetHomeTag;
    }
    if hp < 0.20 {
      assert BandedEntryTag(s.entries[0]) == BetAwayTag;
    }
    if 0.70 <= hp < 0.80 && eh > 0.0 {
      assert BandedEntryTag(s.entries[0]) == BetHomeTag;
    }
  }

  lemma RatioFloor(n: real, t: real, l: real)
    requires 0.0 < t && l <= t && n >= -l
    ensures n / t * 100.0 >= -100.0
    ensures n == -t ==> n / t * 100.0 == -100.0
  {
    assert n / t >= -1.0;
  }
}
