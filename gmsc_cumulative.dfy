/**
 * The before-game player GmSc table: single-game scores are coerced to
 * numbers (missing or unparsable ones count 0), the logs are sorted by
 * (player, date), a running sum is taken per (player, season), shifted one
 * game inside the group, and only games from 1 October 2015 on are kept.
 */
module GmscCumulative {
  import opened Common
  import opened Dates
  import opened Ordering
  import opened Rolling

  /** One row of the single-game file; `gmsc` is None where the cell is not a number. */
  datatype GameLog = GameLog(playerId: string, playerName: string, seasonYear: int, date: Date, team: string, gmsc: Option<real>)

  /** The six output columns. */
  datatype CumulativeRow = CumulativeRow(playerId: string, playerName: string, seasonYear: int, date: Date, team: string, beforeGmsc: real)

  const Cutoff: Date := Date(2015, 10, 1)

  /** `pd.to_numeric(errors='coerce').fillna(0.0)`. */
  function GameScore(g: GameLog): real
  {
    OrElse(g.gmsc, 0.0)
  }

  function LogOrder(g: GameLog): Key
  {
    [StrKey(g.playerId), DateKey(g.date)]
  }

  function PlayerSeason(g: GameLog): (string, int)
  {
    (g.playerId, g.seasonYear)
  }

  function Scores(rows: seq<GameLog>): (r: seq<real>)
    ensures |r| == |rows| && forall i :: 0 <= i < |rows| ==> r[i] == GameScore(rows[i])
  {
    seq(|rows|, i requires 0 <= i < |rows| => GameScore(rows[i]))
  }

  function Groups(rows: seq<GameLog>): (r: seq<(string, int)>)
    ensures |r| == |rows| && forall i :: 0 <= i < |rows| ==> r[i] == PlayerSeason(rows[i])
  {
    seq(|rows|, i requires 0 <= i < |rows| => PlayerSeason(rows[i]))
  }

  /** `Player_Cumulative_GmSc`: the group's running total, this game included. */
  function CumulativeColumn(rows: seq<GameLog>): (r: seq<real>)
    ensures |r| == |rows|
  {
    seq(|rows|, i requires 0 <= i < |rows| => GroupCumSum(Scores(rows), Groups(rows), i))
  }

  /** `Before_Game_Player_GmSc`: the cumulative column shifted inside the group, 0 at its first game. */
  function BeforeColumn(rows: seq<GameLog>): (r: seq<real>)
    ensures |r| == |rows|
  {
    var cum := CumulativeColumn(rows);
    seq(|rows|, i requires 0 <= i < |rows| => OrElse(GroupShift(cum, Groups(rows), i), 0.0))
  }

  /** The running total grows by exactly this game's score over the group's previous game. */
  lemma CumulativeIsRunningSum(rows: seq<GameLog>, i: nat)
    requires i < |rows|
    ensures CumulativeColumn(rows)[i] == Sum(Prior(Scores(rows), Groups(rows), i)) + GameScore(rows[i])
    ensures match GroupPrev(Groups(rows), i)
      case Some(j) => CumulativeColumn(rows)[i] == CumulativeColumn(rows)[j] + GameScore(rows[i])
      case None => CumulativeColumn(rows)[i] == GameScore(rows[i])
  {
    ShiftedCumSumIsPriorSum(Scores(rows), Groups(rows), i);
  }

  /**
   * The before-game value sums the group's strictly earlier games only, and
   * is 0 at the first game of a player-season.
   */
  lemma BeforeIsPriorSum(rows: seq<GameLog>, i: nat)
    requires i < |rows|
    ensures BeforeColumn(rows)[i] == Sum(Prior(Scores(rows), Groups(rows), i))
    ensures PriorCount(Groups(rows), i) == 0 ==> BeforeColumn(rows)[i] == 0.0
  {
    var vals, keys := Scores(rows), Groups(rows);
    var cum := CumulativeColumn(rows);
    ShiftedCumSumIsPriorSum(vals, keys, i);
    HasPriorIffPrev(keys, i);
    GroupValuesBeforeLength(vals, keys, keys, keys[i], i);
    match GroupPrev(keys, i)
    case Some(j) =>
      assert GroupShift(cum, keys, i) == Some(cum[j]);
    case None =>
      assert GroupShift(cum, keys, i) == None;
  }

  /** Every sorted row with its before-game value, before the date filter. */
  function Computed(rows: seq<GameLog>): (r: seq<CumulativeRow>)
    ensures |r| == |rows|
  {
    var before := BeforeColumn(rows);
    seq(|rows|, i requires 0 <= i < |rows| =>
      var g := rows[i];
      CumulativeRow(g.playerId, g.playerName, g.seasonYear, g.date, g.team, before[i]))
  }

  predicate OnOrAfterCutoff(d: Date)
  {
    DayNumber(d) >= DayNumber(Cutoff)
  }

  function KeepRecent(r: CumulativeRow): Option<CumulativeRow>
  {
    if OnOrAfterCutoff(r.date) then Some(r) else None
  }

  /** `process_player_cumulative_gmsc_v108`: the saved table. */
  function CumulativeGmsc(logs: seq<GameLog>): (r: seq<CumulativeRow>)
    ensures |r| <= |logs|
  {
    FilterMap(Computed(SortBy(logs, LogOrder)), KeepRecent)
  }

  /** The filter keeps exactly the computed rows dated on or after the cutoff. */
  lemma {:induction false} KeptRows(rows: seq<GameLog>)
    ensures forall x :: x in FilterMap(Computed(rows), KeepRecent) <==>
      exists i :: 0 <= i < |rows| && Computed(rows)[i] == x && OnOrAfterCutoff(x.date)
  {
    var c := Computed(rows);
    FilterMapContents(c, KeepRecent);
    forall x | x in FilterMap(c, KeepRecent)
      ensures exists i :: 0 <= i < |rows| && c[i] == x && OnOrAfterCutoff(x.date)
    {
      var i :| 0 <= i < |c| && KeepRecent(c[i]) == Some(x);
      assert c[i] == x && OnOrAfterCutoff(x.date);
    }
    forall x | exists i :: 0 <= i < |rows| && c[i] == x && OnOrAfterCutoff(x.date)
      ensures x in FilterMap(c, KeepRecent)
    {
      var i :| 0 <= i < |rows| && c[i] == x && OnOrAfterCutoff(x.date);
      assert KeepRecent(c[i]) == Some(x);
    }
  }

  /** Row i of the sorted logs, dated on or after the cutoff, is `x`, whose value sums its group's earlier games. */
  ghost predicate KeptFrom(rows: seq<GameLog>, i: int, x: CumulativeRow)
  {
    0 <= i < |rows| && Computed(rows)[i] == x && OnOrAfterCutoff(x.date) &&
    x.beforeGmsc == Sum(Prior(Scores(rows), Groups(rows), i))
  }

  /**
   * The date filter runs after the sums: it only drops rows, and a kept row
   * carries the value computed over the whole sorted table, earlier
   * (filtered-out) games of its group included.
   */
  lemma FilterOnlyRemoves(logs: seq<GameLog>, x: CumulativeRow)
    requires x in CumulativeGmsc(logs)
    ensures exists i :: KeptFrom(SortBy(logs, LogOrder), i, x)
  {
    var rows := SortBy(logs, LogOrder);
    KeptRows(rows);
    var i :| 0 <= i < |rows| && Computed(rows)[i] == x && OnOrAfterCutoff(x.date);
    BeforeIsPriorSum(rows, i);
    assert KeptFrom(rows, i, x);
  }

  /**
   * When a row's season column is the season of its date, the cutoff falls
   * on a season boundary: it keeps exactly the seasons from 2016 on, so it
   * never splits a player-season.
   */
  lemma CutoffKeepsWholeSeasons(a: GameLog, b: GameLog)
    requires ValidDate(a.date) && ValidDate(b.date)
    requires a.seasonYear == SeasonYear(a.date) && b.seasonYear == SeasonYear(b.date)
    requires PlayerSeason(a) == PlayerSeason(b)
    ensures OnOrAfterCutoff(a.date) <==> a.seasonYear >= 2016
    ensures OnOrAfterCutoff(a.date) <==> OnOrAfterCutoff(b.date)
  {
    SeasonStartsInOctober(a.date, 2016);
    SeasonStartsInOctober(b.date, 2016);
  }
}
