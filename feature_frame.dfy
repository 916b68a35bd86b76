/**
 * The per-team frame of the training-table builder: every game becomes a
 * Home row and an Away row, sorted by (team, date), and each row gets its
 * "before this game" features from the earlier rows of its (season, team)
 * group; a second pass over the frame sorted by (team, opponent, date)
 * adds the head-to-head windows.
 *
 * Three columns are written with a shift or a rolling window that runs
 * over the whole frame instead of inside the group.  `Build` selects the
 * code as written or the grouped computation evidently intended.
 */
module FeatureFrame {
  import opened Common
  import opened Dates
  import opened Ordering
  import opened Rolling
  import opened Streaks

  /** One row of the raw game file as the feature builder reads it. */
  datatype RawGame = RawGame(gameId: string, date: Date, homeTeam: string, awayTeam: string,
                             homePts: int, awayPts: int, homeDnp: Option<string>, awayDnp: Option<string>)

  /** One team's row of one game. */
  datatype TeamRow = TeamRow(gameId: string, date: Date, seasonYear: int, team: string, opponent: string,
                             pts: int, oppPts: int, win: int, margin: int, dnp: Option<string>, location: Location)

  datatype Build = AsWritten | Intended

  /** The features computed on the (team, date) frame. */
  datatype BaseFeatures = BaseFeatures(winPct: real, homeWinPct: real, awayWinPct: real, avgMargin: real,
                                       streak: int, winPctL5: real, winPctL10: real, avgMarginL5: real,
                                       daysSinceLastGame: int, totalGames: real)

  datatype FramedRow = FramedRow(row: TeamRow, base: BaseFeatures)

  // ---------------------------------------------------------------------
  // Home and Away rows
  // ---------------------------------------------------------------------

  function HomeWin(g: RawGame): int
  {
    if g.homePts > g.awayPts then 1 else 0
  }

  function HomeSide(g: RawGame): TeamRow
  {
    TeamRow(g.gameId, g.date, SeasonYear(g.date), g.homeTeam, g.awayTeam, g.homePts, g.awayPts,
            HomeWin(g), g.homePts - g.awayPts, g.homeDnp, Home)
  }

  function AwaySide(g: RawGame): TeamRow
  {
    TeamRow(g.gameId, g.date, SeasonYear(g.date), g.awayTeam, g.homeTeam, g.awayPts, g.homePts,
            1 - HomeWin(g), -(g.homePts - g.awayPts), g.awayDnp, Away)
  }

  /**
   * The two rows of a game mirror each other: the away result is the
   * complement of the home result (a tie counts as an away win), the away
   * margin is the negated home margin, and both carry the game's season.
   */
  lemma SidesOfGame(g: RawGame)
    ensures AwaySide(g).win == 1 - HomeSide(g).win && AwaySide(g).margin == -HomeSide(g).margin
    ensures HomeSide(g).win == 1 <==> g.homePts > g.awayPts
    ensures AwaySide(g).win == 1 <==> g.homePts <= g.awayPts
    ensures HomeSide(g).win in {0, 1} && AwaySide(g).win in {0, 1}
    ensures HomeSide(g).seasonYear == AwaySide(g).seasonYear == SeasonYear(g.date)
    ensures HomeSide(g).team == AwaySide(g).opponent && AwaySide(g).team == HomeSide(g).opponent
    ensures HomeSide(g).location == Home && AwaySide(g).location == Away
  {
  }

  /** `pd.concat([home_df, away_df])`. */
  function Melt(games: seq<RawGame>): (r: seq<TeamRow>)
    ensures |r| == 2 * |games|
    ensures forall i :: 0 <= i < |games| ==> r[i] == HomeSide(games[i]) && r[|games| + i] == AwaySide(games[i])
  {
    var n := |games|;
    seq(2 * n, k requires 0 <= k < 2 * n => if k < n then HomeSide(games[k]) else AwaySide(games[k - n]))
  }

  function TeamDateOrder(t: TeamRow): Key
  {
    [StrKey(t.team), DateKey(t.date)]
  }

  function TeamFrame(games: seq<RawGame>): seq<TeamRow>
  {
    SortBy(Melt(games), TeamDateOrder)
  }

  // ---------------------------------------------------------------------
  // Columns of a frame
  // ---------------------------------------------------------------------

  function SeasonTeam(t: TeamRow): (int, string)
  {
    (t.seasonYear, t.team)
  }

  function Keys(rows: seq<TeamRow>): (r: seq<(int, string)>)
    ensures |r| == |rows| && forall i :: 0 <= i < |rows| ==> r[i] == SeasonTeam(rows[i])
  {
    seq(|rows|, i requires 0 <= i < |rows| => SeasonTeam(rows[i]))
  }

  function Wins(rows: seq<TeamRow>): (r: seq<real>)
    ensures |r| == |rows| && forall i :: 0 <= i < |rows| ==> r[i] == rows[i].win as real
  {
    seq(|rows|, i requires 0 <= i < |rows| => rows[i].win as real)
  }

  function Margins(rows: seq<TeamRow>): (r: seq<real>)
    ensures |r| == |rows| && forall i :: 0 <= i < |rows| ==> r[i] == rows[i].margin as real
  {
    seq(|rows|, i requires 0 <= i < |rows| => rows[i].margin as real)
  }

  /** `np.where(location == loc, win, 0)`. */
  function WinsAt(rows: seq<TeamRow>, loc: Location): (r: seq<real>)
    ensures |r| == |rows| && forall i :: 0 <= i < |rows| ==> r[i] == if rows[i].location == loc then rows[i].win as real else 0.0
  {
    seq(|rows|, i requires 0 <= i < |rows| => if rows[i].location == loc then rows[i].win as real else 0.0)
  }

  /** `np.where(location == loc, 1, 0)`. */
  function GamesAt(rows: seq<TeamRow>, loc: Location): (r: seq<real>)
    ensures |r| == |rows| && forall i :: 0 <= i < |rows| ==> r[i] == if rows[i].location == loc then 1.0 else 0.0
  {
    seq(|rows|, i requires 0 <= i < |rows| => if rows[i].location == loc then 1.0 else 0.0)
  }

  function Results(rows: seq<TeamRow>): (r: seq<bool>)
    ensures |r| == |rows| && forall i :: 0 <= i < |rows| ==> r[i] == (rows[i].win == 1)
  {
    seq(|rows|, i requires 0 <= i < |rows| => rows[i].win == 1)
  }

  function DayNumbers(rows: seq<TeamRow>): (r: seq<int>)
    ensures |r| == |rows| && forall i :: 0 <= i < |rows| ==> r[i] == DayNumber(rows[i].date)
  {
    seq(|rows|, i requires 0 <= i < |rows| => DayNumber(rows[i].date))
  }

  // ---------------------------------------------------------------------
  // Before-game features
  // ---------------------------------------------------------------------

  /** `win_cumsum.shift(1) / games_played.shift(1)` inside the group, NaN filled with 0. */
  function WinPct(rows: seq<TeamRow>, i: nat): real
    requires i < |rows|
  {
    ShiftedRatio(CumSumColumn(Wins(rows), Keys(rows)), CountColumn(Keys(rows)), Keys(rows), i)
  }

  function AvgMargin(rows: seq<TeamRow>, i: nat): real
    requires i < |rows|
  {
    ShiftedRatio(CumSumColumn(Margins(rows), Keys(rows)), CountColumn(Keys(rows)), Keys(rows), i)
  }

  /** `games_played.shift(1).fillna(0)` inside the group. */
  function TotalGames(rows: seq<TeamRow>, i: nat): real
    requires i < |rows|
  {
    OrElse(GroupShift(CountColumn(Keys(rows)), Keys(rows), i), 0.0)
  }

  /**
   * Win percentage, average margin and games played before the game use
   * only the earlier rows of the row's own (season, team) group, and are 0
   * at the group's first game.
   */
  lemma CumulativeFeaturesArePrior(rows: seq<TeamRow>, i: nat)
    requires i < |rows|
    ensures WinPct(rows, i) == OrElse(PriorMean(Wins(rows), Keys(rows), i), 0.0)
    ensures AvgMargin(rows, i) == OrElse(PriorMean(Margins(rows), Keys(rows), i), 0.0)
    ensures TotalGames(rows, i) == PriorCount(Keys(rows), i) as real
    ensures PriorCount(Keys(rows), i) == 0 ==> WinPct(rows, i) == 0.0 && AvgMargin(rows, i) == 0.0
  {
    ShiftedRatioIsPriorMean(Wins(rows), Keys(rows), i);
    ShiftedRatioIsPriorMean(Margins(rows), Keys(rows), i);
    ShiftedCountIsPriorCount(Keys(rows), i);
  }

  /** Location-split win percentage (`Before_Home_Win_Pct`, `Before_Away_Win_Pct`). */
  function LocationWinPct(rows: seq<TeamRow>, loc: Location, i: nat, b: Build): real
    requires i < |rows|
  {
    match b
    case AsWritten => FrameShiftedRatio(WinsAt(rows, loc), GamesAt(rows, loc), Keys(rows), i)
    case Intended => PriorRatio(WinsAt(rows, loc), GamesAt(rows, loc), Keys(rows), i)
  }

  /** The intended split win percentage: wins over games at that location among the group's earlier rows. */
  lemma LocationWinPctIntended(rows: seq<TeamRow>, loc: Location, i: nat)
    requires i < |rows|
    ensures var games := Sum(Prior(GamesAt(rows, loc), Keys(rows), i));
      LocationWinPct(rows, loc, i, Intended) ==
        if games == 0.0 then 0.0 else Sum(Prior(WinsAt(rows, loc), Keys(rows), i)) / games
    ensures PriorCount(Keys(rows), i) == 0 ==> LocationWinPct(rows, loc, i, Intended) == 0.0
  {
    if PriorCount(Keys(rows), i) == 0 {
      PriorRatioFirstRow(WinsAt(rows, loc), GamesAt(rows, loc), Keys(rows), i);
    }
  }

  /** After a group's first game the code as written gives the intended value. */
  lemma LocationWinPctInsideGroup(rows: seq<TeamRow>, loc: Location, i: nat)
    requires 0 < i < |rows| && SeasonTeam(rows[i - 1]) == SeasonTeam(rows[i])
    ensures LocationWinPct(rows, loc, i, AsWritten) == LocationWinPct(rows, loc, i, Intended)
  {
    FrameShiftedRatioInsideGroup(WinsAt(rows, loc), GamesAt(rows, loc), Keys(rows), i);
  }

  /**
   * As written, a team's first game of a season inherits the home record of
   * the team sorted just before it: a Boston home win followed by a Lakers
   * home game gives the Lakers a home win percentage of 1 before they have
   * played.
   */
  lemma LocationWinPctLeaksAcrossGroups()
    ensures var rows := [TeamRow("g1", Date(2025, 11, 1), 2026, "BOS", "NYK", 110, 100, 1, 10, None, Home),
                         TeamRow("g2", Date(2025, 11, 2), 2026, "LAL", "NYK", 100, 90, 1, 10, None, Home)];
      LocationWinPct(rows, Home, 1, AsWritten) == 1.0 && LocationWinPct(rows, Home, 1, Intended) == 0.0
  {
    var rows := [TeamRow("g1", Date(2025, 11, 1), 2026, "BOS", "NYK", 110, 100, 1, 10, None, Home),
                 TeamRow("g2", Date(2025, 11, 2), 2026, "LAL", "NYK", 100, 90, 1, 10, None, Home)];
    var keys := Keys(rows);
    var wins, games := WinsAt(rows, Home), GamesAt(rows, Home);
    assert keys[0] != keys[1];
    assert GroupValuesBefore(wins, keys, keys[0], 0) == [];
    assert Prior(wins, keys, 0) == [] && Prior(games, keys, 0) == [];
    assert GroupCumSum(wins, keys, 0) == 1.0 && GroupCumSum(games, keys, 0) == 1.0;
    assert GroupValuesBefore(games, keys, keys[1], 1) == [];
    assert Prior(games, keys, 1) == [];
  }

  /** A last-w window of the group-shifted column. */
  function Window<K(==)>(vals: seq<real>, keys: seq<K>, w: nat, i: nat, b: Build): Option<real>
    requires |vals| == |keys| && w >= 1 && i < |keys|
  {
    match b
    case AsWritten => WindowAsWritten(vals, keys, w, i)
    case Intended => WindowGrouped(vals, keys, w, i)
  }

  /**
   * A row's own result never enters its window; deep enough in a
   * (contiguous) group the frame-wide window is the group's own last w
   * results; the default applies only when every entry of the window is
   * missing.
   */
  lemma WindowProperties<K>(vals: seq<real>, keys: seq<K>, w: nat, i: nat)
    requires |vals| == |keys| && w >= 1 && i < |keys|
    ensures Contiguous(keys) && PriorCount(keys, i) >= w ==>
      Window(vals, keys, w, i, AsWritten) == Window(vals, keys, w, i, Intended) == Mean(vals[i - w..i])
    ensures Window(vals, keys, w, i, AsWritten).None? <==>
      forall k :: WindowStart(i, w) <= k <= i ==> ShiftedColumn(vals, keys)[k].None?
    ensures Window(vals, keys, w, i, Intended).None? <==> PriorCount(keys, i) == 0
  {
    if Contiguous(keys) && PriorCount(keys, i) >= w {
      WindowAsWrittenDeepInGroup(vals, keys, w, i);
    }
    var col := ShiftedColumn(vals, keys);
    if forall k :: WindowStart(i, w) <= k <= i ==> col[k].None? {
      RollingMeanMissing(col, w, i);
    } else {
      var k :| WindowStart(i, w) <= k <= i && col[k].Some?;
      RollingMeanPresent(col, w, i, k);
    }
  }

  /**
   * As written, the window of a team's first game reaches back into the
   * previous group: after a Boston win the Lakers' opener sees a last-5
   * win percentage of 1 instead of the default.
   */
  lemma WindowLeaksAcrossGroups()
    ensures var keys := [(2026, "BOS"), (2026, "BOS"), (2026, "LAL")];
      var vals := [1.0, 1.0, 0.0];
      Window(vals, keys, 5, 2, AsWritten) == Some(1.0) && Window(vals, keys, 5, 2, Intended) == None
  {
    var keys := [(2026, "BOS"), (2026, "BOS"), (2026, "LAL")];
    var vals := [1.0, 1.0, 0.0];
    var col := ShiftedColumn(vals, keys);
    assert GroupPrev(keys, 0) == None;
    assert GroupPrev(keys, 1) == Some(0);
    assert GroupPrev(keys, 2) == None;
    assert col == [None, Some(1.0), None];
    assert col[0..3] == col;
    assert col[..2] == [None, Some(1.0)] && col[..2][..1] == [None] && col[..2][..1][..0] == [];
    assert PresentValues(col[..2][..1]) == [];
    assert PresentValues(col[..2]) == [1.0];
    assert PresentValues(col) == [1.0];
    GroupValuesBeforeLength(vals, keys, keys, keys[2], 2);
    assert GroupValuesBefore(keys, keys, keys[2], 2) == [];
  }

  /** `Before_Game_Streak`: the streak over the group's earlier results. */
  function BeforeStreak(rows: seq<TeamRow>, i: nat): int
    requires i < |rows|
  {
    StreakAfter(Prior(Results(rows), Keys(rows), i))
  }

  /**
   * `calculate_streak` applied to the group's series of results writes this
   * value at the row's position in the group.
   */
  lemma BeforeStreakIsGroupStreak(rows: seq<TeamRow>, i: nat)
    requires i < |rows|
    ensures var s := GroupValuesBefore(Results(rows), Keys(rows), Keys(rows)[i], |rows|);
      PriorCount(Keys(rows), i) < |s| && StreakSeries(s)[PriorCount(Keys(rows), i)] == BeforeStreak(rows, i)
    ensures PriorCount(Keys(rows), i) == 0 ==> BeforeStreak(rows, i) == 0
  {
    GroupSeriesAt(Results(rows), Keys(rows), i);
    GroupValuesBeforeLength(Results(rows), Keys(rows), Keys(rows), Keys(rows)[i], i);
  }

  /** `Days_Since_Last_Game`: the gap to the group's previous game, 7 at its first. */
  function DaysSinceLastGame(rows: seq<TeamRow>, i: nat): (d: int)
    requires i < |rows|
    ensures match GroupPrev(Keys(rows), i)
      case Some(j) => d == DayNumber(rows[i].date) - DayNumber(rows[j].date)
      case None => d == 7
  {
    match GroupShift(DayNumbers(rows), Keys(rows), i)
    case Some(prev) => DayNumber(rows[i].date) - prev
    case None => 7
  }

  function Base(rows: seq<TeamRow>, i: nat, b: Build): BaseFeatures
    requires i < |rows|
  {
    BaseFeatures(WinPct(rows, i), LocationWinPct(rows, Home, i, b), LocationWinPct(rows, Away, i, b),
                 AvgMargin(rows, i), BeforeStreak(rows, i),
                 OrElse(Window(Wins(rows), Keys(rows), 5, i, b), 0.0),
                 OrElse(Window(Wins(rows), Keys(rows), 10, i, b), 0.0),
                 OrElse(Window(Margins(rows), Keys(rows), 5, i, b), 0.0),
                 DaysSinceLastGame(rows, i), TotalGames(rows, i))
  }

  /** The (team, date) frame with the features computed on it. */
  function Framed(rows: seq<TeamRow>, b: Build): (r: seq<FramedRow>)
    ensures |r| == |rows| && forall i :: 0 <= i < |rows| ==> r[i] == FramedRow(rows[i], Base(rows, i, b))
  {
    seq(|rows|, i requires 0 <= i < |rows| => FramedRow(rows[i], Base(rows, i, b)))
  }

  // ---------------------------------------------------------------------
  // The streak loop
  // ---------------------------------------------------------------------

  /** `calculate_streak`: each game receives the streak before it, then the streak advances. */
  method CalculateStreak(series: seq<bool>) returns (streaks: seq<int>)
    ensures streaks == StreakSeries(series)
  {
    streaks := [];
    var current := 0;
    for i := 0 to |series|
      invariant |streaks| == i
      invariant current == StreakAfter(series[..i])
      invariant forall j :: 0 <= j < i ==> streaks[j] == StreakAfter(series[..j])
    {
      streaks := streaks + [current];
      if series[i] {
        current := if current > 0 then current + 1 else 1;
      } else {
        current := if current < 0 then current - 1 else -1;
      }
      assert series[..i + 1][..i] == series[..i];
    }
  }

  // ---------------------------------------------------------------------
  // Head-to-head windows
  // ---------------------------------------------------------------------

  function TeamOpponentOrder(x: FramedRow): Key
  {
    [StrKey(x.row.team), StrKey(x.row.opponent), DateKey(x.row.date)]
  }

  function Matchup(x: FramedRow): (string, string)
  {
    (x.row.team, x.row.opponent)
  }

  function MatchupKeys(rows: seq<FramedRow>): (r: seq<(string, string)>)
    ensures |r| == |rows| && forall i :: 0 <= i < |rows| ==> r[i] == Matchup(rows[i])
  {
    seq(|rows|, i requires 0 <= i < |rows| => Matchup(rows[i]))
  }

  function MatchupWins(rows: seq<FramedRow>): (r: seq<real>)
    ensures |r| == |rows| && forall i :: 0 <= i < |rows| ==> r[i] == rows[i].row.win as real
  {
    seq(|rows|, i requires 0 <= i < |rows| => rows[i].row.win as real)
  }

  function MatchupMargins(rows: seq<FramedRow>): (r: seq<real>)
    ensures |r| == |rows| && forall i :: 0 <= i < |rows| ==> r[i] == rows[i].row.margin as real
  {
    seq(|rows|, i requires 0 <= i < |rows| => rows[i].row.margin as real)
  }

  /** `Before_Game_H2H_Win_Pct_L5`: 0.5 when no earlier meeting is in the window. */
  function H2hWinPct(rows: seq<FramedRow>, i: nat, b: Build): real
    requires i < |rows|
  {
    OrElse(Window(MatchupWins(rows), MatchupKeys(rows), 5, i, b), 0.5)
  }

  /** `Before_Game_H2H_Avg_Margin_L5`: 0 when no earlier meeting is in the window. */
  function H2hAvgMargin(rows: seq<FramedRow>, i: nat, b: Build): real
    requires i < |rows|
  {
    OrElse(Window(MatchupMargins(rows), MatchupKeys(rows), 5, i, b), 0.0)
  }
}
