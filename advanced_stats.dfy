/**
 * The team advanced-stats table: per-game possessions, pace, offensive,
 * defensive and net ratings, turnover rate and offensive-rebound share;
 * each game split into a Home row and an Away row; the rows sorted by
 * (team, date); and for every stat the expanding mean over the earlier
 * games of the same (season, team) group, 0 at the group's first game.
 */
module AdvancedStats {
  import opened Common
  import opened Dates
  import opened Ordering
  import opened Rolling

  /** One side's box-score totals. */
  datatype BoxLine = BoxLine(pts: real, fga: real, fta: real, orb: real, drb: real, tov: real)

  /** One row of the raw game file. */
  datatype GameTotals = GameTotals(gameId: string, date: Date, homeTeam: string, awayTeam: string, home: BoxLine, away: BoxLine)

  /** The six per-game advanced stats of one side. */
  datatype StatLine = StatLine(pace: real, offRtg: real, defRtg: real, netRtg: real, tovRate: real, orbPct: real)

  /** One team's row of one game. */
  datatype TeamGame = TeamGame(gameId: string, date: Date, seasonYear: int, team: string, opponent: string, location: Location, stats: StatLine)

  /** A team row with its `Before_Game_Avg_*` columns. */
  datatype AdvancedRow = AdvancedRow(game: TeamGame, before: StatLine)

  datatype Stat = Pace | OffRtg | DefRtg | NetRtg | TovRate | OrbPct


  function Get(s: StatLine, which: Stat): real
  {
    match which
    case Pace => s.pace
    case OffRtg => s.offRtg
    case DefRtg => s.defRtg
    case NetRtg => s.netRtg
    case TovRate => s.tovRate
    case OrbPct => s.orbPct
  }

  // ---------------------------------------------------------------------
  // Per-game stats
  // ---------------------------------------------------------------------

  function Possessions(b: BoxLine): real
  {
    b.fga + 0.44 * b.fta - b.orb + b.tov
  }

  function GamePace(g: GameTotals): real
  {
    (Possessions(g.home) + Possessions(g.away)) / 2.0
  }

  /** A count per 100 possessions. */
  function Per100(x: real, pace: real): (r: real)
    requires pace > 0.0
    ensures r * pace == x * 100.0
  {
    x / pace * 100.0
  }

  /** Offensive-rebound share against the opponent's defensive rebounds; 0 where pandas gets 0/0. */
  function ReboundShare(orb: real, oppDrb: real): real
  {
    if orb + oppDrb == 0.0 then 0.0 else orb / (orb + oppDrb)
  }

  lemma ReboundShareRange(orb: real, oppDrb: real)
    requires orb >= 0.0 && oppDrb >= 0.0
    ensures 0.0 <= ReboundShare(orb, oppDrb) <= 1.0
    ensures orb + oppDrb == 0.0 ==> ReboundShare(orb, oppDrb) == 0.0
    ensures orb + oppDrb > 0.0 ==> ReboundShare(orb, oppDrb) * (orb + oppDrb) == orb
  {
  }

  function HomeStats(g: GameTotals): StatLine
    requires GamePace(g) > 0.0
  {
    var pace := GamePace(g);
    var off := Per100(g.home.pts, pace);
    var def := Per100(g.away.pts, pace);
    StatLine(pace, off, def, off - def, Per100(g.home.tov, pace), ReboundShare(g.home.orb, g.away.drb))
  }

  function AwayStats(g: GameTotals): StatLine
    requires GamePace(g) > 0.0
  {
    var pace := GamePace(g);
    var off := Per100(g.away.pts, pace);
    var def := Per100(g.home.pts, pace);
    StatLine(pace, off, def, off - def, Per100(g.away.tov, pace), ReboundShare(g.away.orb, g.home.drb))
  }

  /**
   * Both sides share the pace (the mean of their possessions); each side's
   * defensive rating is the other's offensive rating, so the net ratings
   * are opposite; ratings are points per 100 possessions.
   */
  lemma SidesMirror(g: GameTotals)
    requires GamePace(g) > 0.0
    ensures HomeStats(g).pace == AwayStats(g).pace == GamePace(g)
    ensures 2.0 * GamePace(g) == Possessions(g.home) + Possessions(g.away)
    ensures HomeStats(g).defRtg == AwayStats(g).offRtg && AwayStats(g).defRtg == HomeStats(g).offRtg
    ensures HomeStats(g).netRtg == -AwayStats(g).netRtg
    ensures HomeStats(g).offRtg * GamePace(g) == g.home.pts * 100.0
    ensures AwayStats(g).offRtg * GamePace(g) == g.away.pts * 100.0
  {
  }

  // ---------------------------------------------------------------------
  // Home / Away rows
  // ---------------------------------------------------------------------

  function HomeRow(g: GameTotals): TeamGame
    requires GamePace(g) > 0.0
  {
    TeamGame(g.gameId, g.date, SeasonYear(g.date), g.homeTeam, g.awayTeam, Home, HomeStats(g))
  }

  function AwayRow(g: GameTotals): TeamGame
    requires GamePace(g) > 0.0
  {
    TeamGame(g.gameId, g.date, SeasonYear(g.date), g.awayTeam, g.homeTeam, Away, AwayStats(g))
  }

  ghost predicate AllPaced(games: seq<GameTotals>)
  {
    forall i :: 0 <= i < |games| ==> GamePace(games[i]) > 0.0
  }

  /** `pd.concat([home_df, away_df])`: every game's Home row, then every game's Away row. */
  function Melt(games: seq<GameTotals>): (r: seq<TeamGame>)
    requires AllPaced(games)
    ensures |r| == 2 * |games|
    ensures forall i :: 0 <= i < |games| ==> r[i] == HomeRow(games[i]) && r[|games| + i] == AwayRow(games[i])
  {
    var n := |games|;
    seq(2 * n, k requires 0 <= k < 2 * n => if k < n then HomeRow(games[k]) else AwayRow(games[k - n]))
  }

  function TeamDateOrder(t: TeamGame): Key
  {
    [StrKey(t.team), DateKey(t.date)]
  }

  function TeamGames(games: seq<GameTotals>): seq<TeamGame>
    requires AllPaced(games)
  {
    SortBy(Melt(games), TeamDateOrder)
  }

  /**
   * Each game gives exactly its Home row and its Away row: the sorted
   * table is a reordering of them, home team on the Home row, away team on
   * the Away row, with the game's season.
   */
  lemma TwoRowsPerGame(games: seq<GameTotals>)
    requires AllPaced(games)
    ensures multiset(TeamGames(games)) == multiset(Melt(games))
    ensures |TeamGames(games)| == 2 * |games|
    ensures forall i :: 0 <= i < |games| ==>
      HomeRow(games[i]) in TeamGames(games) && AwayRow(games[i]) in TeamGames(games)
    ensures forall t :: t in TeamGames(games) ==> exists i :: 0 <= i < |games| && (t == HomeRow(games[i]) || t == AwayRow(games[i]))
  {
    var m := Melt(games);
    var rows := TeamGames(games);
    forall i | 0 <= i < |games| ensures HomeRow(games[i]) in rows && AwayRow(games[i]) in rows {
      assert m[i] in multiset(m) && m[|games| + i] in multiset(m);
    }
    forall t | t in rows ensures exists i :: 0 <= i < |games| && (t == HomeRow(games[i]) || t == AwayRow(games[i])) {
      assert t in multiset(m);
      var k :| 0 <= k < |m| && m[k] == t;
      if k < |games| {
        assert t == HomeRow(games[k]);
      } else {
        assert t == AwayRow(games[k - |games|]);
      }
    }
  }

  lemma HomeAwayRows(g: GameTotals)
    requires GamePace(g) > 0.0
    ensures HomeRow(g).location == Home && HomeRow(g).team == g.homeTeam && HomeRow(g).opponent == g.awayTeam
    ensures AwayRow(g).location == Away && AwayRow(g).team == g.awayTeam && AwayRow(g).opponent == g.homeTeam
    ensures HomeRow(g).gameId == AwayRow(g).gameId == g.gameId
    ensures HomeRow(g).seasonYear == AwayRow(g).seasonYear == SeasonYear(g.date)
    ensures HomeRow(g).stats.netRtg == -AwayRow(g).stats.netRtg
  {
    SidesMirror(g);
  }

  // ---------------------------------------------------------------------
  // Before-game averages
  // ---------------------------------------------------------------------

  function SeasonTeam(t: TeamGame): (int, string)
  {
    (t.seasonYear, t.team)
  }

  function Keys(rows: seq<TeamGame>): (r: seq<(int, string)>)
    ensures |r| == |rows| && forall i :: 0 <= i < |rows| ==> r[i] == SeasonTeam(rows[i])
  {
    seq(|rows|, i requires 0 <= i < |rows| => SeasonTeam(rows[i]))
  }

  function Column(rows: seq<TeamGame>, which: Stat): (r: seq<real>)
    ensures |r| == |rows| && forall i :: 0 <= i < |rows| ==> r[i] == Get(rows[i].stats, which)
  {
    seq(|rows|, i requires 0 <= i < |rows| => Get(rows[i].stats, which))
  }

  /** `expanding().mean().shift(1)` within the group, then `fillna(0)`. */
  function BeforeAvg(rows: seq<TeamGame>, which: Stat, i: nat): real
    requires i < |rows|
  {
    OrElse(PriorMean(Column(rows, which), Keys(rows), i), 0.0)
  }

  function BeforeLine(rows: seq<TeamGame>, i: nat): StatLine
    requires i < |rows|
  {
    StatLine(BeforeAvg(rows, Pace, i), BeforeAvg(rows, OffRtg, i), BeforeAvg(rows, DefRtg, i),
             BeforeAvg(rows, NetRtg, i), BeforeAvg(rows, TovRate, i), BeforeAvg(rows, OrbPct, i))
  }

  /** The saved table of `update_team_advanced_stats_v53`. */
  function AdvancedTable(games: seq<GameTotals>): (r: seq<AdvancedRow>)
    requires AllPaced(games)
    ensures |r| == |TeamGames(games)|
  {
    var rows := TeamGames(games);
    seq(|rows|, i requires 0 <= i < |rows| => AdvancedRow(rows[i], BeforeLine(rows, i)))
  }

  /**
   * A before-game average is 0 at a group's first game and otherwise the
   * mean of that stat over the group's earlier games, never the current one.
   */
  lemma BeforeAvgIsPriorMean(rows: seq<TeamGame>, which: Stat, i: nat)
    requires i < |rows|
    ensures PriorCount(Keys(rows), i) == 0 ==> BeforeAvg(rows, which, i) == 0.0
    ensures PriorCount(Keys(rows), i) > 0 ==>
      BeforeAvg(rows, which, i) * (PriorCount(Keys(rows), i) as real) == Sum(Prior(Column(rows, which), Keys(rows), i))
  {
  }

  /** The before-game averages of a row depend only on the rows before it. */
  lemma BeforeLineNoLookahead(rows: seq<TeamGame>, rows': seq<TeamGame>, i: nat)
    requires i < |rows| && i < |rows'| && rows[..i + 1] == rows'[..i + 1]
    ensures BeforeLine(rows, i) == BeforeLine(rows', i)
  {
    forall which: Stat ensures BeforeAvg(rows, which, i) == BeforeAvg(rows', which, i) {
      var vals, vals' := Column(rows, which), Column(rows', which);
      var keys, keys' := Keys(rows), Keys(rows');
      assert keys[..i + 1] == keys'[..i + 1] by {
        forall j | 0 <= j <= i ensures keys[j] == keys'[j] {
          assert rows[..i + 1][j] == rows'[..i + 1][j];
        }
      }
      assert vals[..i] == vals'[..i] by {
        forall j | 0 <= j < i ensures vals[j] == vals'[j] {
          assert rows[..i + 1][j] == rows'[..i + 1][j];
        }
      }
      assert keys[i] == keys'[i] by { assert keys[..i + 1][i] == keys'[..i + 1][i]; }
      GroupValuesBeforePrefix(vals, keys, vals', keys', keys[i], i);
    }
  }

  /** The same rows before n give the same group values before n. */
  lemma {:induction false} GroupValuesBeforePrefix<K>(vals: seq<real>, keys: seq<K>, vals': seq<real>, keys': seq<K>, k: K, n: nat)
    requires |vals| == |keys| && |vals'| == |keys'| && n <= |keys| && n <= |keys'|
    requires vals[..n] == vals'[..n] && keys[..n] == keys'[..n]
    ensures GroupValuesBefore(vals, keys, k, n) == GroupValuesBefore(vals', keys', k, n)
  {
    if n > 0 {
      assert vals[n - 1] == vals'[n - 1] by { assert vals[..n][n - 1] == vals'[..n][n - 1]; }
      assert keys[n - 1] == keys'[n - 1] by { assert keys[..n][n - 1] == keys'[..n][n - 1]; }
      assert vals[..n - 1] == vals'[..n - 1] by {
        assert vals[..n - 1] == vals[..n][..n - 1];
        assert vals'[..n - 1] == vals'[..n][..n - 1];
      }
      assert keys[..n - 1] == keys'[..n - 1] by {
        assert keys[..n - 1] == keys[..n][..n - 1];
        assert keys'[..n - 1] == keys'[..n][..n - 1];
      }
      GroupValuesBeforePrefix(vals, keys, vals', keys', k, n - 1);
    }
  }

  // ---------------------------------------------------------------------
  // The group loop
  // ---------------------------------------------------------------------

  /** Running (sum, count) of a group so far; (0, 0) for a group not yet seen. */
  function Tally<K>(acc: map<K, (real, nat)>, k: K): (real, nat)
  {
    if k in acc then acc[k] else (0.0, 0)
  }

  /**
   * One pass over the frame keeping each group's running sum and count:
   * every row receives the mean of its group's earlier values, or 0.
   */
  method BeforeGameAverage<K(==)>(vals: seq<real>, keys: seq<K>) returns (avg: seq<real>)
    requires |vals| == |keys|
    ensures |avg| == |vals|
    ensures forall i :: 0 <= i < |vals| ==> avg[i] == OrElse(PriorMean(vals, keys, i), 0.0)
  {
    var acc: map<K, (real, nat)> := map[];
    avg := [];
    for i := 0 to |vals|
      invariant |avg| == i
      invariant forall j :: 0 <= j < i ==> avg[j] == OrElse(PriorMean(vals, keys, j), 0.0)
      invariant forall k :: Tally(acc, k) == (Sum(GroupValuesBefore(vals, keys, k, i)), |GroupValuesBefore(vals, keys, k, i)|)
    {
      var k := keys[i];
      var (s, c) := Tally(acc, k);
      assert GroupValuesBefore(vals, keys, k, i) == Prior(vals, keys, i);
      avg := avg + [if c == 0 then 0.0 else s / (c as real)];
      acc := acc[k := (s + vals[i], c + 1)];
      forall k' ensures Tally(acc, k') == (Sum(GroupValuesBefore(vals, keys, k', i + 1)), |GroupValuesBefore(vals, keys, k', i + 1)|) {
        var before := GroupValuesBefore(vals, keys, k', i);
        if k' == k {
          assert GroupValuesBefore(vals, keys, k', i + 1) == before + [vals[i]];
          assert (before + [vals[i]])[..|before|] == before;
        } else {
          assert GroupValuesBefore(vals, keys, k', i + 1) == before + [];
          assert before + [] == before;
        }
      }
    }
  }

  /** The six `Before_Game_Avg_*` columns of a sorted team table. */
  method BeforeLines(rows: seq<TeamGame>) returns (lines: seq<StatLine>)
    ensures |lines| == |rows|
    ensures forall i :: 0 <= i < |rows| ==> lines[i] == BeforeLine(rows, i)
  {
    var keys := Keys(rows);
    var pace := BeforeGameAverage(Column(rows, Pace), keys);
    var off := BeforeGameAverage(Column(rows, OffRtg), keys);
    var def := BeforeGameAverage(Column(rows, DefRtg), keys);
    var net := BeforeGameAverage(Column(rows, NetRtg), keys);
    var tov := BeforeGameAverage(Column(rows, TovRate), keys);
    var orb := BeforeGameAverage(Column(rows, OrbPct), keys);
    lines := [];
    for i := 0 to |rows|
      invariant |lines| == i
      invariant forall j :: 0 <= j < i ==> lines[j] == BeforeLine(rows, j)
    {
      lines := lines + [StatLine(pace[i], off[i], def[i], net[i], tov[i], orb[i])];
    }
  }

  /** `update_team_advanced_stats_v53`: the group loop run once per stat column. */
  method UpdateAdvancedStats(games: seq<GameTotals>) returns (table: seq<AdvancedRow>)
    requires AllPaced(games)
    ensures table == AdvancedTable(games)
  {
    var rows := TeamGames(games);
    var lines := BeforeLines(rows);
    table := seq(|rows|, i requires 0 <= i < |rows| => AdvancedRow(rows[i], lines[i]));
  }
}
