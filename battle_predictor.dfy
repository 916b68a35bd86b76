/**
 * The live predictor: for a target day it finds each team's most recent
 * stored game, reads that team's before-game features from the side of the
 * row it played on, advances the streak by that game's result, and builds
 * the home-minus-away feature vector; injury impact sums the season
 * averages of injured players.  The classifier is a parameter.
 */
module BattlePredictor {
  import opened Common
  import opened Dates
  import opened Ordering
  import opened Streaks
  import opened Rolling
  import opened BoxScore
  import opened GmscCrawler
  import opened FinalDataset

  // ---------------------------------------------------------------------
  // The schedule page (date labels, season, home/visitor pairs)
  // ---------------------------------------------------------------------

  const WeekdayNames: seq<string> := ["Mon", "Tue", "Wed", "Thu", "Fri", "Sat", "Sun"]
  const MonthNames: seq<string> := ["Jan", "Feb", "Mar", "Apr", "May", "Jun", "Jul", "Aug", "Sep", "Oct", "Nov", "Dec"]

  /** `date.weekday()`: Monday is 0; day 1 of the count (1 January of year 1) is a Monday. */
  function Weekday(d: Date): (w: nat)
    ensures w < 7
  {
    (DayNumber(d) + 6) % 7
  }

  lemma SevenStep(n: int)
    ensures (n + 1 + 6) % 7 == ((n + 6) % 7 + 1) % 7
  {
    var m := n + 6;
    var q, r := m / 7, m % 7;
    assert m == 7 * q + r;
    if r == 6 {
      assert m + 1 == 7 * (q + 1);
    } else {
      assert m + 1 == 7 * q + (r + 1);
    }
  }

  /** The next day is the next weekday. */
  lemma WeekdayNext(d: Date)
    requires ValidDate(d)
    ensures Weekday(NextDay(d)) == (Weekday(d) + 1) % 7
  {
    var n := DayNumber(d);
    assert DayNumber(NextDay(d)) == n + 1;
    SevenStep(n);
  }

  /** `str(n)`: the shortest decimal rendering. */
  function Decimal(v: nat): (s: string)
    ensures |s| >= 1 && AllDigits(s)
    ensures v < 10 ==> |s| == 1
    ensures v >= 10 ==> |s| >= 2
  {
    if v < 10 then [DigitChar(v)] else Decimal(v / 10) + [DigitChar(v % 10)]
  }

  /** `strftime("%a, %b %d, %Y")` and the variant with `str(day)` in place of `%d`. */
  function DateLabel(d: Date, padded: bool): string
    requires ValidDate(d)
  {
    WeekdayNames[Weekday(d)] + ", " + MonthNames[d.month - 1] + " " +
      (if padded then PadDigits(d.day, 2) else Decimal(d.day)) + ", " + Decimal(d.year)
  }

  /** From the 10th on the two labels are the same; before it they differ (the padded one has a leading 0). */
  lemma DateLabelsDiffer(d: Date)
    requires ValidDate(d)
    ensures d.day >= 10 ==> DateLabel(d, true) == DateLabel(d, false)
    ensures d.day < 10 ==> DateLabel(d, true) != DateLabel(d, false)
  {
    var head := WeekdayNames[Weekday(d)] + ", " + MonthNames[d.month - 1] + " ";
    var tail := ", " + Decimal(d.year);
    if d.day >= 10 {
      assert Decimal(d.day) == Decimal(d.day / 10) + [DigitChar(d.day % 10)];
      assert Decimal(d.day / 10) == [DigitChar(d.day / 10)];
      assert PadDigits(d.day / 10, 1) == [DigitChar(d.day / 10 % 10)];
    } else {
      assert |PadDigits(d.day, 2)| == 2 && |Decimal(d.day)| == 1;
      var p := head + PadDigits(d.day, 2) + tail;
      var u := head + Decimal(d.day) + tail;
      assert p[|head| + 2] == ',' && u[|head| + 2] == ' ';
    }
  }

  /** The schedule page's season: the year that ends the season the target day belongs to. */
  function ScheduleSeason(target: Date): (s: int)
    ensures s == (if target.month >= 10 then target.year + 1 else target.year)
  {
    SeasonYear(target)
  }

  datatype TeamCell = TeamCell(href: Option<string>)

  /** A schedule row: the stripped date text, and the visitor and home cells when present. */
  datatype ScheduleRow = ScheduleRow(dateText: Option<string>, visitor: Option<TeamCell>, home: Option<TeamCell>)

  function CellAbbr(c: Option<TeamCell>): Option<string>
  {
    if c.None? || c.value.href.None? then None else TeamFromHref(c.value.href.value)
  }

  predicate OnDay(r: ScheduleRow, target: Date)
    requires ValidDate(target)
  {
    r.dateText.Some? && (r.dateText.value == DateLabel(target, true) || r.dateText.value == DateLabel(target, false))
  }

  /** The (home, visitor) pair a row of the target day contributes, when both abbreviations are found. */
  function GamePair(r: ScheduleRow, target: Date): Option<(string, string)>
    requires ValidDate(target)
  {
    if OnDay(r, target) && CellAbbr(r.visitor).Some? && CellAbbr(r.home).Some? then
      Some((CellAbbr(r.home).value, CellAbbr(r.visitor).value))
    else None
  }

  /** The row loop of `get_schedule_for_date`. */
  method ScheduleGames(rows: seq<ScheduleRow>, target: Date) returns (games: seq<(string, string)>)
    requires ValidDate(target)
    ensures games == FilterMap(rows, r => GamePair(r, target))
  {
    games := [];
    for k := 0 to |rows|
      invariant games == FilterMap(rows[..k], r => GamePair(r, target))
    {
      assert rows[..k + 1][..k] == rows[..k];
      var row := rows[k];
      if OnDay(row, target) {
        var v, h := CellAbbr(row.visitor), CellAbbr(row.home);
        if v.Some? && h.Some? {
          games := games + [(h.value, v.value)];
        }
      }
    }
    assert rows[..|rows|] == rows;
  }

  ghost predicate ListsGame(rows: seq<ScheduleRow>, target: Date, home: string, away: string)
    requires ValidDate(target)
  {
    exists i :: 0 <= i < |rows| && OnDay(rows[i], target) && CellAbbr(rows[i].home) == Some(home) && CellAbbr(rows[i].visitor) == Some(away)
  }

  /** A pair is listed exactly when a row of the target day has a home and a visitor link with those team codes. */
  lemma ScheduleGamesPairs(rows: seq<ScheduleRow>, target: Date, home: string, away: string)
    requires ValidDate(target)
    ensures (home, away) in FilterMap(rows, r => GamePair(r, target)) <==> ListsGame(rows, target, home, away)
  {
    var f := r => GamePair(r, target);
    FilterMapContents(rows, f);
    if (home, away) in FilterMap(rows, f) {
      var i :| 0 <= i < |rows| && f(rows[i]) == Some((home, away));
      assert OnDay(rows[i], target) && CellAbbr(rows[i].home) == Some(home) && CellAbbr(rows[i].visitor) == Some(away);
    }
    if ListsGame(rows, target, home, away) {
      var i :| 0 <= i < |rows| && OnDay(rows[i], target) && CellAbbr(rows[i].home) == Some(home) && CellAbbr(rows[i].visitor) == Some(away);
      assert f(rows[i]) == Some((home, away));
    }
  }

  // ---------------------------------------------------------------------
  // Average GmSc of every player
  // ---------------------------------------------------------------------

  /** 2026 when the single-game file has any 2026 game, else 2025. */
  function GmscSeason(games: seq<GmscRecord>): (s: int)
    ensures s == 2026 <==> exists i :: 0 <= i < |games| && games[i].seasonYear == 2026
    ensures s == 2025 || s == 2026
  {
    if exists i :: 0 <= i < |games| && games[i].seasonYear == 2026 then 2026 else 2025
  }

  function InSeason(s: int, g: GmscRecord): Option<GmscRecord>
  {
    if g.seasonYear == s then Some(g) else None
  }

  function Ids(rows: seq<GmscRecord>): (r: seq<string>)
    ensures |r| == |rows| && forall i :: 0 <= i < |rows| ==> r[i] == rows[i].playerId
  {
    seq(|rows|, i requires 0 <= i < |rows| => rows[i].playerId)
  }

  function Scores(rows: seq<GmscRecord>): (r: seq<real>)
    ensures |r| == |rows| && forall i :: 0 <= i < |rows| ==> r[i] == rows[i].gmsc
  {
    seq(|rows|, i requires 0 <= i < |rows| => rows[i].gmsc)
  }

  function SeasonGames(games: seq<GmscRecord>): seq<GmscRecord>
  {
    var s := GmscSeason(games);
    FilterMap(games, g => InSeason(s, g))
  }

  /**
   * `get_player_gmsc_dict`: the per-player mean GmSc of one season of the
   * single-game file; nothing without the cumulative file or the
   * single-game file.
   */
  function GmscMap(cumulativeExists: bool, singleGame: Option<seq<GmscRecord>>): map<string, real>
  {
    if !cumulativeExists || singleGame.None? then map[]
    else
      var rows := SeasonGames(singleGame.value);
      GroupMeans(Scores(rows), Ids(rows))
  }

  /** A player has an entry exactly when they have a game in the chosen season; the entry is its mean. */
  lemma GmscMapEntries(games: seq<GmscRecord>, id: string)
    ensures id in GmscMap(true, Some(games)) <==>
      exists i :: 0 <= i < |games| && games[i].seasonYear == GmscSeason(games) && games[i].playerId == id
    ensures id in GmscMap(true, Some(games)) ==>
      var rows := SeasonGames(games);
      Mean(GroupValuesBefore(Scores(rows), Ids(rows), id, |rows|)).Some? &&
      GmscMap(true, Some(games))[id] == Mean(GroupValuesBefore(Scores(rows), Ids(rows), id, |rows|)).value
  {
    var s := GmscSeason(games);
    var rows := SeasonGames(games);
    GroupMeansEntries(Scores(rows), Ids(rows), id);
    FilterMapContents(games, g => InSeason(s, g));
    if exists i :: 0 <= i < |games| && games[i].seasonYear == s && games[i].playerId == id {
      var i :| 0 <= i < |games| && games[i].seasonYear == s && games[i].playerId == id;
      assert InSeason(s, games[i]) == Some(games[i]);
      assert games[i] in rows;
      var j :| 0 <= j < |rows| && rows[j] == games[i];
      assert Ids(rows)[j] == id;
    }
    if exists j :: 0 <= j < |rows| && Ids(rows)[j] == id {
      var j :| 0 <= j < |rows| && Ids(rows)[j] == id;
      assert rows[j] in rows;
      var i :| 0 <= i < |games| && InSeason(s, games[i]) == Some(rows[j]);
    }
  }

  // ---------------------------------------------------------------------
  // Injury impact
  // ---------------------------------------------------------------------

  /** One row of the current-injuries table. */
  datatype Injury = Injury(team: string, playerId: Option<string>, playerName: string)

  /** `injuries_df[injuries_df['Team_Abbr'] == team]`. */
  function TeamInjuries(injuries: seq<Injury>, team: string): (r: seq<Injury>)
    ensures forall x :: x in r ==> x in injuries && x.team == team
    ensures |r| == 0 <==> forall k :: 0 <= k < |injuries| ==> injuries[k].team != team
  {
    if |injuries| == 0 then []
    else
      var init, last := injuries[..|injuries| - 1], injuries[|injuries| - 1];
      assert forall k :: 0 <= k < |init| ==> init[k] == injuries[k];
      TeamInjuries(init, team) + (if last.team == team then [last] else [])
  }

  /** What one injured player adds: a known, positive average; anything else nothing. */
  function LiveContribution(x: Injury, avg: map<string, real>): (c: real)
    ensures c >= 0.0
    ensures c > 0.0 <==> x.playerId.Some? && x.playerId.value in avg && avg[x.playerId.value] > 0.0
  {
    if x.playerId.Some? && x.playerId.value in avg && avg[x.playerId.value] > 0.0 then avg[x.playerId.value] else 0.0
  }

  function LiveMissing(rows: seq<Injury>, avg: map<string, real>): real
  {
    if |rows| == 0 then 0.0 else LiveMissing(rows[..|rows| - 1], avg) + LiveContribution(rows[|rows| - 1], avg)
  }

  /** `calculate_team_injury_impact` of the predictor. */
  function LiveInjuryImpact(injuries: seq<Injury>, team: string, avg: map<string, real>): real
  {
    LiveMissing(TeamInjuries(injuries, team), avg) / TeamAvgGmsc
  }

  method CalculateTeamInjuryImpact(injuries: seq<Injury>, team: string, avg: map<string, real>) returns (impact: real)
    ensures impact == LiveInjuryImpact(injuries, team, avg)
  {
    var rows := TeamInjuries(injuries, team);
    if |rows| == 0 {
      return 0.0;
    }
    var sum := 0.0;
    for k := 0 to |rows|
      invariant sum == LiveMissing(rows[..k], avg)
    {
      assert rows[..k + 1][..k] == rows[..k];
      var x := rows[k];
      if x.playerId.Some? && x.playerId.value in avg {
        var g := avg[x.playerId.value];
        if g > 0.0 {
          sum := sum + g;
        }
      }
    }
    assert rows[..|rows|] == rows;
    impact := sum / TeamAvgGmsc;
  }

  /** The missing total is never negative, and is 0 when no injured player has a positive average. */
  lemma {:induction false} LiveMissingBounds(rows: seq<Injury>, avg: map<string, real>)
    ensures LiveMissing(rows, avg) >= 0.0
    ensures (forall k :: 0 <= k < |rows| ==> LiveContribution(rows[k], avg) == 0.0) ==> LiveMissing(rows, avg) == 0.0
  {
    if |rows| > 0 {
      LiveMissingBounds(rows[..|rows| - 1], avg);
    }
  }

  /** A team with no injured players has no impact; an impact is never negative. */
  lemma LiveInjuryImpactBounds(injuries: seq<Injury>, team: string, avg: map<string, real>)
    ensures LiveInjuryImpact(injuries, team, avg) >= 0.0
    ensures (forall k :: 0 <= k < |injuries| ==> injuries[k].team != team) ==> LiveInjuryImpact(injuries, team, avg) == 0.0
  {
    var rows := TeamInjuries(injuries, team);
    LiveMissingBounds(rows, avg);
  }

  // ---------------------------------------------------------------------
  // The latest stored game of a team
  // ---------------------------------------------------------------------

  /** A row of the final training table, as the predictor reads it: numeric columns by name. */
  datatype MasterRow = MasterRow(date: Date, team: string, opp: string, win: int, cols: map<string, real>)

  /** `row.get(column, default)`. */
  function Lookup(r: MasterRow, column: string, default: real): real
  {
    if column in r.cols then r.cols[column] else default
  }

  predicate Involves(r: MasterRow, team: string)
  {
    r.team == team || r.opp == team
  }

  function Candidate(team: string, target: Date, r: MasterRow): Option<MasterRow>
  {
    if Involves(r, team) && CalendarBefore(r.date, target) then Some(r) else None
  }

  function DateOrder(r: MasterRow): Key
  {
    [DateKey(r.date)]
  }

  /** The team's games strictly before the target day, in stored order. */
  function Candidates(rows: seq<MasterRow>, team: string, target: Date): seq<MasterRow>
  {
    FilterMap(rows, r => Candidate(team, target, r))
  }

  /** `team_games.sort_values('date_dt').iloc[-1]`, or nothing when the team has no earlier game. */
  function LastGameBefore(rows: seq<MasterRow>, team: string, target: Date): Option<MasterRow>
  {
    var games := SortBy(Candidates(rows, team, target), DateOrder);
    if |games| == 0 then None else Some(games[|games| - 1])
  }

  ghost predicate EarlierGameOf(r: MasterRow, team: string, target: Date)
  {
    Involves(r, team) && CalendarBefore(r.date, target)
  }

  lemma CandidatesContents(rows: seq<MasterRow>, team: string, target: Date, x: MasterRow)
    ensures x in Candidates(rows, team, target) <==> x in rows && EarlierGameOf(x, team, target)
  {
    var f := r => Candidate(team, target, r);
    FilterMapContents(rows, f);
    if x in rows && EarlierGameOf(x, team, target) {
      var i :| 0 <= i < |rows| && rows[i] == x;
      assert f(rows[i]) == Some(x);
    }
  }

  lemma RowOrderLatest(a: MasterRow, b: MasterRow)
    requires KeyLe(DateOrder(a), DateOrder(b))
    ensures !CalendarBefore(b.date, a.date)
  {
    if DateOrder(a) != DateOrder(b) {
      assert DateOrder(a)[1..] == [] && DateOrder(b)[1..] == [];
      assert SeqLess(DateKey(a.date), DateKey(b.date));
      DateKeyOrder(a.date, b.date);
    }
  }

  /** The last row of a date-sorted sequence has no later row. */
  lemma SortedLast(games: seq<MasterRow>, x: MasterRow)
    requires SortedBy(games, DateOrder) && x in games
    ensures !CalendarBefore(games[|games| - 1].date, x.date)
  {
    var g := games[|games| - 1];
    var j :| 0 <= j < |games| && games[j] == x;
    if j < |games| - 1 {
      assert KeyLe(DateOrder(games[j]), DateOrder(g));
    } else {
      assert DateOrder(g) == DateOrder(games[j]);
    }
    RowOrderLatest(games[j], g);
  }

  /**
   * The chosen row is a game of the team strictly before the target day,
   * and no such game is later; there is none exactly when the team has no
   * earlier game.
   */
  lemma LastGameBeforeSpec(rows: seq<MasterRow>, team: string, target: Date)
    ensures LastGameBefore(rows, team, target).None? <==> forall i :: 0 <= i < |rows| ==> !EarlierGameOf(rows[i], team, target)
    ensures LastGameBefore(rows, team, target).Some? ==>
      var g := LastGameBefore(rows, team, target).value;
      g in rows && EarlierGameOf(g, team, target) &&
      forall i :: 0 <= i < |rows| && EarlierGameOf(rows[i], team, target) ==> !CalendarBefore(g.date, rows[i].date)
  {
    var cands := Candidates(rows, team, target);
    var games := SortBy(cands, DateOrder);
    forall i | 0 <= i < |rows| && EarlierGameOf(rows[i], team, target) ensures rows[i] in games {
      CandidatesContents(rows, team, target, rows[i]);
      assert rows[i] in multiset(games);
    }
    if |games| > 0 {
      var g := games[|games| - 1];
      assert g in multiset(cands);
      CandidatesContents(rows, team, target, g);
      forall i | 0 <= i < |rows| && EarlierGameOf(rows[i], team, target) ensures !CalendarBefore(g.date, rows[i].date) {
        SortedLast(games, rows[i]);
      }
    }
  }

  // ---------------------------------------------------------------------
  // get_stats
  // ---------------------------------------------------------------------

  /** The eleven values `get_stats` collects for a team. */
  datatype TeamStats = TeamStats(winPctL5: real, winPctL10: real, marginL5: real, streak: real,
                                 csWinL5: real, csMarginL5: real, h2hWin: real, h2hMargin: real,
                                 netRtg: real, tov: real, orb: real)

  /** One more game on a stored streak value: the rule of the training table. */
  function AdvanceStreak(cur: real, win: bool): (next: real)
    ensures cur == cur.Floor as real ==> next == StreakStep(cur.Floor, win) as real
  {
    if win then (if cur > 0.0 then cur + 1.0 else 1.0)
    else (if cur < 0.0 then cur - 1.0 else -1.0)
  }

  /** A stored `Before_Game_Streak` after some results, advanced by the next result, is the streak after all of them. */
  lemma AdvanceStreakAfter(results: seq<bool>, win: bool)
    ensures AdvanceStreak(StreakAfter(results) as real, win) == StreakAfter(results + [win]) as real
  {
    assert (results + [win])[..|results|] == results;
  }

  /** The eleven values, by name. */
  datatype Stat = WinL5 | WinL10 | MarginL5 | StreakLen | CsWinL5 | CsMarginL5 | H2hWinPct | H2hMarginL5 | NetRtg | TovRate | OrbPct

  /** The column holding a stat: `Before_Game_…` on the team's own row, `Opp_Before_Game_…` on its opponent's (`CS_…`/`Opp_CS_…` for the current-season ones). */
  function StatColumn(own: bool, s: Stat): string
  {
    var p := if own then "Before_Game_" else "Opp_Before_Game_";
    var cs := if own then "" else "Opp_";
    match s
    case WinL5 => p + "Win_Pct_Last_5"
    case WinL10 => p + "Win_Pct_Last_10"
    case MarginL5 => p + "Avg_Margin_Last_5"
    case StreakLen => p + "Streak"
    case CsWinL5 => cs + "CS_Win_Pct_L5"
    case CsMarginL5 => cs + "CS_Avg_Margin_L5"
    case H2hWinPct => p + "H2H_Win_Pct_L5"
    case H2hMarginL5 => p + "H2H_Avg_Margin_L5"
    case NetRtg => p + "Avg_NetRtg"
    case TovRate => p + "Avg_TOV_Rate"
    case OrbPct => p + "Avg_ORB_Pct"
  }

  /** The `.get` default: 0.5 for the head-to-head win rate, 0 otherwise. */
  function StatDefault(s: Stat): real
  {
    if s == H2hWinPct then 0.5 else 0.0
  }

  function StatOf(t: TeamStats, s: Stat): real
  {
    match s
    case WinL5 => t.winPctL5
    case WinL10 => t.winPctL10
    case MarginL5 => t.marginL5
    case StreakLen => t.streak
    case CsWinL5 => t.csWinL5
    case CsMarginL5 => t.csMarginL5
    case H2hWinPct => t.h2hWin
    case H2hMarginL5 => t.h2hMargin
    case NetRtg => t.netRtg
    case TovRate => t.tov
    case OrbPct => t.orb
  }

  function Read(g: MasterRow, own: bool, s: Stat): real
  {
    Lookup(g, StatColumn(own, s), StatDefault(s))
  }

  function StatsFrom(g: MasterRow, team: string): TeamStats
  {
    var own := g.team == team;
    var isWin := if own then g.win == 1 else g.win == 0;
    TeamStats(Read(g, own, WinL5), Read(g, own, WinL10), Read(g, own, MarginL5),
              AdvanceStreak(Read(g, own, StreakLen), isWin),
              Read(g, own, CsWinL5), Read(g, own, CsMarginL5), Read(g, own, H2hWinPct), Read(g, own, H2hMarginL5),
              Read(g, own, NetRtg), Read(g, own, TovRate), Read(g, own, OrbPct))
  }

  /** `get_stats`: the stats and the date of the team's latest earlier game. */
  function GetStats(rows: seq<MasterRow>, team: string, target: Date): Option<(TeamStats, Date)>
  {
    match LastGameBefore(rows, team, target)
    case None => None
    case Some(g) => Some((StatsFrom(g, team), g.date))
  }

  function WithStreak(s: TeamStats, streak: real): TeamStats
  {
    s.(streak := streak)
  }

  /** The row stores `t` in the columns of one side. */
  ghost predicate Stores(g: MasterRow, own: bool, t: TeamStats)
  {
    forall s: Stat :: StatColumn(own, s) in g.cols && g.cols[StatColumn(own, s)] == StatOf(t, s)
  }

  /**
   * Whichever side of the stored row the team was on, `get_stats` reads
   * that team's own before-game values, with the streak advanced by the
   * team's result in that game (a win on its own row is `Win == 1`, on the
   * opponent's row `Win == 0`).
   */
  lemma StatsReadOwnSide(g: MasterRow, h: TeamStats, a: TeamStats)
    requires g.team != g.opp && Stores(g, true, h) && Stores(g, false, a)
    ensures StatsFrom(g, g.team) == WithStreak(h, AdvanceStreak(h.streak, g.win == 1))
    ensures StatsFrom(g, g.opp) == WithStreak(a, AdvanceStreak(a.streak, g.win == 0))
  {
    assert forall s :: Read(g, true, s) == StatOf(h, s);
    assert forall s :: Read(g, false, s) == StatOf(a, s);
  }

  /** A row without the columns gives the defaults: 0 everywhere, 0.5 for the head-to-head win rate, a fresh streak. */
  lemma StatsDefaults(g: MasterRow, team: string)
    requires g.cols == map[]
    ensures StatsFrom(g, team) ==
      TeamStats(0.0, 0.0, 0.0, if (g.team == team && g.win == 1) || (g.team != team && g.win == 0) then 1.0 else -1.0,
                0.0, 0.0, 0.5, 0.0, 0.0, 0.0, 0.0)
  {
  }

  // ---------------------------------------------------------------------
  // Features, prediction and the target day
  // ---------------------------------------------------------------------

  /** The position of a stat's difference in `FeatureColumns`; 0 is the rest gap and 9 the injury impact. */
  function FeatureIndex(s: Stat): (k: nat)
    ensures 0 < k < 13 && k != RestIndex && k != InjuryIndex
  {
    match s
    case StreakLen => 1
    case WinL5 => 2
    case MarginL5 => 3
    case WinL10 => 4
    case CsWinL5 => 5
    case CsMarginL5 => 6
    case H2hWinPct => 7
    case H2hMarginL5 => 8
    case NetRtg => 10
    case TovRate => 11
    case OrbPct => 12
  }

  const RestIndex: nat := 0
  const InjuryIndex: nat := 9

  /** Distinct stats sit at distinct positions, so the eleven stats and the two other features fill the thirteen. */
  lemma FeatureIndexInjective(s: Stat, t: Stat)
    ensures FeatureIndex(s) == FeatureIndex(t) ==> s == t
  {
  }

  /** The feature column of a stat's difference: `Diff_` and the training column it is read from. */
  function FeatureColumn(s: Stat): string
  {
    match s
    case StreakLen => "Diff_Before_Game_Streak"
    case WinL5 => "Diff_Before_Game_Win_Pct_Last_5"
    case MarginL5 => "Diff_Before_Game_Avg_Margin_Last_5"
    case WinL10 => "Diff_Before_Game_Win_Pct_Last_10"
    case CsWinL5 => "Diff_CS_Win_Pct_L5"
    case CsMarginL5 => "Diff_CS_Avg_Margin_L5"
    case H2hWinPct => "Diff_Before_Game_H2H_Win_Pct_L5"
    case H2hMarginL5 => "Diff_Before_Game_H2H_Avg_Margin_L5"
    case NetRtg => "Diff_Before_Game_Avg_NetRtg"
    case TovRate => "Diff_Before_Game_Avg_TOV_Rate"
    case OrbPct => "Diff_Before_Game_Avg_ORB_Pct"
  }

  /**
   * Each position of `FeatureColumns` names what the vector holds there:
   * the rest gap first, the injury gap tenth, and each stat's difference
   * at that stat's position.
   */
  lemma FeatureColumnsNamed(s: Stat)
    ensures FeatureColumns[RestIndex] == "Diff_Days_Since_Last_Game"
    ensures FeatureColumns[InjuryIndex] == "Diff_Total_Injury_Impact"
    ensures FeatureColumns[FeatureIndex(s)] == FeatureColumn(s)
  {
  }

  /**
   * The home-minus-away vector in the order of `feature_columns` (see
   * `FeatureColumnsNamed`): the entry at each stat's position is the home
   * value minus the away value of that stat, the first is the rest gap and
   * the tenth the injury gap.
   */
  function FeatureVector(h: TeamStats, hDate: Date, a: TeamStats, aDate: Date, target: Date, hInj: real, aInj: real): (v: seq<real>)
    ensures |v| == |FeatureColumns| == 13
    ensures v[RestIndex] == ((DayNumber(target) - DayNumber(hDate)) - (DayNumber(target) - DayNumber(aDate))) as real
    ensures v[InjuryIndex] == hInj - aInj
    ensures forall s: Stat :: v[FeatureIndex(s)] == StatOf(h, s) - StatOf(a, s)
  {
    [((DayNumber(target) - DayNumber(hDate)) - (DayNumber(target) - DayNumber(aDate))) as real,
     h.streak - a.streak, h.winPctL5 - a.winPctL5, h.marginL5 - a.marginL5, h.winPctL10 - a.winPctL10,
     h.csWinL5 - a.csWinL5, h.csMarginL5 - a.csMarginL5, h.h2hWin - a.h2hWin, h.h2hMargin - a.h2hMargin,
     hInj - aInj, h.netRtg - a.netRtg, h.tov - a.tov, h.orb - a.orb]
  }

  /**
   * The rest difference does not depend on the target day (it is the gap
   * between the two last games), and swapping home and away negates every
   * feature.
   */
  lemma FeatureVectorProperties(h: TeamStats, hDate: Date, a: TeamStats, aDate: Date, target: Date, target': Date, hInj: real, aInj: real)
    ensures FeatureVector(h, hDate, a, aDate, target, hInj, aInj)[0] == (DayNumber(aDate) - DayNumber(hDate)) as real
    ensures FeatureVector(h, hDate, a, aDate, target, hInj, aInj) == FeatureVector(h, hDate, a, aDate, target', hInj, aInj)
    ensures forall k :: 0 <= k < 13 ==>
      FeatureVector(a, aDate, h, hDate, target, aInj, hInj)[k] == -FeatureVector(h, hDate, a, aDate, target, hInj, aInj)[k]
  {
  }

  datatype Prediction = Prediction(home: string, away: string, prob: real, band: Band)

  /**
   * `predict_single_game`: nothing when either team has no earlier game;
   * otherwise the classifier's home-win probability for the feature
   * vector of both teams' latest earlier games and live injury impacts.
   */
  function PredictSingleGame(rows: seq<MasterRow>, injuries: seq<Injury>, avg: map<string, real>,
                             home: string, away: string, target: Date, model: seq<real> -> real): (r: Option<Prediction>)
    ensures r.None? <==> GetStats(rows, home, target).None? || GetStats(rows, away, target).None?
    ensures r.Some? ==> r.value.home == home && r.value.away == away && r.value.band == ConfidenceBand(r.value.prob)
    ensures r.Some? ==>
      var gh, ga := LastGameBefore(rows, home, target).value, LastGameBefore(rows, away, target).value;
      r.value.prob == model(FeatureVector(StatsFrom(gh, home), gh.date, StatsFrom(ga, away), ga.date, target,
                                          LiveInjuryImpact(injuries, home, avg), LiveInjuryImpact(injuries, away, avg)))
  {
    var hs, as_ := GetStats(rows, home, target), GetStats(rows, away, target);
    if hs.None? || as_.None? then None
    else
      var v := FeatureVector(hs.value.0, hs.value.1, as_.value.0, as_.value.1, target,
                             LiveInjuryImpact(injuries, home, avg), LiveInjuryImpact(injuries, away, avg));
      var p := model(v);
      Some(Prediction(home, away, p, ConfidenceBand(p)))
  }

  /** The latest stored date. */
  function MaxDate(rows: seq<MasterRow>): (m: Option<Date>)
    ensures m.None? <==> |rows| == 0
    ensures m.Some? ==> exists i :: 0 <= i < |rows| && rows[i].date == m.value
    ensures m.Some? ==> forall i :: 0 <= i < |rows| ==> !CalendarBefore(m.value, rows[i].date)
  {
    if |rows| == 0 then None
    else
      var init, last := rows[..|rows| - 1], rows[|rows| - 1];
      var m := MaxDate(init);
      var r := if m.None? || CalendarBefore(m.value, last.date) then last.date else m.value;
      assert forall i :: 0 <= i < |init| ==> init[i] == rows[i];
      Some(r)
  }

  /** `df['date_dt'].max() + timedelta(days=1)`. */
  function TargetDate(rows: seq<MasterRow>): Option<Date>
    requires forall i :: 0 <= i < |rows| ==> ValidDate(rows[i].date)
  {
    match MaxDate(rows)
    case None => None
    case Some(m) => Some(NextDay(m))
  }

  /** Every stored game is strictly before the target day, which follows the latest one. */
  lemma TargetAfterEveryGame(rows: seq<MasterRow>)
    requires forall i :: 0 <= i < |rows| ==> ValidDate(rows[i].date)
    ensures TargetDate(rows).Some? <==> |rows| > 0
    ensures TargetDate(rows).Some? ==>
      (forall i :: 0 <= i < |rows| ==> CalendarBefore(rows[i].date, TargetDate(rows).value)) &&
      exists i :: 0 <= i < |rows| && DayNumber(TargetDate(rows).value) == DayNumber(rows[i].date) + 1
  {
    if |rows| > 0 {
      var m := MaxDate(rows).value;
      var t := NextDay(m);
      var j :| 0 <= j < |rows| && rows[j].date == m;
      forall i | 0 <= i < |rows| ensures CalendarBefore(rows[i].date, t) {
        DayNumberOrder(m, rows[i].date);
        DayNumberOrder(rows[i].date, t);
      }
    }
  }
}
