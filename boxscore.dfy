/**
 * The incremental box-score scraper: each link of the link table is fetched
 * (with retries), the page is decoded into one game row (team totals and
 * inactive lists) and the players' single-game Game Scores, and both batches
 * are appended to the stored tables, which are then deduplicated keep-last
 * on `game_id` and on `(Player_ID, Date)`.  The page's HTML structure is
 * abstracted into the `Page` record.
 */
module BoxScore {
  import opened Common
  import opened Dates
  import opened Patterns
  import opened Cells
  import opened Dedup
  import Links

  // ---------------------------------------------------------------------
  // Decoding the page URL and the team link
  // ---------------------------------------------------------------------

  /** `/boxscores/(\d{8})0(\w{3})\.html`: group 1 at [11, 19), group 2 at [20, 23). */
  const BoxScorePattern: Pattern := [
    Lit('/'), Lit('b'), Lit('o'), Lit('x'), Lit('s'), Lit('c'), Lit('o'), Lit('r'), Lit('e'), Lit('s'), Lit('/'),
    AnyDigit, AnyDigit, AnyDigit, AnyDigit, AnyDigit, AnyDigit, AnyDigit, AnyDigit,
    Lit('0'),
    AnyWord, AnyWord, AnyWord,
    Lit('.'), Lit('h'), Lit('t'), Lit('m'), Lit('l')]

  datatype UrlFields = UrlFields(date8: string, home: string)

  /** The game date (`YYYYMMDD`) and home team of a box-score URL; `None` when it does not match. */
  function DecodeBoxScoreUrl(url: string): (r: Option<UrlFields>)
    ensures r.None? <==> forall j :: !MatchesAt(url, j, BoxScorePattern)
    ensures r.Some? ==> |r.value.date8| == 8 && AllDigits(r.value.date8)
    ensures r.Some? ==> |r.value.home| == 3 && AllWordChars(r.value.home)
  {
    match Search(url, BoxScorePattern)
    case None => None
    case Some(i) =>
      CaptureDigits(url, i, BoxScorePattern, 11, 19);
      CaptureWords(url, i, BoxScorePattern, 20, 23);
      Some(UrlFields(url[i + 11..i + 19], url[i + 20..i + 23]))
  }

  /** The URL of a game's box-score page, as the link crawler produces it. */
  function BoxScoreUrl(date8: string, home: string): string
  {
    Links.SiteBase + "/boxscores/" + date8 + "0" + home + ".html"
  }

  lemma MatchesAtShift(a: string, b: string, p: Pattern)
    requires MatchesAt(b, 0, p)
    ensures MatchesAt(a + b, |a|, p)
  {
    assert forall k :: 0 <= k < |p| ==> (a + b)[|a| + k] == b[k];
  }

  lemma BoxScorePathMatches(date8: string, home: string)
    requires |date8| == 8 && AllDigits(date8) && |home| == 3 && AllWordChars(home)
    ensures MatchesAt("/boxscores/" + date8 + "0" + home + ".html", 0, BoxScorePattern)
  {
    var path := "/boxscores/" + date8 + "0" + home + ".html";
    forall k | 0 <= k < 28 ensures ElemMatches(BoxScorePattern[k], path[k]) {
      if 11 <= k < 19 {
        assert path[k] == date8[k - 11];
      } else if 20 <= k < 23 {
        assert path[k] == home[k - 20];
      }
    }
  }

  lemma SiteBaseChars(j: int)
    requires 0 <= j < |Links.SiteBase|
    ensures Links.SiteBase[j] != 'x'
    ensures |Links.SiteBase| == 36 && Links.SiteBase[33] == 'c' && Links.SiteBase[34] == 'o' && Links.SiteBase[35] == 'm'
  {
    assert 'x' !in Links.SiteBase;
    assert Links.SiteBase[j] in Links.SiteBase;
  }

  /** The site's base URL holds no `x` and does not end in `/`, so no match starts inside it. */
  lemma NoMatchInSiteBase(rest: string)
    ensures forall j :: 0 <= j < |Links.SiteBase| ==> !MatchesAt(Links.SiteBase + rest, j, BoxScorePattern)
  {
    var base := Links.SiteBase;
    var url := base + rest;
    forall j | 0 <= j < |base| ensures !MatchesAt(url, j, BoxScorePattern) {
      SiteBaseChars(j);
      if j + 3 < 36 {
        SiteBaseChars(j + 3);
        assert url[j + 3] == base[j + 3];
        assert !ElemMatches(BoxScorePattern[3], url[j + 3]);
      } else {
        assert url[j] == base[j];
        assert !ElemMatches(BoxScorePattern[0], url[j]);
      }
    }
  }

  /** The link splits into the base and the path, where the date and the team sit at fixed offsets. */
  lemma UrlLayout(base: string, date8: string, home: string)
    requires |base| == 36 && |date8| == 8 && |home| == 3
    ensures base + "/boxscores/" + date8 + "0" + home + ".html" == base + ("/boxscores/" + date8 + "0" + home + ".html")
    ensures var url := base + ("/boxscores/" + date8 + "0" + home + ".html");
      url[47..55] == date8 && url[56..59] == home
  {
    var path := "/boxscores/" + date8 + "0" + home + ".html";
    assert path[11..19] == date8 && path[20..23] == home;
    assert (base + path)[36..] == path;
  }

  /** Behind a 36-character prefix in which no match starts, the path decodes to its date and team. */
  lemma DecodeAfterPrefix(base: string, date8: string, home: string)
    requires |base| == 36 && |date8| == 8 && AllDigits(date8) && |home| == 3 && AllWordChars(home)
    requires forall j :: 0 <= j < 36 ==> !MatchesAt(base + ("/boxscores/" + date8 + "0" + home + ".html"), j, BoxScorePattern)
    ensures DecodeBoxScoreUrl(base + ("/boxscores/" + date8 + "0" + home + ".html")) == Some(UrlFields(date8, home))
  {
    var path := "/boxscores/" + date8 + "0" + home + ".html";
    UrlLayout(base, date8, home);
    BoxScorePathMatches(date8, home);
    MatchesAtShift(base, path, BoxScorePattern);
    assert Search(base + path, BoxScorePattern) == Some(36);
  }

  /** Decoding the crawler's link gives back the date and home team it was built from. */
  lemma BoxScoreUrlRoundTrip(date8: string, home: string)
    requires |date8| == 8 && AllDigits(date8) && |home| == 3 && AllWordChars(home)
    ensures DecodeBoxScoreUrl(BoxScoreUrl(date8, home)) == Some(UrlFields(date8, home))
  {
    var path := "/boxscores/" + date8 + "0" + home + ".html";
    SiteBaseChars(0);
    UrlLayout(Links.SiteBase, date8, home);
    NoMatchInSiteBase(path);
    DecodeAfterPrefix(Links.SiteBase, date8, home);
  }

  /** `/teams/(\w{3})/` in the away team's link. */
  const TeamPattern: Pattern :=
    [Lit('/'), Lit('t'), Lit('e'), Lit('a'), Lit('m'), Lit('s'), Lit('/'), AnyWord, AnyWord, AnyWord, Lit('/')]

  function TeamFromHref(href: string): (r: Option<string>)
    ensures r.None? <==> forall j :: !MatchesAt(href, j, TeamPattern)
    ensures r.Some? ==> |r.value| == 3 && AllWordChars(r.value)
  {
    var p := TeamPattern;
    match Search(href, p)
    case None => None
    case Some(i) =>
      CaptureWords(href, i, p, 7, 10);
      Some(href[i + 7..i + 10])
  }

  lemma TeamHrefRoundTrip(team: string, rest: string)
    requires |team| == 3 && AllWordChars(team)
    ensures TeamFromHref("/teams/" + team + "/" + rest) == Some(team)
  {
    var href := "/teams/" + team + "/" + rest;
    assert MatchesAt(href, 0, TeamPattern) by {
      forall k | 0 <= k < 11 ensures ElemMatches(TeamPattern[k], href[k]) {
        if 7 <= k < 10 {
          assert href[k] == team[k - 7];
        }
      }
    }
    assert href[7..10] == team;
  }

  /** `f"{date}_{away}_at_{home}"`. */
  function GameId(date8: string, away: string, home: string): string
  {
    date8 + "_" + away + "_at_" + home
  }

  /** The three fields sit at fixed offsets, so a game id decodes back into them. */
  lemma GameIdFields(date8: string, away: string, home: string)
    requires |date8| == 8 && |away| == 3 && |home| == 3
    ensures |GameId(date8, away, home)| == 19
    ensures GameId(date8, away, home)[..8] == date8
    ensures GameId(date8, away, home)[9..12] == away
    ensures GameId(date8, away, home)[16..] == home
  {
    var id := GameId(date8, away, home);
    assert id == date8 + "_" + away + "_at_" + home;
  }

  lemma GameIdInjective(d1: string, a1: string, h1: string, d2: string, a2: string, h2: string)
    requires |d1| == 8 && |a1| == 3 && |h1| == 3 && |d2| == 8 && |a2| == 3 && |h2| == 3
    requires GameId(d1, a1, h1) == GameId(d2, a2, h2)
    ensures d1 == d2 && a1 == a2 && h1 == h2
  {
    GameIdFields(d1, a1, h1);
    GameIdFields(d2, a2, h2);
  }

  /** Season of a `YYYYMMDD` date: the year, plus one from October on. */
  function SeasonOfCompact(date8: string): (s: int)
    requires |date8| == 8 && AllDigits(date8)
    ensures s == SeasonYear(ParseCompactDate(date8))
  {
    var year := DigitsValue(date8[..4]);
    var month := DigitsValue(date8[4..6]);
    if month >= 10 then year + 1 else year
  }

  /** For a real date both renderings agree with the calendar. */
  lemma CompactDateFields(d: Date)
    requires ValidDate(d) && d.year < 10000
    ensures SeasonOfCompact(CompactDate(d)) == SeasonYear(d)
    ensures IsoFromCompact(CompactDate(d)) == IsoDate(d)
  {
    CompactDateRoundTrip(d);
    IsoFromCompactAgrees(d);
  }

  // ---------------------------------------------------------------------
  // Fetching with retries
  // ---------------------------------------------------------------------

  const Retries: nat := 3

  /**
   * What `response` holds after the loop: the first successful answer, else
   * the last answer with an error status (the response is assigned before
   * its status is checked), else `None`.
   */
  function FetchResult<P>(attempt: nat -> Attempt<P>, retries: nat, k: nat, last: Option<P>): Option<P>
    decreases retries - k
  {
    if k >= retries then last
    else match attempt(k)
      case Raised => FetchResult(attempt, retries, k + 1, last)
      case Answered(ok, p) => if ok then Some(p) else FetchResult(attempt, retries, k + 1, Some(p))
  }

  method FetchPage<P>(attempt: nat -> Attempt<P>, retries: nat) returns (response: Option<P>)
    ensures response == FetchResult(attempt, retries, 0, None)
  {
    response := None;
    var k := 0;
    while k < retries
      invariant k <= retries
      invariant FetchResult(attempt, retries, k, response) == FetchResult(attempt, retries, 0, None)
    {
      var a := attempt(k);
      if a.Answered? {
        response := Some(a.page);
        if a.ok {
          return;
        }
      }
      k := k + 1;
    }
  }

  /** The parse is abandoned exactly when every attempt raised. */
  lemma {:induction false} FetchNoneIffAllRaised<P>(attempt: nat -> Attempt<P>, retries: nat, k: nat, last: Option<P>)
    ensures FetchResult(attempt, retries, k, last).None? <==>
      last.None? && forall j :: k <= j < retries ==> attempt(j).Raised?
    decreases retries - k
  {
    if k < retries {
      FetchNoneIffAllRaised(attempt, retries, k + 1, last);
      if attempt(k).Answered? {
        FetchNoneIffAllRaised(attempt, retries, k + 1, Some(attempt(k).page));
      }
    }
  }

  /** A successful answer is used as soon as it arrives. */
  lemma {:induction false} FetchFirstSuccess<P>(attempt: nat -> Attempt<P>, retries: nat, k: nat, last: Option<P>, s: nat)
    requires k <= s < retries && attempt(s).Answered? && attempt(s).ok
    requires forall j :: k <= j < s ==> !(attempt(j).Answered? && attempt(j).ok)
    ensures FetchResult(attempt, retries, k, last) == Some(attempt(s).page)
    decreases s - k
  {
    if k < s {
      match attempt(k)
      case Raised => FetchFirstSuccess(attempt, retries, k + 1, last, s);
      case Answered(_, p) => FetchFirstSuccess(attempt, retries, k + 1, Some(p), s);
    }
  }

  // ---------------------------------------------------------------------
  // The page
  // ---------------------------------------------------------------------

  /** The `th data-stat="player"` cell: `data-append-csv`, the link text, the cell text. */
  datatype PlayerCell = PlayerCell(appendCsv: Option<string>, linkText: Option<string>, text: string)

  /** A body row of a basic box-score table: its classes and the cells it has. */
  datatype PlayerRow = PlayerRow(classes: seq<string>, minutes: Option<string>, player: Option<PlayerCell>, gameScore: Option<string>)

  /** A team's basic box-score table: the cells of its footer row by `data-stat`, and its body rows. */
  datatype BoxTable = BoxTable(footer: Option<map<string, string>>, body: Option<seq<PlayerRow>>)

  /**
   * A fetched page: its final URL, the scorebox away-team link, the inactive
   * names found for each side, and the basic tables by team abbreviation.
   */
  datatype Page = Page(url: string, awayHref: Option<string>, homeInactive: seq<string>, awayInactive: seq<string>,
                       tables: map<string, BoxTable>)

  datatype GameRow = GameRow(gameId: string, date: int, home: string, away: string,
                             homeDnp: string, awayDnp: string, stats: map<string, int>)

  datatype PlayerGame = PlayerGame(playerId: string, playerName: string, seasonYear: int, date: string,
                                   team: string, games: int, gmsc: real)

  datatype Parsed = Parsed(game: GameRow, players: seq<PlayerGame>)

  const StatNames: seq<string> :=
    ["pts", "fg", "fga", "fg3", "fg3a", "ft", "fta", "orb", "drb", "trb", "ast", "stl", "blk", "tov", "pf"]

  // ---------------------------------------------------------------------
  // Team totals
  // ---------------------------------------------------------------------

  /**
   * `game_data[f"{side}_{stat}"] = int(cell.text)` for each stat whose
   * footer cell exists; `None` when one of those texts is not an integer
   * (the exception abandons the whole page).
   */
  function TotalsOf(side: string, cells: map<string, string>, stats: seq<string>): Option<map<string, int>>
  {
    if |stats| == 0 then Some(map[])
    else
      match TotalsOf(side, cells, stats[..|stats| - 1])
      case None => None
      case Some(m) =>
        var st := stats[|stats| - 1];
        if st in cells then
          match ParseInt(cells[st])
          case None => None
          case Some(v) => Some(m[side + "_" + st := v])
        else Some(m)
  }

  method ReadTotals(side: string, cells: map<string, string>) returns (r: Option<map<string, int>>)
    ensures r == TotalsOf(side, cells, StatNames)
  {
    r := ReadStats(side, cells, StatNames);
  }

  /** The footer loop over a list of stats; the first unparsable cell ends it. */
  method ReadStats(side: string, cells: map<string, string>, stats: seq<string>) returns (r: Option<map<string, int>>)
    ensures r == TotalsOf(side, cells, stats)
  {
    var m: map<string, int> := map[];
    for i := 0 to |stats|
      invariant TotalsOf(side, cells, stats[..i]) == Some(m)
    {
      assert stats[..i + 1][..i] == stats[..i];
      var st := stats[i];
      if st in cells {
        var v := ParseInt(cells[st]);
        if v.None? {
          FirstFailureSticks(side, cells, stats, i + 1);
          assert stats[..|stats|] == stats;
          return None;
        }
        m := m[side + "_" + st := v.value];
      }
    }
    assert stats[..|stats|] == stats;
    r := Some(m);
  }

  lemma {:induction false} FirstFailureSticks(side: string, cells: map<string, string>, stats: seq<string>, i: nat)
    requires i <= |stats| && TotalsOf(side, cells, stats[..i]).None?
    ensures TotalsOf(side, cells, stats).None?
    decreases |stats| - i
  {
    if i < |stats| {
      assert stats[..i + 1][..i] == stats[..i];
      FirstFailureSticks(side, cells, stats, i + 1);
    } else {
      assert stats[..i] == stats;
    }
  }

  lemma StatKeyInjective(side: string, a: string, b: string)
    requires side + "_" + a == side + "_" + b
    ensures a == b
  {
    var n := |side| + 1;
    assert (side + "_" + a)[n..] == a;
    assert (side + "_" + b)[n..] == b;
  }

  /** The totals succeed exactly when every present stat cell holds an integer. */
  lemma {:induction false} TotalsSucceed(side: string, cells: map<string, string>, stats: seq<string>)
    ensures TotalsOf(side, cells, stats).Some? <==>
      forall k :: 0 <= k < |stats| && stats[k] in cells ==> ParseInt(cells[stats[k]]).Some?
  {
    if |stats| > 0 {
      var init := stats[..|stats| - 1];
      TotalsSucceed(side, cells, init);
      assert forall k :: 0 <= k < |init| ==> init[k] == stats[k];
    }
  }

  /** They then hold a `side_stat` entry for precisely the stats whose cell is present. */
  lemma {:induction false} TotalsKeys(side: string, cells: map<string, string>, stats: seq<string>)
    requires TotalsOf(side, cells, stats).Some?
    ensures forall key :: key in TotalsOf(side, cells, stats).value <==>
      exists k :: 0 <= k < |stats| && stats[k] in cells && key == side + "_" + stats[k]
  {
    if |stats| > 0 {
      var init := stats[..|stats| - 1];
      var st := stats[|stats| - 1];
      TotalsKeys(side, cells, init);
      assert forall k :: 0 <= k < |init| ==> init[k] == stats[k];
      var m := TotalsOf(side, cells, stats).value;
      forall key | exists k :: 0 <= k < |stats| && stats[k] in cells && key == side + "_" + stats[k]
        ensures key in m
      {
        var k :| 0 <= k < |stats| && stats[k] in cells && key == side + "_" + stats[k];
        if k < |init| {
          assert init[k] == stats[k];
        }
      }
    }
  }

  /** ... each holding the integer its cell reads as. */
  lemma {:induction false} TotalsValues(side: string, cells: map<string, string>, stats: seq<string>)
    requires TotalsOf(side, cells, stats).Some?
    ensures forall k :: 0 <= k < |stats| && stats[k] in cells ==>
      side + "_" + stats[k] in TotalsOf(side, cells, stats).value && ParseInt(cells[stats[k]]).Some? &&
      TotalsOf(side, cells, stats).value[side + "_" + stats[k]] == ParseInt(cells[stats[k]]).value
  {
    if |stats| > 0 {
      var init := stats[..|stats| - 1];
      var st := stats[|stats| - 1];
      TotalsValues(side, cells, init);
      var m := TotalsOf(side, cells, stats).value;
      forall k | 0 <= k < |stats| && stats[k] in cells
        ensures side + "_" + stats[k] in m && ParseInt(cells[stats[k]]).Some? && m[side + "_" + stats[k]] == ParseInt(cells[stats[k]]).value
      {
        if k < |init| {
          assert init[k] == stats[k];
          if st in cells && side + "_" + stats[k] == side + "_" + st {
            StatKeyInjective(side, stats[k], st);
          }
        }
      }
    }
  }

  /** The totals of one side: none without a table or footer row, `None` on a bad cell. */
  function SideTotals(side: string, tables: map<string, BoxTable>, team: string): Option<map<string, int>>
  {
    if team in tables && tables[team].footer.Some? then TotalsOf(side, tables[team].footer.value, StatNames)
    else Some(map[])
  }

  // ---------------------------------------------------------------------
  // Player rows
  // ---------------------------------------------------------------------

  /** A row is kept when it is not a repeated header, has minutes, and names a player id. */
  predicate KeepsPlayerRow(row: PlayerRow)
  {
    "thead" !in row.classes &&
    row.minutes.Some? && !IsBlank(row.minutes.value) &&
    row.player.Some? && row.player.value.appendCsv.Some? && row.player.value.appendCsv.value != ""
  }

  /** `float(text)` when the cell has text, else 0; 0 as well when it does not parse. */
  function GameScoreValue(cell: Option<string>): (v: real)
    ensures cell.None? || IsBlank(cell.value) ==> v == 0.0
    ensures cell.Some? && ParseDecimal(cell.value).Some? ==> v == ParseDecimal(cell.value).value
    ensures cell.Some? && ParseDecimal(cell.value).None? ==> v == 0.0
  {
    match cell
    case None => 0.0
    case Some(t) =>
      if IsBlank(t) then 0.0
      else match ParseDecimal(t)
        case None => 0.0
        case Some(v) => v
  }

  /** The link text when the cell has a link, else the cell text. */
  function PlayerName(cell: PlayerCell): string
  {
    if cell.linkText.Some? then cell.linkText.value else cell.text
  }

  function PlayerRecord(row: PlayerRow, date8: string, team: string): PlayerGame
    requires KeepsPlayerRow(row) && |date8| == 8 && AllDigits(date8)
  {
    PlayerGame(row.player.value.appendCsv.value, PlayerName(row.player.value), SeasonOfCompact(date8),
               IsoFromCompact(date8), team, 1, GameScoreValue(row.gameScore))
  }

  /** The records of the kept rows, in table order. */
  function PlayerRecords(rows: seq<PlayerRow>, date8: string, team: string): seq<PlayerGame>
    requires |date8| == 8 && AllDigits(date8)
  {
    if |rows| == 0 then []
    else
      var rest := PlayerRecords(rows[..|rows| - 1], date8, team);
      var row := rows[|rows| - 1];
      if KeepsPlayerRow(row) then rest + [PlayerRecord(row, date8, team)] else rest
  }

  /** Exactly the kept rows contribute, each its own record. */
  lemma {:induction false} PlayerRecordsContents(rows: seq<PlayerRow>, date8: string, team: string)
    requires |date8| == 8 && AllDigits(date8)
    ensures forall i :: 0 <= i < |rows| && KeepsPlayerRow(rows[i]) ==>
      PlayerRecord(rows[i], date8, team) in PlayerRecords(rows, date8, team)
    ensures forall x :: x in PlayerRecords(rows, date8, team) ==>
      exists i :: 0 <= i < |rows| && KeepsPlayerRow(rows[i]) && x == PlayerRecord(rows[i], date8, team)
  {
    if |rows| > 0 {
      var init := rows[..|rows| - 1];
      PlayerRecordsContents(init, date8, team);
      assert forall i :: 0 <= i < |init| ==> init[i] == rows[i];
    }
  }

  /** Every record carries the team, the season and the ISO date of the game. */
  lemma {:induction false} PlayerRecordsFields(rows: seq<PlayerRow>, date8: string, team: string)
    requires |date8| == 8 && AllDigits(date8)
    ensures forall x :: x in PlayerRecords(rows, date8, team) ==>
      x.team == team && x.games == 1 && x.playerId != "" &&
      x.seasonYear == SeasonYear(ParseCompactDate(date8)) && x.date == IsoFromCompact(date8)
  {
    if |rows| > 0 {
      PlayerRecordsFields(rows[..|rows| - 1], date8, team);
    }
  }

  /** `extract_players_from_table`: the records of one side's table. */
  method ExtractPlayers(table: Option<BoxTable>, date8: string, team: string) returns (out: seq<PlayerGame>)
    requires |date8| == 8 && AllDigits(date8)
    ensures out == TablePlayers(table, date8, team)
  {
    out := [];
    if table.None? || table.value.body.None? {
      return;
    }
    var rows := table.value.body.value;
    for i := 0 to |rows|
      invariant out == PlayerRecords(rows[..i], date8, team)
    {
      assert rows[..i + 1][..i] == rows[..i];
      var row := rows[i];
      if "thead" in row.classes {
        continue;
      }
      if row.minutes.None? || IsBlank(row.minutes.value) {
        continue;
      }
      if row.player.None? {
        continue;
      }
      var id := row.player.value.appendCsv;
      if id.None? || id.value == "" {
        continue;
      }
      var gmsc := GameScoreValue(row.gameScore);
      var year := DigitsValue(date8[..4]);
      var month := DigitsValue(date8[4..6]);
      var season := if month >= 10 then year + 1 else year;
      out := out + [PlayerGame(id.value, PlayerName(row.player.value), season,
                               date8[..4] + "-" + date8[4..6] + "-" + date8[6..], team, 1, gmsc)];
    }
    assert rows[..|rows|] == rows;
  }

  function TablePlayers(table: Option<BoxTable>, date8: string, team: string): seq<PlayerGame>
    requires |date8| == 8 && AllDigits(date8)
  {
    if table.None? || table.value.body.None? then [] else PlayerRecords(table.value.body.value, date8, team)
  }

  function TableOf(tables: map<string, BoxTable>, team: string): Option<BoxTable>
  {
    if team in tables then Some(tables[team]) else None
  }

  // ---------------------------------------------------------------------
  // One page
  // ---------------------------------------------------------------------

  /** The away team from the scorebox link; `None` abandons the page. */
  function AwayTeam(page: Page): Option<string>
  {
    if page.awayHref.None? then None else TeamFromHref(page.awayHref.value)
  }

  /** `parse_box_score_ultimate` on the fetch outcome. */
  function BoxScoreOf(response: Option<Page>): (r: Option<Parsed>)
    ensures response.None? ==> r.None?
    ensures response.Some? && (DecodeBoxScoreUrl(response.value.url).None? || AwayTeam(response.value).None?) ==> r.None?
    ensures r.Some? ==>
      var f := DecodeBoxScoreUrl(response.value.url).value;
      var away := AwayTeam(response.value).value;
      r.value.game.gameId == GameId(f.date8, away, f.home) && r.value.game.home == f.home && r.value.game.away == away
  {
    if response.None? then None
    else
      var page := response.value;
      match DecodeBoxScoreUrl(page.url)
      case None => None
      case Some(f) =>
        match AwayTeam(page)
        case None => None
        case Some(away) =>
          var homeTotals := SideTotals("home", page.tables, f.home);
          var awayTotals := SideTotals("away", page.tables, away);
          if homeTotals.None? || awayTotals.None? then None
          else
            var game := GameRow(GameId(f.date8, away, f.home), DigitsValue(f.date8), f.home, away,
                                Join(", ", page.homeInactive), Join(", ", page.awayInactive),
                                homeTotals.value + awayTotals.value);
            var players := TablePlayers(TableOf(page.tables, f.home), f.date8, f.home)
                         + TablePlayers(TableOf(page.tables, away), f.date8, away);
            Some(Parsed(game, players))
  }

  method ParseBoxScore(response: Option<Page>) returns (r: Option<Parsed>)
    ensures r == BoxScoreOf(response)
  {
    if response.None? {
      return None;
    }
    var page := response.value;
    var fields := DecodeBoxScoreUrl(page.url);
    if fields.None? {
      return None;
    }
    var date8, home := fields.value.date8, fields.value.home;
    var away := AwayTeam(page);
    if away.None? {
      return None;
    }
    var homeStats: map<string, int> := map[];
    if home in page.tables && page.tables[home].footer.Some? {
      var t := ReadTotals("home", page.tables[home].footer.value);
      if t.None? {
        return None;
      }
      homeStats := t.value;
    }
    var awayStats: map<string, int> := map[];
    if away.value in page.tables && page.tables[away.value].footer.Some? {
      var t := ReadTotals("away", page.tables[away.value].footer.value);
      if t.None? {
        return None;
      }
      awayStats := t.value;
    }
    var game := GameRow(GameId(date8, away.value, home), DigitsValue(date8), home, away.value,
                        Join(", ", page.homeInactive), Join(", ", page.awayInactive), homeStats + awayStats);
    var homePlayers := ExtractPlayers(TableOf(page.tables, home), date8, home);
    var awayPlayers := ExtractPlayers(TableOf(page.tables, away.value), date8, away.value);
    r := Some(Parsed(game, homePlayers + awayPlayers));
  }

  /** A parsed page: a 19-character game id, the numeric date, and players of the two teams only. */
  lemma ParsedPageFacts(response: Option<Page>)
    requires BoxScoreOf(response).Some?
    ensures var p := BoxScoreOf(response).value;
      var f := DecodeBoxScoreUrl(response.value.url).value;
      |p.game.gameId| == 19 && p.game.gameId[..8] == f.date8 && p.game.date == DigitsValue(f.date8) &&
      forall x :: x in p.players ==>
        (x.team == p.game.home || x.team == p.game.away) &&
        x.seasonYear == SeasonOfCompact(f.date8) && x.date == IsoFromCompact(f.date8)
  {
    var page := response.value;
    var f := DecodeBoxScoreUrl(page.url).value;
    var away := AwayTeam(page).value;
    GameIdFields(f.date8, away, f.home);
    var ht := TableOf(page.tables, f.home);
    var at := TableOf(page.tables, away);
    if ht.Some? && ht.value.body.Some? {
      PlayerRecordsFields(ht.value.body.value, f.date8, f.home);
    }
    if at.Some? && at.value.body.Some? {
      PlayerRecordsFields(at.value.body.value, f.date8, away);
    }
  }

  // ---------------------------------------------------------------------
  // Column order of the team table
  // ---------------------------------------------------------------------

  const TeamColumns: seq<string> := [
    "game_id", "date", "home_team", "away_team", "home_dnp", "away_dnp",
    "home_pts", "home_fg", "home_fga", "home_fg3", "home_fg3a", "home_ft", "home_fta",
    "home_orb", "home_drb", "home_trb", "home_ast", "home_stl", "home_blk", "home_tov", "home_pf",
    "away_pts", "away_fg", "away_fga", "away_fg3", "away_fg3a", "away_ft", "away_fta",
    "away_orb", "away_drb", "away_trb", "away_ast", "away_stl", "away_blk", "away_tov", "away_pf"]

  /** `r` lists some of the elements of `s`, in the order they have in `s`. */
  ghost predicate OrderedSubsequence(r: seq<string>, s: seq<string>)
    decreases |s|
  {
    |r| == 0 || (|s| > 0 && ((r[0] == s[0] && OrderedSubsequence(r[1..], s[1..])) || OrderedSubsequence(r, s[1..])))
  }

  /** `[c for c in cols if c in present]`. */
  function PresentColumns(cols: seq<string>, present: set<string>): (r: seq<string>)
    ensures OrderedSubsequence(r, cols)
    ensures forall c :: c in r <==> c in cols && c in present
  {
    if |cols| == 0 then []
    else
      var rest := PresentColumns(cols[1..], present);
      assert forall c :: c in cols <==> c == cols[0] || c in cols[1..];
      if cols[0] in present then
        assert ([cols[0]] + rest)[1..] == rest;
        [cols[0]] + rest
      else rest
  }

  /** Every column is present: the selection is the whole list, in its order. */
  lemma {:induction false} PresentColumnsAll(cols: seq<string>, present: set<string>)
    requires forall k :: 0 <= k < |cols| ==> cols[k] in present
    ensures PresentColumns(cols, present) == cols
  {
    if |cols| > 0 {
      PresentColumnsAll(cols[1..], present);
      assert cols == [cols[0]] + cols[1..];
    }
  }

  /** When the first n columns are present, the selection starts with them. */
  lemma {:induction false} PresentColumnsPrefix(cols: seq<string>, present: set<string>, n: nat)
    requires n <= |cols| && forall k :: 0 <= k < n ==> cols[k] in present
    ensures n <= |PresentColumns(cols, present)| && PresentColumns(cols, present)[..n] == cols[..n]
  {
    if n > 0 {
      var tail := cols[1..];
      assert forall k :: 0 <= k < n - 1 ==> tail[k] == cols[k + 1];
      PresentColumnsPrefix(tail, present, n - 1);
      var rest := PresentColumns(tail, present);
      assert cols[0] in present;
      assert PresentColumns(cols, present) == [cols[0]] + rest;
      assert ([cols[0]] + rest)[..n] == [cols[0]] + rest[..n - 1];
      assert cols[..n] == [cols[0]] + tail[..n - 1];
    }
  }

  const IdColumns: set<string> := {"game_id", "date", "home_team", "away_team", "home_dnp", "away_dnp"}

  /** The columns the new rows have: the identifying six and every recorded total. */
  function GameColumns(games: seq<GameRow>): set<string>
  {
    if |games| == 0 then {}
    else IdColumns + games[0].stats.Keys + GameColumns(games[1..])
  }

  /** Each new row contributes the identifying columns and the keys of its totals. */
  lemma {:induction false} GameColumnsHas(games: seq<GameRow>, k: nat)
    requires k < |games|
    ensures IdColumns <= GameColumns(games) && games[k].stats.Keys <= GameColumns(games)
  {
    if k > 0 {
      GameColumnsHas(games[1..], k - 1);
      assert games[1..][k - 1] == games[k];
    }
  }

  /**
   * `existing_cols`: the batch's columns cut down to the fixed order. They
   * keep that order, are exactly the fixed columns some new row has, and
   * start with the six identifying columns whenever there is a new row.
   */
  function NewTeamColumns(games: seq<GameRow>): (r: seq<string>)
    ensures OrderedSubsequence(r, TeamColumns)
    ensures forall c :: c in r <==> c in TeamColumns && c in GameColumns(games)
    ensures |games| > 0 ==> |r| >= 6 && r[..6] == TeamColumns[..6]
  {
    if |games| > 0 then
      GameColumnsHas(games, 0);
      PresentColumnsPrefix(TeamColumns, GameColumns(games), 6);
      PresentColumns(TeamColumns, GameColumns(games))
    else
      PresentColumns(TeamColumns, GameColumns(games))
  }

  /** A batch in which some game has every total is written in exactly the fixed column order. */
  lemma FullBatchColumns(games: seq<GameRow>, k: nat)
    requires k < |games| && forall j :: 6 <= j < |TeamColumns| ==> TeamColumns[j] in games[k].stats
    ensures NewTeamColumns(games) == TeamColumns
  {
    GameColumnsHas(games, k);
    assert forall j :: 0 <= j < 6 ==> TeamColumns[j] in IdColumns;
    PresentColumnsAll(TeamColumns, GameColumns(games));
  }

  // ---------------------------------------------------------------------
  // The update run
  // ---------------------------------------------------------------------

  function GameKey(g: GameRow): string { g.gameId }

  function PlayerKey(p: PlayerGame): (string, string) { (p.playerId, p.date) }

  /** The links of the link table, blank cells dropped. */
  function PresentUrls(cells: seq<Option<string>>): (r: seq<string>)
    ensures |r| <= |cells|
    ensures forall u :: u in r <==> Some(u) in cells
  {
    if |cells| == 0 then []
    else
      var rest := PresentUrls(cells[1..]);
      assert forall c :: c in cells <==> c == cells[0] || c in cells[1..];
      if cells[0].Some? then [cells[0].value] + rest else rest
  }

  function Present(c: Option<string>): Option<string> { c }

  /** `dropna` is a filter over the cells, taken in row order. */
  lemma {:induction false} PresentUrlsFilter(cells: seq<Option<string>>)
    ensures PresentUrls(cells) == FilterMap(cells, Present)
  {
    if |cells| > 0 {
      PresentUrlsFilter(cells[1..]);
      assert cells == [cells[0]] + cells[1..];
      FilterMapAppend([cells[0]], cells[1..], Present);
      assert FilterMap([cells[0]], Present) == FilterMap([], Present) + (if cells[0].Some? then [cells[0].value] else []);
    }
  }

  /** The kept links keep their row order: a present cell before another is listed before it. */
  lemma PresentUrlsOrder(cells: seq<Option<string>>, i: nat, j: nat)
    requires i < j < |cells| && cells[i].Some? && cells[j].Some?
    ensures exists a, b ::
              0 <= a < b < |PresentUrls(cells)| && PresentUrls(cells)[a] == cells[i].value && PresentUrls(cells)[b] == cells[j].value
  {
    PresentUrlsFilter(cells);
    FilterMapOrder(cells, Present, i, j);
    FilterMapOrder(cells, Present, j, |cells|);
    var a, b := FilterMapSlot(cells, Present, i), FilterMapSlot(cells, Present, j);
    assert PresentUrls(cells)[a] == cells[i].value && PresentUrls(cells)[b] == cells[j].value;
  }

  function Scrape(respond: string -> nat -> Attempt<Page>, url: string): Option<Parsed>
  {
    BoxScoreOf(FetchResult(respond(url), Retries, 0, None))
  }

  function NewGames(respond: string -> nat -> Attempt<Page>, urls: seq<string>): seq<GameRow>
  {
    if |urls| == 0 then []
    else
      var p := Scrape(respond, urls[|urls| - 1]);
      NewGames(respond, urls[..|urls| - 1]) + (if p.Some? then [p.value.game] else [])
  }

  function NewPlayers(respond: string -> nat -> Attempt<Page>, urls: seq<string>): seq<PlayerGame>
  {
    if |urls| == 0 then []
    else
      var p := Scrape(respond, urls[|urls| - 1]);
      NewPlayers(respond, urls[..|urls| - 1]) + (if p.Some? then p.value.players else [])
  }

  /**
   * `run_v300_data_update`: `links` is the link table (`None` when it does
   * not exist); `respond(url)` gives the successive request outcomes for a
   * URL; a missing stored table is the empty one. `teamColumns` is the
   * column order the new team rows are appended in, empty when none are.
   */
  method RunDataUpdate(links: Option<seq<Option<string>>>, respond: string -> nat -> Attempt<Page>,
                       storedGames: seq<GameRow>, storedPlayers: seq<PlayerGame>)
    returns (games: seq<GameRow>, players: seq<PlayerGame>, teamColumns: seq<string>)
    ensures links.None? ==> games == storedGames && players == storedPlayers && teamColumns == []
    ensures links.Some? ==>
      var newGames := NewGames(respond, PresentUrls(links.value));
      games == (if |newGames| == 0 then storedGames else KeepLast(storedGames + newGames, GameKey)) &&
      teamColumns == (if |newGames| == 0 then [] else NewTeamColumns(newGames))
    ensures links.Some? ==>
      var newPlayers := NewPlayers(respond, PresentUrls(links.value));
      players == (if |newPlayers| == 0 then storedPlayers else KeepLast(storedPlayers + newPlayers, PlayerKey))
  {
    games, players, teamColumns := storedGames, storedPlayers, [];
    if links.None? {
      return;
    }
    var urls := PresentUrls(links.value);
    if |urls| == 0 {
      return;
    }
    var newGames: seq<GameRow> := [];
    var newPlayers: seq<PlayerGame> := [];
    for i := 0 to |urls|
      invariant newGames == NewGames(respond, urls[..i])
      invariant newPlayers == NewPlayers(respond, urls[..i])
    {
      assert urls[..i + 1][..i] == urls[..i];
      var page := FetchPage(respond(urls[i]), Retries);
      var parsed := ParseBoxScore(page);
      if parsed.Some? {
        newGames := newGames + [parsed.value.game];
        if |parsed.value.players| > 0 {
          newPlayers := newPlayers + parsed.value.players;
        }
      }
    }
    assert urls[..|urls|] == urls;
    if |newGames| > 0 {
      teamColumns := NewTeamColumns(newGames);
      games := KeepLast(storedGames + newGames, GameKey);
    }
    if |newPlayers| > 0 {
      players := KeepLast(storedPlayers + newPlayers, PlayerKey);
    }
  }

  lemma {:induction false} NoPresentUrls(cells: seq<Option<string>>)
    requires forall k :: 0 <= k < |cells| ==> cells[k].None?
    ensures PresentUrls(cells) == []
  {
    if |cells| > 0 {
      assert forall k :: 0 <= k < |cells[1..]| ==> cells[1..][k] == cells[k + 1];
      NoPresentUrls(cells[1..]);
    }
  }

  /** With no links there is nothing new, so both tables stay as stored. */
  lemma NoLinksNoChange(respond: string -> nat -> Attempt<Page>, cells: seq<Option<string>>)
    requires forall k :: 0 <= k < |cells| ==> cells[k].None?
    ensures NewGames(respond, PresentUrls(cells)) == [] && NewPlayers(respond, PresentUrls(cells)) == []
  {
    NoPresentUrls(cells);
  }
}
