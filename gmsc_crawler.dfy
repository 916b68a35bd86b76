/**
 * The resumable player game-log crawler: for every player active in the
 * last two seasons and not yet in the output file, fetch the 2025 and 2026
 * game logs (three attempts, linear back-off), keep the real game rows, and
 * save old plus new records sorted by (player, date) and unique on that key,
 * with a deduplicated snapshot every 50th player.
 */
module GmscCrawler {
  import opened Common
  import opened Cells
  import opened Dedup
  import opened Ordering

  // ---------------------------------------------------------------------
  // Retries with linear back-off
  // ---------------------------------------------------------------------

  const Retries: nat := 3
  const Delay: int := 20

  /** `raise_for_status()` passes: the only answer that ends the retry loop. */
  predicate Succeeds<P>(a: Attempt<P>)
  {
    a.Answered? && a.ok
  }

  /** Index of the first successful attempt at or after `k`. */
  function FirstSuccess<P>(attempt: nat -> Attempt<P>, retries: nat, k: nat): (r: Option<nat>)
    ensures r.Some? ==> k <= r.value < retries && Succeeds(attempt(r.value))
    ensures r.Some? ==> forall j :: k <= j < r.value ==> !Succeeds(attempt(j))
    ensures r.None? ==> forall j :: k <= j < retries ==> !Succeeds(attempt(j))
    decreases retries - k
  {
    if k >= retries then None
    else if Succeeds(attempt(k)) then Some(k)
    else FirstSuccess(attempt, retries, k + 1)
  }

  /**
   * The page the parser gets: the first successful answer.  An error status
   * raises like a connection error, and after the last failure the function
   * gives up, so no error page is ever parsed.
   */
  function FetchOutcome<P>(attempt: nat -> Attempt<P>, retries: nat): Option<P>
  {
    match FirstSuccess(attempt, retries, 0)
    case Some(s) => Some(attempt(s).page)
    case None => None
  }

  /** The waits `delay * 1, delay * 2, ...`, one after each of the first `n` failures. */
  function Backoff(delay: int, n: nat): (w: seq<int>)
    ensures |w| == n && forall k :: 0 <= k < n ==> w[k] == delay * (k + 1)
  {
    seq(n, k => delay * (k + 1))
  }

  /** Failures followed by a wait: all before the success, or all but the last. */
  function WaitCount<P>(attempt: nat -> Attempt<P>, retries: nat): nat
  {
    match FirstSuccess(attempt, retries, 0)
    case Some(s) => s
    case None => if retries == 0 then 0 else retries - 1
  }

  method FetchGameLog<P>(attempt: nat -> Attempt<P>, retries: nat, delay: int) returns (response: Option<P>, waits: seq<int>)
    ensures response == FetchOutcome(attempt, retries)
    ensures waits == Backoff(delay, WaitCount(attempt, retries))
  {
    response := None;
    waits := [];
    var k := 0;
    while k < retries
      invariant k <= retries && (k < retries || retries == 0)
      invariant FirstSuccess(attempt, retries, k) == FirstSuccess(attempt, retries, 0)
      invariant waits == Backoff(delay, k)
    {
      var a := attempt(k);
      if a.Answered? && a.ok {
        response := Some(a.page);
        return;
      }
      if k < retries - 1 {
        waits := waits + [delay * (k + 1)];
      } else {
        return;
      }
      k := k + 1;
    }
  }

  /**
   * Every wait follows a failed attempt, the last attempt is never followed
   * by one, and nothing is fetched exactly when every attempt failed.
   */
  lemma BackoffSchedule<P>(attempt: nat -> Attempt<P>, retries: nat)
    ensures forall k :: 0 <= k < WaitCount(attempt, retries) ==> !Succeeds(attempt(k))
    ensures retries > 0 ==> WaitCount(attempt, retries) < retries
    ensures FetchOutcome(attempt, retries).None? <==> forall j :: 0 <= j < retries ==> !Succeeds(attempt(j))
    ensures FetchOutcome(attempt, retries).None? && retries > 0 ==> WaitCount(attempt, retries) == retries - 1
  {
    var f := FirstSuccess(attempt, retries, 0);
    if f.None? && retries > 0 {
      assert !Succeeds(attempt(0));
    }
  }

  // ---------------------------------------------------------------------
  // The game-log page
  // ---------------------------------------------------------------------

  /**
   * One `tr` of the game-log body: its classes, the `ranker` header cell,
   * the `game_score` cell, the link text of the `date` cell when the cell
   * holds a link, and the three cells that may carry the team.
   */
  datatype LogRow = LogRow(classes: seq<string>, ranker: Option<string>, gameScore: Option<string>,
                           dateLink: Option<string>, teamNameAbbr: Option<string>, teamId: Option<string>,
                           tm: Option<string>)

  datatype LogTable = LogTable(body: Option<seq<LogRow>>)

  /** The `player_game_log_reg` table and the older `pgl_basic` one. */
  datatype LogPage = LogPage(regular: Option<LogTable>, basic: Option<LogTable>)

  datatype GmscRecord = GmscRecord(playerId: string, playerName: string, seasonYear: int, date: string,
                                   team: string, g: int, gmsc: real)

  /** A real game row: not a repeated header, an integer game number, a GmSc, a dated link. */
  predicate IsGameRow(row: LogRow)
  {
    "thead" !in row.classes &&
    row.ranker.Some? && !IsBlank(row.ranker.value) && ParseInt(row.ranker.value).Some? &&
    row.gameScore.Some? && !IsBlank(row.gameScore.value) &&
    row.dateLink.Some?
  }

  /** `team_name_abbr`, else `team_id`, else `tm`, else "UNKNOWN". */
  function TeamAbbr(row: LogRow): string
  {
    if row.teamNameAbbr.Some? then Strip(row.teamNameAbbr.value)
    else if row.teamId.Some? then Strip(row.teamId.value)
    else if row.tm.Some? then Strip(row.tm.value)
    else "UNKNOWN"
  }

  /** `float(text)`, and 0 when it does not parse. */
  function GmscValue(text: string): (v: real)
    ensures ParseDecimal(text).Some? ==> v == ParseDecimal(text).value
    ensures ParseDecimal(text).None? ==> v == 0.0
  {
    match ParseDecimal(text)
    case Some(x) => x
    case None => 0.0
  }

  function LogRecord(row: LogRow, pid: string, name: string, season: int): (r: Option<GmscRecord>)
    ensures r.Some? <==> IsGameRow(row)
    ensures r.Some? ==> r.value.playerId == pid && r.value.playerName == name && r.value.seasonYear == season
    ensures r.Some? ==> r.value.g == ParseInt(row.ranker.value).value && r.value.gmsc == GmscValue(row.gameScore.value)
    ensures r.Some? ==> r.value.date == Strip(row.dateLink.value) && r.value.team == TeamAbbr(row)
  {
    if "thead" in row.classes then None
    else match row.ranker
      case None => None
      case Some(rk) =>
        if Strip(rk) == "" then None
        else match ParseInt(rk)
          case None => None
          case Some(g) =>
            match row.gameScore
            case None => None
            case Some(gs) =>
              if Strip(gs) == "" then None
              else match row.dateLink
                case None => None
                case Some(d) => Some(GmscRecord(pid, name, season, Strip(d), TeamAbbr(row), g, GmscValue(gs)))
  }

  /** The records of the game rows, in table order. */
  function RowsRecords(rows: seq<LogRow>, pid: string, name: string, season: int): (r: seq<GmscRecord>)
    ensures |r| <= |rows|
    ensures forall x :: x in r <==> exists i :: 0 <= i < |rows| && LogRecord(rows[i], pid, name, season) == Some(x)
    ensures forall k :: 0 <= k < |r| ==> r[k].playerId == pid && r[k].seasonYear == season
  {
    var f := (row: LogRow) => LogRecord(row, pid, name, season);
    FilterMapContents(rows, f);
    var r := FilterMap(rows, f);
    assert forall k :: 0 <= k < |r| ==> r[k].playerId == pid && r[k].seasonYear == season by {
      forall k | 0 <= k < |r| ensures r[k].playerId == pid && r[k].seasonYear == season {
        assert r[k] in r;
        var i :| 0 <= i < |rows| && f(rows[i]) == Some(r[k]);
      }
    }
    r
  }

  /** The regular-season table, else the older one; nothing without a body. */
  function PageRecords(page: LogPage, pid: string, name: string, season: int): (r: seq<GmscRecord>)
    ensures forall k :: 0 <= k < |r| ==> r[k].playerId == pid && r[k].seasonYear == season
  {
    var table := if page.regular.Some? then page.regular else page.basic;
    match table
    case None => []
    case Some(t) =>
      match t.body
      case None => []
      case Some(rows) => RowsRecords(rows, pid, name, season)
  }

  method ParseGameLog(page: LogPage, pid: string, name: string, season: int) returns (logs: seq<GmscRecord>)
    ensures logs == PageRecords(page, pid, name, season)
  {
    var table := page.regular;
    if table.None? {
      table := page.basic;
      if table.None? {
        return [];
      }
    }
    if table.value.body.None? {
      return [];
    }
    var rows := table.value.body.value;
    logs := [];
    for i := 0 to |rows|
      invariant logs == RowsRecords(rows[..i], pid, name, season)
    {
      assert rows[..i + 1][..i] == rows[..i];
      var rec := LogRecord(rows[i], pid, name, season);
      if rec.Some? {
        logs := logs + [rec.value];
      }
    }
    assert rows[..|rows|] == rows;
  }

  // ---------------------------------------------------------------------
  // The crawl
  // ---------------------------------------------------------------------

  datatype PlayerEntry = PlayerEntry(id: string, name: string, yearMax: int)

  const Seasons: seq<int> := [2025, 2026]
  const MinYearMax: int := 2025
  const SnapshotEvery: nat := 50

  type Respond = string -> int -> nat -> Attempt<LogPage>

  function RecordPlayer(r: GmscRecord): string { r.playerId }

  function RecordKey(r: GmscRecord): (string, string) { (r.playerId, r.date) }

  function SortKey(r: GmscRecord): Key { [StrKey(r.playerId), StrKey(r.date)] }

  /** The records one season's page contributes; nothing when every attempt failed. */
  function SeasonRecords(respond: Respond, pid: string, name: string, season: int): (r: seq<GmscRecord>)
    ensures forall k :: 0 <= k < |r| ==> r[k].playerId == pid && r[k].seasonYear == season
  {
    match FetchOutcome(respond(pid)(season), Retries)
    case None => []
    case Some(page) => PageRecords(page, pid, name, season)
  }

  /** Every season up to `Year_Max + 1`, in order. */
  function SeasonsRecords(respond: Respond, p: PlayerEntry, seasons: seq<int>): (r: seq<GmscRecord>)
    ensures forall k :: 0 <= k < |r| ==> r[k].playerId == p.id && r[k].seasonYear <= p.yearMax + 1
  {
    if |seasons| == 0 then []
    else
      var last := seasons[|seasons| - 1];
      SeasonsRecords(respond, p, seasons[..|seasons| - 1]) +
      (if last <= p.yearMax + 1 then SeasonRecords(respond, p.id, p.name, last) else [])
  }

  predicate Active(p: PlayerEntry) { p.yearMax >= MinYearMax }

  /** The player is crawled: active, and not already in the output file. */
  predicate Crawled(p: PlayerEntry, ids: set<string>) { Active(p) && p.id !in ids }

  /** An active player's cut-off `Year_Max + 1` is at least 2026, so both seasons are fetched. */
  lemma ActiveFetchesBothSeasons(respond: Respond, p: PlayerEntry)
    requires Active(p)
    ensures SeasonsRecords(respond, p, Seasons) ==
      SeasonRecords(respond, p.id, p.name, 2025) + SeasonRecords(respond, p.id, p.name, 2026)
  {
    var s1 := Seasons[..1];
    assert s1 == [2025] && s1[..0] == [];
    assert SeasonsRecords(respond, p, s1) == SeasonRecords(respond, p.id, p.name, 2025);
  }

  /** The new records of the crawl, player by player in list order. */
  function Collected(respond: Respond, players: seq<PlayerEntry>, ids: set<string>): seq<GmscRecord>
  {
    if |players| == 0 then []
    else
      var p := players[|players| - 1];
      Collected(respond, players[..|players| - 1], ids) +
      (if Crawled(p, ids) then SeasonsRecords(respond, p, Seasons) else [])
  }

  /** No record is collected for a player already in `ids`. */
  lemma {:induction false} CollectedSkipsStored(respond: Respond, players: seq<PlayerEntry>, ids: set<string>)
    ensures forall k :: 0 <= k < |Collected(respond, players, ids)| ==>
      Collected(respond, players, ids)[k].playerId !in ids
  {
    if |players| > 0 {
      var p := players[|players| - 1];
      CollectedSkipsStored(respond, players[..|players| - 1], ids);
    }
  }

  function StoredIds(existing: seq<GmscRecord>): set<string>
  {
    KeySet(existing, RecordPlayer)
  }

  /**
   * The temporary saves: after each crawled player whose position in the
   * full player list is a multiple of 50 (counting from 1), the records so
   * far with duplicates dropped.
   */
  function Snapshots(respond: Respond, players: seq<PlayerEntry>, existing: seq<GmscRecord>): (r: seq<seq<GmscRecord>>)
    ensures |r| <= |players| / SnapshotEvery
    ensures forall k :: 0 <= k < |r| ==> UniqueKeys(r[k], RecordKey)
  {
    if |players| == 0 then []
    else
      var n := |players|;
      var ids := StoredIds(existing);
      Snapshots(respond, players[..n - 1], existing) +
      (if Crawled(players[n - 1], ids) && n % SnapshotEvery == 0
       then [KeepLast(existing + Collected(respond, players, ids), RecordKey)]
       else [])
  }

  /** The final save: sorted by (player, date), then the last row of each key; nothing to save when empty. */
  function FinalTable(all: seq<GmscRecord>): (r: Option<seq<GmscRecord>>)
    ensures r.None? <==> |all| == 0
    ensures r.Some? ==> UniqueKeys(r.value, RecordKey) && SortedBy(r.value, SortKey)
    ensures r.Some? ==> KeySet(r.value, RecordKey) == KeySet(all, RecordKey)
    ensures r.Some? ==> forall x :: x in r.value ==> x in all
  {
    if |all| == 0 then None
    else
      var sorted := SortBy(all, SortKey);
      KeepLastSorted(sorted, RecordKey, SortKey);
      KeySetMultiset(sorted, all, RecordKey);
      assert forall x :: x in sorted ==> x in all by {
        forall x | x in sorted ensures x in all {
          assert x in multiset(sorted);
        }
      }
      Some(KeepLast(sorted, RecordKey))
  }

  /** The season loop of one player: each season up to the cut-off, fetched then parsed. */
  method CrawlPlayer(respond: Respond, p: PlayerEntry) returns (gmsc: seq<GmscRecord>)
    ensures gmsc == SeasonsRecords(respond, p, Seasons)
  {
    gmsc := [];
    for j := 0 to |Seasons|
      invariant gmsc == SeasonsRecords(respond, p, Seasons[..j])
    {
      assert Seasons[..j + 1][..j] == Seasons[..j];
      var season := Seasons[j];
      if season <= p.yearMax + 1 {
        var response, _ := FetchGameLog(respond(p.id)(season), Retries, Delay);
        var page: seq<GmscRecord> := [];
        if response.Some? {
          page := ParseGameLog(response.value, p.id, p.name, season);
        }
        gmsc := gmsc + page;
      }
    }
    assert Seasons[..|Seasons|] == Seasons;
  }

  lemma AppendAssociative<T>(a: seq<T>, b: seq<T>, c: seq<T>)
    ensures (a + b) + c == a + (b + c)
  {
  }

  /** One more player in the list: how the collected records and the snapshots grow. */
  lemma CrawlStep(respond: Respond, players: seq<PlayerEntry>, existing: seq<GmscRecord>, i: nat)
    requires i < |players|
    ensures var ids := StoredIds(existing);
      Collected(respond, players[..i + 1], ids) == Collected(respond, players[..i], ids) +
        (if Crawled(players[i], ids) then SeasonsRecords(respond, players[i], Seasons) else [])
    ensures var ids := StoredIds(existing);
      Snapshots(respond, players[..i + 1], existing) == Snapshots(respond, players[..i], existing) +
        (if Crawled(players[i], ids) && (i + 1) % SnapshotEvery == 0
         then [KeepLast(existing + Collected(respond, players[..i + 1], ids), RecordKey)]
         else [])
  {
    assert players[..i + 1][..i] == players[..i];
  }

  method Crawl(players: seq<PlayerEntry>, existing: seq<GmscRecord>, respond: Respond)
    returns (saved: Option<seq<GmscRecord>>, snapshots: seq<seq<GmscRecord>>)
    ensures saved == FinalTable(existing + Collected(respond, players, StoredIds(existing)))
    ensures snapshots == Snapshots(respond, players, existing)
  {
    var ids := StoredIds(existing);
    var all := existing;
    snapshots := [];
    for i := 0 to |players|
      invariant all == existing + Collected(respond, players[..i], ids)
      invariant snapshots == Snapshots(respond, players[..i], existing)
    {
      var p := players[i];
      CrawlStep(respond, players, existing, i);
      ghost var prev := Collected(respond, players[..i], ids);
      if Crawled(p, ids) {
        var gmsc := CrawlPlayer(respond, p);
        AppendAssociative(existing, prev, gmsc);
        all := all + gmsc;
        if (i + 1) % SnapshotEvery == 0 {
          snapshots := snapshots + [KeepLast(all, RecordKey)];
        } else {
          assert snapshots + [] == snapshots;
        }
      } else {
        assert prev + [] == prev;
        assert snapshots + [] == snapshots;
      }
    }
    assert players[..|players|] == players;
    if |all| > 0 {
      var sorted := SortBy(all, SortKey);
      saved := Some(KeepLast(sorted, RecordKey));
    } else {
      saved := None;
    }
  }

  /**
   * Resuming: a player already in the file is never crawled again, so every
   * stored (player, date) survives and the row kept for a stored player is
   * one of the stored rows.
   */
  lemma ResumeKeepsStored(respond: Respond, players: seq<PlayerEntry>, existing: seq<GmscRecord>)
    requires |existing| > 0
    ensures FinalTable(existing + Collected(respond, players, StoredIds(existing))).Some?
    ensures var f := FinalTable(existing + Collected(respond, players, StoredIds(existing))).value;
      KeySet(existing, RecordKey) <= KeySet(f, RecordKey) &&
      forall x :: x in f && x.playerId in StoredIds(existing) ==> x in existing
  {
    var ids := StoredIds(existing);
    var added := Collected(respond, players, ids);
    var all := existing + added;
    var f := FinalTable(all).value;
    CollectedSkipsStored(respond, players, ids);
    forall k | k in KeySet(existing, RecordKey) ensures k in KeySet(all, RecordKey) {
      var i :| 0 <= i < |existing| && RecordKey(existing[i]) == k;
      assert all[i] == existing[i];
    }
    forall x | x in f && x.playerId in ids ensures x in existing {
      assert x in all;
      var i :| 0 <= i < |all| && all[i] == x;
    }
  }

  /** With every active player already stored the crawl adds nothing and saves no snapshot. */
  lemma {:induction false} NothingLeftToCrawl(respond: Respond, players: seq<PlayerEntry>, existing: seq<GmscRecord>)
    requires forall i :: 0 <= i < |players| && Active(players[i]) ==> players[i].id in StoredIds(existing)
    ensures Collected(respond, players, StoredIds(existing)) == []
    ensures Snapshots(respond, players, existing) == []
  {
    if |players| > 0 {
      var init := players[..|players| - 1];
      assert forall i :: 0 <= i < |init| ==> init[i] == players[i];
      NothingLeftToCrawl(respond, init, existing);
    }
  }
}
