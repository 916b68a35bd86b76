/**
 * The training table built from the feature frame: the injury impact of
 * each team row (the season averages of its absent players over a team
 * total of 80), then every Home row joined with the Away row of the same
 * game, its features repeated with the `Opp_` prefix and twelve
 * `Diff_` columns (home value minus opponent value).
 */
module FinalDataset {
  import opened Common
  import opened Dates
  import opened Ordering
  import opened Rolling
  import opened Cells
  import opened Dedup
  import opened Joins
  import opened GmscCumulative
  import opened FeatureFrame

  // ---------------------------------------------------------------------
  // Season-average GmSc of every player
  // ---------------------------------------------------------------------

  function PlayerOrder(r: CumulativeRow): Key
  {
    [StrKey(r.playerId), DateKey(r.date)]
  }

  function PlayerKeys(ps: seq<CumulativeRow>): (r: seq<(string, int)>)
    ensures |r| == |ps| && forall i :: 0 <= i < |ps| ==> r[i] == (ps[i].playerId, ps[i].seasonYear)
  {
    seq(|ps|, i requires 0 <= i < |ps| => (ps[i].playerId, ps[i].seasonYear))
  }

  /**
   * `Before_Game_Player_GmSc / games_played.shift(1).fillna(1)`: the shift
   * runs over the whole frame, so it divides by the previous row's count.
   */
  function PlayerAvg(ps: seq<CumulativeRow>, i: nat): real
    requires i < |ps|
  {
    var count := CountColumn(PlayerKeys(ps));
    var d := if i == 0 then 1.0 else count[i - 1];
    ps[i].beforeGmsc / d
  }

  /**
   * Inside a player-season the divisor is the number of earlier games, so
   * the value is the player's average GmSc before the game; at a group's
   * first game the before-game total is 0, and so is the average.
   */
  lemma PlayerAvgPerGame(ps: seq<CumulativeRow>, i: nat)
    requires i < |ps|
    ensures 0 < i && PlayerKeys(ps)[i - 1] == PlayerKeys(ps)[i] ==>
      PriorCount(PlayerKeys(ps), i) > 0 && PlayerAvg(ps, i) * (PriorCount(PlayerKeys(ps), i) as real) == ps[i].beforeGmsc
    ensures ps[i].beforeGmsc == 0.0 ==> PlayerAvg(ps, i) == 0.0
  {
    var keys := PlayerKeys(ps);
    if 0 < i && keys[i - 1] == keys[i] {
      assert GroupPrev(keys, i) == Some(i - 1);
      PriorStep(keys, keys, i, i - 1);
    }
  }

  function PlayerAvgColumn(ps: seq<CumulativeRow>): (r: seq<real>)
    ensures |r| == |ps| && forall i :: 0 <= i < |ps| ==> r[i] == PlayerAvg(ps, i)
  {
    seq(|ps|, i requires 0 <= i < |ps| => PlayerAvg(ps, i))
  }

  function SeasonName(r: CumulativeRow): (int, string)
  {
    (r.seasonYear, r.playerName)
  }

  function SeasonNames(ps: seq<CumulativeRow>): (r: seq<(int, string)>)
    ensures |r| == |ps| && forall i :: 0 <= i < |ps| ==> r[i] == SeasonName(ps[i])
  {
    seq(|ps|, i requires 0 <= i < |ps| => SeasonName(ps[i]))
  }

  /** The keys that occur. */
  function Present<K>(keys: seq<K>): set<K>
  {
    set i | 0 <= i < |keys| :: keys[i]
  }

  /** The mean of the values of key k's rows, 0 when it has none. */
  function GroupMean<K(==)>(vals: seq<real>, keys: seq<K>, k: K): real
    requires |vals| == |keys|
  {
    OrElse(Mean(GroupValuesBefore(vals, keys, k, |keys|)), 0.0)
  }

  /** `groupby(keys)[vals].mean()`: one entry per key that occurs, the mean of its rows. */
  function GroupMeans<K(==)>(vals: seq<real>, keys: seq<K>): map<K, real>
    requires |vals| == |keys|
  {
    map k | k in Present(keys) :: GroupMean(vals, keys, k)
  }

  lemma {:induction false} GroupValuesBeforeNonEmpty<V, K>(vals: seq<V>, keys: seq<K>, k: K, j: nat, n: nat)
    requires |vals| == |keys| && j < n <= |keys| && keys[j] == k
    ensures |GroupValuesBefore(vals, keys, k, n)| > 0
    decreases n
  {
    if j < n - 1 {
      GroupValuesBeforeNonEmpty(vals, keys, k, j, n - 1);
    }
  }

  /** The map has an entry exactly for the keys that occur, and each entry is the mean of the key's (non-empty) group. */
  lemma GroupMeansEntries<K>(vals: seq<real>, keys: seq<K>, k: K)
    requires |vals| == |keys|
    ensures k in GroupMeans(vals, keys) <==> exists i :: 0 <= i < |keys| && keys[i] == k
    ensures k in GroupMeans(vals, keys) ==>
      Mean(GroupValuesBefore(vals, keys, k, |keys|)).Some? && GroupMeans(vals, keys)[k] == Mean(GroupValuesBefore(vals, keys, k, |keys|)).value
  {
    if k in Present(keys) {
      var j :| 0 <= j < |keys| && keys[j] == k;
      GroupValuesBeforeNonEmpty(vals, keys, k, j, |keys|);
    }
    if exists i :: 0 <= i < |keys| && keys[i] == k {
      var i :| 0 <= i < |keys| && keys[i] == k;
      assert k in Present(keys);
    }
  }

  /** `groupby(['Season_Year', 'Player_Name'])['Before_Game_Player_Avg_GmSc'].mean().to_dict()`. */
  function AvgBySeason(players: seq<CumulativeRow>): map<(int, string), real>
  {
    var ps := SortBy(players, PlayerOrder);
    GroupMeans(PlayerAvgColumn(ps), SeasonNames(ps))
  }

  /** A (season, name) has an entry exactly when some player row carries it. */
  lemma AvgBySeasonKeys(players: seq<CumulativeRow>, k: (int, string))
    ensures k in AvgBySeason(players) <==> exists i :: 0 <= i < |players| && SeasonName(players[i]) == k
  {
    var ps := SortBy(players, PlayerOrder);
    var names := SeasonNames(ps);
    GroupMeansEntries(PlayerAvgColumn(ps), names, k);
    KeySetMultiset(ps, players, SeasonName);
    if exists i :: 0 <= i < |players| && SeasonName(players[i]) == k {
      var i :| 0 <= i < |players| && SeasonName(players[i]) == k;
      assert k in KeySet(players, SeasonName);
      var j :| 0 <= j < |ps| && SeasonName(ps[j]) == k;
      assert names[j] == k;
    }
    if k in AvgBySeason(players) {
      var j :| 0 <= j < |names| && names[j] == k;
      assert k in KeySet(ps, SeasonName);
    }
  }

  // ---------------------------------------------------------------------
  // Injury impact
  // ---------------------------------------------------------------------

  const TeamAvgGmsc: real := 80.0

  /** The season averages of the named players, unknown names counting nothing. */
  function MissingGmsc(names: seq<string>, season: int, avg: map<(int, string), real>): real
  {
    if |names| == 0 then 0.0
    else
      var last := names[|names| - 1];
      MissingGmsc(names[..|names| - 1], season, avg) + (if (season, last) in avg then avg[(season, last)] else 0.0)
  }

  function DnpNames(dnp: string): seq<string>
  {
    StripAll(Split(dnp, ','))
  }

  /** `calculate_injury_impact_fast`: 0 with no absent players. */
  function InjuryImpact(dnp: Option<string>, season: int, avg: map<(int, string), real>): real
  {
    if dnp.None? || dnp.value == "" then 0.0
    else MissingGmsc(DnpNames(dnp.value), season, avg) / TeamAvgGmsc
  }

  lemma MissingGmscStep(names: seq<string>, k: nat, season: int, avg: map<(int, string), real>)
    requires k < |names|
    ensures MissingGmsc(names[..k + 1], season, avg) ==
      MissingGmsc(names[..k], season, avg) + (if (season, names[k]) in avg then avg[(season, names[k])] else 0.0)
  {
    assert names[..k + 1][..k] == names[..k];
  }

  /** The loop of `calculate_injury_impact_fast`, accumulating the known averages. */
  method CalculateInjuryImpact(dnp: Option<string>, season: int, avg: map<(int, string), real>) returns (impact: real)
    ensures impact == InjuryImpact(dnp, season, avg)
  {
    if dnp.None? || dnp.value == "" {
      return 0.0;
    }
    var names := DnpNames(dnp.value);
    var total := 0.0;
    for k := 0 to |names|
      invariant total == MissingGmsc(names[..k], season, avg)
    {
      var key := (season, names[k]);
      MissingGmscStep(names, k, season, avg);
      if key in avg {
        total := total + avg[key];
      }
    }
    assert names[..|names|] == names;
    impact := total / TeamAvgGmsc;
  }

  lemma {:induction false} MissingGmscAppend(a: seq<string>, b: seq<string>, season: int, avg: map<(int, string), real>)
    ensures MissingGmsc(a + b, season, avg) == MissingGmsc(a, season, avg) + MissingGmsc(b, season, avg)
  {
    if |b| == 0 {
      assert a + b == a;
    } else {
      assert (a + b)[..|a + b| - 1] == a + b[..|b| - 1];
      MissingGmscAppend(a, b[..|b| - 1], season, avg);
    }
  }

  /** Names with no entry for the season contribute nothing. */
  lemma {:induction false} MissingGmscUnknown(names: seq<string>, season: int, avg: map<(int, string), real>)
    requires forall k :: 0 <= k < |names| ==> (season, names[k]) !in avg
    ensures MissingGmsc(names, season, avg) == 0.0
  {
    if |names| > 0 {
      MissingGmscUnknown(names[..|names| - 1], season, avg);
    }
  }

  /**
   * The absent players as the box-score parser stores them (names joined
   * with ", ") are read back one by one: the impact is the sum of their
   * season averages over 80.
   */
  lemma InjuryImpactOfNames(names: seq<string>, season: int, avg: map<(int, string), real>)
    requires |names| > 0 && CleanNames(names) && Join(", ", names) != ""
    ensures InjuryImpact(Some(Join(", ", names)), season, avg) == MissingGmsc(names, season, avg) / TeamAvgGmsc
  {
    SplitJoinRoundTrip(names);
  }

  // ---------------------------------------------------------------------
  // The full team table
  // ---------------------------------------------------------------------

  datatype FeatureSet = FeatureSet(base: BaseFeatures, h2hWinPctL5: real, h2hAvgMarginL5: real, injuryImpact: real)

  datatype FeatureRow = FeatureRow(row: TeamRow, f: FeatureSet)

  /**
   * The frame after the head-to-head pass, in (team, opponent, date) order,
   * with the injury impact of each row.
   */
  function FeatureTable(games: seq<RawGame>, players: seq<CumulativeRow>, b: Build): seq<FeatureRow>
  {
    var f2 := SortBy(Framed(TeamFrame(games), b), TeamOpponentOrder);
    var avg := AvgBySeason(players);
    seq(|f2|, p requires 0 <= p < |f2| =>
      FeatureRow(f2[p].row, FeatureSet(f2[p].base, H2hWinPct(f2, p, b), H2hAvgMargin(f2, p, b),
                                       InjuryImpact(f2[p].row.dnp, f2[p].row.seasonYear, avg))))
  }

  // ---------------------------------------------------------------------
  // Home joined with Away, and the differences
  // ---------------------------------------------------------------------

  /** The twelve paired columns that get a `Diff_` column. */
  datatype Feature = HomeRecord | AwayRecord | RestDays | Streak | LastFiveWins | LastFiveMargin
                   | LastTenWins | CsLastFiveWins | CsLastFiveMargin | H2hWins | H2hMargin | InjuryLoad

  const DiffFeatures: seq<Feature> :=
    [HomeRecord, AwayRecord, RestDays, Streak, LastFiveWins, LastFiveMargin,
     LastTenWins, CsLastFiveWins, CsLastFiveMargin, H2hWins, H2hMargin, InjuryLoad]

  /** The column value; the `CS_` columns are copies of the last-5 columns. */
  function Value(f: FeatureSet, x: Feature): real
  {
    match x
    case HomeRecord => f.base.homeWinPct
    case AwayRecord => f.base.awayWinPct
    case RestDays => f.base.daysSinceLastGame as real
    case Streak => f.base.streak as real
    case LastFiveWins => f.base.winPctL5
    case LastFiveMargin => f.base.avgMarginL5
    case LastTenWins => f.base.winPctL10
    case CsLastFiveWins => f.base.winPctL5
    case CsLastFiveMargin => f.base.avgMarginL5
    case H2hWins => f.h2hWinPctL5
    case H2hMargin => f.h2hAvgMarginL5
    case InjuryLoad => f.injuryImpact
  }

  function DiffMap(f: FeatureSet, opp: FeatureSet): map<Feature, real>
  {
    map x | x in DiffFeatures :: Value(f, x) - Value(opp, x)
  }

  /** The `for new_col, home_col, opp_col in diff_cols` loop for one row. */
  method AddDiffs(f: FeatureSet, opp: FeatureSet) returns (diffs: map<Feature, real>)
    ensures diffs == DiffMap(f, opp)
    ensures forall x :: x in diffs <==> x in DiffFeatures
    ensures forall x :: x in diffs ==> diffs[x] == Value(f, x) - Value(opp, x)
  {
    diffs := map[];
    for k := 0 to |DiffFeatures|
      invariant diffs == map x | x in DiffFeatures[..k] :: Value(f, x) - Value(opp, x)
    {
      var x := DiffFeatures[k];
      diffs := diffs[x := Value(f, x) - Value(opp, x)];
      assert DiffFeatures[..k + 1] == DiffFeatures[..k] + [x];
    }
    assert DiffFeatures[..|DiffFeatures|] == DiffFeatures;
  }

  /** One output row: the Home row, the away team as `Opp_Abbr`, its features as `Opp_*`, and the differences. */
  datatype FinalRow = FinalRow(row: TeamRow, f: FeatureSet, oppAbbr: string, opp: FeatureSet, diffs: map<Feature, real>)

  function Combine(h: FeatureRow, a: FeatureRow): FinalRow
  {
    FinalRow(h.row, h.f, a.row.team, a.f, DiffMap(h.f, a.f))
  }

  function GameIdOf(x: FeatureRow): string
  {
    x.row.gameId
  }

  function AtHome(x: FeatureRow): Option<FeatureRow>
  {
    if x.row.location == Home then Some(x) else None
  }

  function AtAway(x: FeatureRow): Option<FeatureRow>
  {
    if x.row.location == Away then Some(x) else None
  }

  /** `create_final_dataset_v108`: the saved table. */
  function FinalTable(games: seq<RawGame>, players: seq<CumulativeRow>, b: Build): seq<FinalRow>
  {
    var t := FeatureTable(games, players, b);
    InnerJoin(FilterMap(t, AtHome), FilterMap(t, AtAway), GameIdOf, GameIdOf, Combine)
  }

  /** A Home row and an Away row of the feature table that share a game id. */
  ghost predicate PairedInTable(t: seq<FeatureRow>, x: FinalRow)
  {
    exists h, a :: h in t && a in t && h.row.location == Home && a.row.location == Away &&
      h.row.gameId == a.row.gameId && x == Combine(h, a)
  }

  /**
   * Every output row pairs a Home row with an Away row of the same game,
   * and every such pair gives an output row; each `Diff_X` is `X - Opp_X`.
   */
  lemma FinalRowsArePairs(t: seq<FeatureRow>)
    ensures forall x :: x in InnerJoin(FilterMap(t, AtHome), FilterMap(t, AtAway), GameIdOf, GameIdOf, Combine) ==>
      PairedInTable(t, x)
    ensures forall h, a :: h in t && a in t && h.row.location == Home && a.row.location == Away && h.row.gameId == a.row.gameId ==>
      Combine(h, a) in InnerJoin(FilterMap(t, AtHome), FilterMap(t, AtAway), GameIdOf, GameIdOf, Combine)
  {
    var hs, as_ := FilterMap(t, AtHome), FilterMap(t, AtAway);
    FilterMapContents(t, AtHome);
    FilterMapContents(t, AtAway);
    InnerJoinSound(hs, as_, GameIdOf, GameIdOf, Combine);
    forall x | x in InnerJoin(hs, as_, GameIdOf, GameIdOf, Combine) ensures PairedInTable(t, x) {
      assert JoinedRow(hs, as_, GameIdOf, GameIdOf, Combine, x);
      var i, j :| 0 <= i < |hs| && 0 <= j < |as_| && GameIdOf(hs[i]) == GameIdOf(as_[j]) && x == Combine(hs[i], as_[j]);
      assert hs[i] in hs && as_[j] in as_;
      var p :| 0 <= p < |t| && AtHome(t[p]) == Some(hs[i]);
      var q :| 0 <= q < |t| && AtAway(t[q]) == Some(as_[j]);
      assert t[p] == hs[i] && t[q] == as_[j];
    }
    forall h, a | h in t && a in t && h.row.location == Home && a.row.location == Away && h.row.gameId == a.row.gameId
      ensures Combine(h, a) in InnerJoin(hs, as_, GameIdOf, GameIdOf, Combine)
    {
      var p :| 0 <= p < |t| && t[p] == h;
      var q :| 0 <= q < |t| && t[q] == a;
      assert AtHome(t[p]) == Some(h) && AtAway(t[q]) == Some(a);
      assert h in hs && a in as_;
      var i :| 0 <= i < |hs| && hs[i] == h;
      var j :| 0 <= j < |as_| && as_[j] == a;
    }
  }
}
