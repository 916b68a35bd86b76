/**
 * The daily export: the same schedule, stats and feature vector as the
 * live predictor, a different injury rule (an unknown or zero average
 * counts as a rotation player worth 5 GmSc, and the injured names are
 * kept), a text confidence label, and one export row per game both teams
 * have stats for.
 */
module ExportPredictions {
  import opened Common
  import opened Dates
  import opened FinalDataset
  import opened BattlePredictor

  /** The value assumed for an injured player without a usable average. */
  const RotationGmsc := 5.0

  /** An injured player that counts: the name and the GmSc value charged for them. */
  datatype InjuredPlayer = InjuredPlayer(name: string, gmsc: real)

  /** The value charged for one injured player: the known average, or 5.0 when that is missing or exactly 0. */
  function ChargedGmsc(x: Injury, avg: map<string, real>): (g: real)
    ensures g != 0.0
    ensures x.playerId.Some? && x.playerId.value in avg && avg[x.playerId.value] != 0.0 ==> g == avg[x.playerId.value]
    ensures !(x.playerId.Some? && x.playerId.value in avg && avg[x.playerId.value] != 0.0) ==> g == RotationGmsc
  {
    var known := if x.playerId.Some? && x.playerId.value in avg then avg[x.playerId.value] else 0.0;
    if known == 0.0 then RotationGmsc else known
  }

  /** The players of a team's injury rows that count (a charged value above 0), in table order. */
  function Charged(rows: seq<Injury>, avg: map<string, real>): (r: seq<InjuredPlayer>)
    ensures forall k :: 0 <= k < |r| ==> r[k].gmsc > 0.0
    ensures |r| <= |rows|
  {
    if |rows| == 0 then []
    else
      var x := rows[|rows| - 1];
      var g := ChargedGmsc(x, avg);
      Charged(rows[..|rows| - 1], avg) + (if g > 0.0 then [InjuredPlayer(x.playerName, g)] else [])
  }

  function ChargedSum(ps: seq<InjuredPlayer>): real
  {
    if |ps| == 0 then 0.0 else ChargedSum(ps[..|ps| - 1]) + ps[|ps| - 1].gmsc
  }

  /** `calculate_team_injury_impact` of the export: the impact and the names that make it up. */
  function ExportInjuryImpact(injuries: seq<Injury>, team: string, avg: map<string, real>): (real, seq<InjuredPlayer>)
  {
    var ps := Charged(TeamInjuries(injuries, team), avg);
    (ChargedSum(ps) / TeamAvgGmsc, ps)
  }

  lemma ChargedStep(rows: seq<Injury>, k: nat, avg: map<string, real>)
    requires k < |rows|
    ensures var g := ChargedGmsc(rows[k], avg);
      Charged(rows[..k + 1], avg) == Charged(rows[..k], avg) + (if g > 0.0 then [InjuredPlayer(rows[k].playerName, g)] else [])
  {
    assert rows[..k + 1][..k] == rows[..k];
  }

  lemma ChargedSumSnoc(ps: seq<InjuredPlayer>, p: InjuredPlayer)
    ensures ChargedSum(ps + [p]) == ChargedSum(ps) + p.gmsc
  {
    assert (ps + [p])[..|ps|] == ps;
  }

  /** The row loop of the export's injury impact over one team's rows. */
  method ChargeRows(rows: seq<Injury>, avg: map<string, real>) returns (sum: real, names: seq<InjuredPlayer>)
    ensures names == Charged(rows, avg) && sum == ChargedSum(names)
  {
    sum := 0.0;
    names := [];
    for k := 0 to |rows|
      invariant names == Charged(rows[..k], avg) && sum == ChargedSum(names)
    {
      var x := rows[k];
      ChargedStep(rows, k, avg);
      var g := 0.0;
      if x.playerId.Some? && x.playerId.value in avg {
        g := avg[x.playerId.value];
      }
      if g == 0.0 {
        g := RotationGmsc;
      }
      assert g == ChargedGmsc(x, avg);
      if g > 0.0 {
        ChargedSumSnoc(names, InjuredPlayer(x.playerName, g));
        sum := sum + g;
        names := names + [InjuredPlayer(x.playerName, g)];
      }
    }
    assert rows[..|rows|] == rows;
  }

  method CalculateExportInjuryImpact(injuries: seq<Injury>, team: string, avg: map<string, real>) returns (impact: real, names: seq<InjuredPlayer>)
    ensures (impact, names) == ExportInjuryImpact(injuries, team, avg)
  {
    var rows := TeamInjuries(injuries, team);
    if |rows| == 0 {
      return 0.0, [];
    }
    var sum;
    sum, names := ChargeRows(rows, avg);
    impact := sum / TeamAvgGmsc;
  }

  lemma {:induction false} ChargedSumNonNegative(ps: seq<InjuredPlayer>)
    requires forall k :: 0 <= k < |ps| ==> ps[k].gmsc > 0.0
    ensures ChargedSum(ps) >= 0.0
    ensures |ps| > 0 ==> ChargedSum(ps) > 0.0
  {
    if |ps| > 0 {
      ChargedSumNonNegative(ps[..|ps| - 1]);
    }
  }

  /** Only a negative average drops an injured player; every other row is charged and listed. */
  lemma {:induction false} ChargedRows(rows: seq<Injury>, avg: map<string, real>)
    ensures |Charged(rows, avg)| == |rows| <==> forall k :: 0 <= k < |rows| ==> ChargedGmsc(rows[k], avg) > 0.0
  {
    if |rows| > 0 {
      var init := rows[..|rows| - 1];
      ChargedRows(init, avg);
      assert forall k :: 0 <= k < |init| ==> init[k] == rows[k];
    }
  }

  /**
   * No injured players means no impact and no names; otherwise the impact
   * is never negative, and a team whose injured players all have usable
   * averages (or none) has a positive impact.
   */
  lemma ExportInjuryBounds(injuries: seq<Injury>, team: string, avg: map<string, real>)
    ensures ExportInjuryImpact(injuries, team, avg).0 >= 0.0
    ensures (forall k :: 0 <= k < |injuries| ==> injuries[k].team != team) ==> ExportInjuryImpact(injuries, team, avg) == (0.0, [])
    ensures |ExportInjuryImpact(injuries, team, avg).1| > 0 ==> ExportInjuryImpact(injuries, team, avg).0 > 0.0
  {
    var rows := TeamInjuries(injuries, team);
    ChargedSumNonNegative(Charged(rows, avg));
  }

  /** The text label of the export: the live predictor's band, named. */
  function ConfidenceLabel(p: real): (s: string)
    ensures s == "High (Home)" <==> ConfidenceBand(p) == HighHome
    ensures s == "High (Away)" <==> ConfidenceBand(p) == HighAway
    ensures s == "Toss-up" <==> ConfidenceBand(p) == Neutral
  {
    match ConfidenceBand(p)
    case HighHome => "High (Home)"
    case HighAway => "High (Away)"
    case Neutral => "Toss-up"
  }

  /** One row of the exported file (rounding of the numbers is not modelled). */
  datatype ExportRow = ExportRow(date: string, home: string, away: string, homeWinProb: real, confidence: string,
                                 diffNetRtg: real, diffInjury: real, diffStreak: real,
                                 homeInjuries: seq<InjuredPlayer>, awayInjuries: seq<InjuredPlayer>)

  /** The inputs shared by every game of the day. */
  datatype Context = Context(rows: seq<MasterRow>, injuries: seq<Injury>, avg: map<string, real>, target: Date, model: seq<real> -> real)

  predicate HasDate(c: Context)
  {
    0 <= c.target.year && 0 <= c.target.month && 0 <= c.target.day
  }

  /** The export row of one scheduled game, nothing when either team has no earlier game. */
  function GameRow(c: Context, game: (string, string)): Option<ExportRow>
    requires HasDate(c)
  {
    var hs, as_ := GetStats(c.rows, game.0, c.target), GetStats(c.rows, game.1, c.target);
    if hs.None? || as_.None? then None
    else Some(Exported(c, game, hs.value, as_.value, ExportInjuryImpact(c.injuries, game.0, c.avg), ExportInjuryImpact(c.injuries, game.1, c.avg)))
  }

  /** The row built from both teams' stats and injury impacts. */
  function Exported(c: Context, game: (string, string), hs: (TeamStats, Date), as_: (TeamStats, Date),
                    hInj: (real, seq<InjuredPlayer>), aInj: (real, seq<InjuredPlayer>)): ExportRow
    requires HasDate(c)
  {
    var h, a := hs.0, as_.0;
    var p := c.model(FeatureVector(h, hs.1, a, as_.1, c.target, hInj.0, aInj.0));
    ExportRow(IsoDate(c.target), game.0, game.1, p, ConfidenceLabel(p),
              h.netRtg - a.netRtg, hInj.0 - aInj.0, h.streak - a.streak, hInj.1, aInj.1)
  }

  /** The body of the game loop: both teams' stats, both injury impacts, the prediction. */
  method ExportGame(c: Context, game: (string, string)) returns (row: Option<ExportRow>)
    requires HasDate(c)
    ensures row == GameRow(c, game)
  {
    var hs := GetStats(c.rows, game.0, c.target);
    var as_ := GetStats(c.rows, game.1, c.target);
    if hs.None? || as_.None? {
      return None;
    }
    var hImpact, hNames := CalculateExportInjuryImpact(c.injuries, game.0, c.avg);
    var aImpact, aNames := CalculateExportInjuryImpact(c.injuries, game.1, c.avg);
    row := Some(Exported(c, game, hs.value, as_.value, (hImpact, hNames), (aImpact, aNames)));
  }

  /** The game loop of the export. */
  method ExportGames(c: Context, games: seq<(string, string)>) returns (exported: seq<ExportRow>)
    requires HasDate(c)
    ensures exported == FilterMap(games, g => GameRow(c, g))
  {
    exported := [];
    for k := 0 to |games|
      invariant exported == FilterMap(games[..k], g => GameRow(c, g))
    {
      FilterMapStep(games, k, g => GameRow(c, g));
      var row := ExportGame(c, games[k]);
      if row.Some? {
        exported := exported + [row.value];
      }
    }
    assert games[..|games|] == games;
  }

  /**
   * Every exported row carries the target day and a scheduled pair, and
   * a scheduled game is exported exactly when both teams have an earlier
   * game.
   */
  lemma ExportRowsSpec(c: Context, games: seq<(string, string)>)
    requires HasDate(c)
    ensures forall x: ExportRow :: x in FilterMap(games, g => GameRow(c, g)) ==>
      x.date == IsoDate(c.target) && (x.home, x.away) in games && x.confidence == ConfidenceLabel(x.homeWinProb)
    ensures forall k :: 0 <= k < |games| ==>
      (GameRow(c, games[k]).Some? <==> GetStats(c.rows, games[k].0, c.target).Some? && GetStats(c.rows, games[k].1, c.target).Some?)
  {
    var f := g => GameRow(c, g);
    FilterMapContents(games, f);
    forall x: ExportRow | x in FilterMap(games, f)
      ensures x.date == IsoDate(c.target) && (x.home, x.away) in games && x.confidence == ConfidenceLabel(x.homeWinProb)
    {
      var i :| 0 <= i < |games| && f(games[i]) == Some(x);
      GameRowShape(c, games[i]);
    }
    forall k | 0 <= k < |games|
      ensures GameRow(c, games[k]).Some? <==> GetStats(c.rows, games[k].0, c.target).Some? && GetStats(c.rows, games[k].1, c.target).Some?
    {
      GameRowExists(c, games[k]);
    }
  }

  lemma GameRowShape(c: Context, game: (string, string))
    requires HasDate(c)
    ensures GameRow(c, game).Some? ==> var x := GameRow(c, game).value;
      x.date == IsoDate(c.target) && (x.home, x.away) == game && x.confidence == ConfidenceLabel(x.homeWinProb)
  {
  }

  lemma GameRowExists(c: Context, game: (string, string))
    requires HasDate(c)
    ensures GameRow(c, game).Some? <==> GetStats(c.rows, game.0, c.target).Some? && GetStats(c.rows, game.1, c.target).Some?
  {
  }

  /**
   * What an export row holds: the pair and the day, the classifier's
   * probability for the feature vector of both teams' latest earlier games
   * and export injury impacts, its label, the net-rating, injury and streak
   * differences read from that same vector, and both teams' charged names.
   */
  ghost predicate FromLatestGames(c: Context, game: (string, string), x: ExportRow)
    requires HasDate(c)
  {
    LastGameBefore(c.rows, game.0, c.target).Some? && LastGameBefore(c.rows, game.1, c.target).Some? &&
    var gh, ga := LastGameBefore(c.rows, game.0, c.target).value, LastGameBefore(c.rows, game.1, c.target).value;
    var hi, ai := ExportInjuryImpact(c.injuries, game.0, c.avg), ExportInjuryImpact(c.injuries, game.1, c.avg);
    var v := FeatureVector(StatsFrom(gh, game.0), gh.date, StatsFrom(ga, game.1), ga.date, c.target, hi.0, ai.0);
    x.date == IsoDate(c.target) && x.home == game.0 && x.away == game.1 &&
    x.homeWinProb == c.model(v) && x.confidence == ConfidenceLabel(x.homeWinProb) &&
    x.diffNetRtg == v[FeatureIndex(NetRtg)] && x.diffInjury == v[InjuryIndex] && x.diffStreak == v[FeatureIndex(StreakLen)] &&
    x.homeInjuries == hi.1 && x.awayInjuries == ai.1
  }

  /** A game's export row, when there is one, is built from both teams' latest earlier games. */
  lemma GameRowValues(c: Context, game: (string, string))
    requires HasDate(c)
    ensures GameRow(c, game).Some? ==> FromLatestGames(c, game, GameRow(c, game).value)
  {
    var hs, as_ := GetStats(c.rows, game.0, c.target), GetStats(c.rows, game.1, c.target);
    if hs.Some? && as_.Some? {
      var gh, ga := LastGameBefore(c.rows, game.0, c.target).value, LastGameBefore(c.rows, game.1, c.target).value;
      assert hs.value == (StatsFrom(gh, game.0), gh.date) && as_.value == (StatsFrom(ga, game.1), ga.date);
      var hi, ai := ExportInjuryImpact(c.injuries, game.0, c.avg), ExportInjuryImpact(c.injuries, game.1, c.avg);
      var h, a := hs.value.0, as_.value.0;
      var v := FeatureVector(h, gh.date, a, ga.date, c.target, hi.0, ai.0);
      assert v[FeatureIndex(NetRtg)] == h.netRtg - a.netRtg && v[FeatureIndex(StreakLen)] == h.streak - a.streak;
      var x := Exported(c, game, hs.value, as_.value, hi, ai);
      assert GameRow(c, game) == Some(x);
    }
  }

  /** Every exported row is the row of one scheduled game, built from both teams' latest earlier games. */
  lemma ExportRowValues(c: Context, games: seq<(string, string)>)
    requires HasDate(c)
    ensures var out := FilterMap(games, g => GameRow(c, g));
      forall j :: 0 <= j < |out| ==> exists k :: 0 <= k < |games| && FromLatestGames(c, games[k], out[j])
  {
    var f := g => GameRow(c, g);
    var out := FilterMap(games, f);
    FilterMapContents(games, f);
    forall j | 0 <= j < |out|
      ensures exists k :: 0 <= k < |games| && FromLatestGames(c, games[k], out[j])
    {
      assert out[j] in out;
      var k :| 0 <= k < |games| && f(games[k]) == Some(out[j]);
      GameRowValues(c, games[k]);
    }
  }

  /** `predictions_<target>.csv`, written only when some game was exported. */
  function OutputFile(target: Date, exported: seq<ExportRow>): (name: Option<string>)
    requires 0 <= target.year && 0 <= target.month && 0 <= target.day
    ensures name.Some? <==> |exported| > 0
    ensures name.Some? ==> |name.value| == 26 && name.value[..12] == "predictions_" && name.value[12..22] == IsoDate(target) && name.value[22..] == ".csv"
  {
    if |exported| == 0 then None else Some("predictions_" + IsoDate(target) + ".csv")
  }
}
