/**
 * The odds step: pick the newest prediction file, fetch the betting page
 * of the following day (the page is on Taiwan time), group its rows by
 * game id, read the away and home team names and decimal odds of each
 * game, and save them under the prediction's own date.
 */
module Odds {
  import opened Common
  import opened Dates
  import opened ExportPredictions
  import Cells

  // ---------------------------------------------------------------------
  // Team names
  // ---------------------------------------------------------------------

  /** The betting site's Chinese team names, several aliases for some teams. */
  const TeamMap: map<string, string> := map[
    "老鷹" := "ATL", "塞爾提克" := "BOS", "塞爾提" := "BOS",
    "籃網" := "BRK", "黃蜂" := "CHO",
    "公牛" := "CHI", "騎士" := "CLE", "獨行俠" := "DAL", "金塊" := "DEN",
    "活塞" := "DET", "勇士" := "GSW", "火箭" := "HOU", "溜馬" := "IND",
    "快艇" := "LAC", "湖人" := "LAL", "灰熊" := "MEM", "熱火" := "MIA",
    "公鹿" := "MIL", "灰狼" := "MIN", "鵜鶘" := "NOP", "尼克" := "NYK",
    "雷霆" := "OKC", "魔術" := "ORL", "76人" := "PHI", "七六人" := "PHI",
    "太陽" := "PHO", "拓荒者" := "POR", "拓荒" := "POR",
    "國王" := "SAC", "馬刺" := "SAS", "暴龍" := "TOR",
    "爵士" := "UTA", "巫師" := "WAS"]

  const Unknown := "UNKNOWN"

  /** `TEAM_MAP.get(name, "UNKNOWN")`: a listed name gives its three-letter code, any other name "UNKNOWN". */
  function MapTeam(name: string): (abbr: string)
    ensures name in TeamMap ==> abbr == TeamMap[name] && |abbr| == 3
    ensures name !in TeamMap <==> abbr == Unknown
  {
    if name in TeamMap then TeamMap[name] else Unknown
  }

  // ---------------------------------------------------------------------
  // Page rows and their grouping by game
  // ---------------------------------------------------------------------

  /**
   * One `tr` with a game id: the stripped texts of the links in its team
   * cell (when it has one) and the text of its odds cell (when it has one).
   */
  datatype PageRow = PageRow(gameId: string, teamLinks: Option<seq<string>>, betText: Option<string>)

  /** The game ids in order of first appearance (the key order of the grouping dictionary). */
  function GameIds(rows: seq<PageRow>): seq<string>
  {
    if |rows| == 0 then []
    else
      var ids := GameIds(rows[..|rows| - 1]);
      if rows[|rows| - 1].gameId in ids then ids else ids + [rows[|rows| - 1].gameId]
  }

  /** The rows of one game, in page order. */
  function GroupOf(rows: seq<PageRow>, g: string): seq<PageRow>
  {
    if |rows| == 0 then []
    else GroupOf(rows[..|rows| - 1], g) + (if rows[|rows| - 1].gameId == g then [rows[|rows| - 1]] else [])
  }

  /** A game id is listed exactly when some row carries it; a game's rows are rows of the page with its id. */
  lemma {:induction false} GroupingContents(rows: seq<PageRow>, g: string)
    ensures g in GameIds(rows) <==> exists i :: 0 <= i < |rows| && rows[i].gameId == g
    ensures forall x :: x in GroupOf(rows, g) ==> x in rows && x.gameId == g
  {
    if |rows| > 0 {
      var init := rows[..|rows| - 1];
      GroupingContents(init, g);
      assert forall i :: 0 <= i < |init| ==> init[i] == rows[i];
    }
  }

  predicate Distinct(ids: seq<string>)
  {
    forall i, j :: 0 <= i < j < |ids| ==> ids[i] != ids[j]
  }

  /** Each game id appears once, and a listed game has at least one row. */
  lemma {:induction false} GameIdsProperties(rows: seq<PageRow>)
    ensures Distinct(GameIds(rows))
    ensures forall g :: g in GameIds(rows) ==> |GroupOf(rows, g)| > 0
    ensures forall g :: g !in GameIds(rows) ==> GroupOf(rows, g) == []
  {
    if |rows| > 0 {
      GameIdsProperties(rows[..|rows| - 1]);
    }
  }

  lemma GroupStep(rows: seq<PageRow>, k: nat, g: string)
    requires k < |rows|
    ensures GroupOf(rows[..k + 1], g) == GroupOf(rows[..k], g) + (if rows[k].gameId == g then [rows[k]] else [])
    ensures GameIds(rows[..k + 1]) == if rows[k].gameId in GameIds(rows[..k]) then GameIds(rows[..k]) else GameIds(rows[..k]) + [rows[k].gameId]
  {
    assert rows[..k + 1][..k] == rows[..k];
  }

  ghost predicate Grouped(rows: seq<PageRow>, ids: seq<string>, groups: map<string, seq<PageRow>>)
  {
    ids == GameIds(rows) && (forall g :: g in groups <==> g in ids) && forall g :: g in groups ==> groups[g] == GroupOf(rows, g)
  }

  /** One more row appended to its game's list (a new list when the game is new). */
  lemma GroupedStep(rows: seq<PageRow>, k: nat, ids: seq<string>, groups: map<string, seq<PageRow>>)
    requires k < |rows| && Grouped(rows[..k], ids, groups)
    ensures var gid := rows[k].gameId;
      Grouped(rows[..k + 1], if gid in groups then ids else ids + [gid],
              groups[gid := (if gid in groups then groups[gid] else []) + [rows[k]]])
  {
    var gid := rows[k].gameId;
    var ids' := if gid in groups then ids else ids + [gid];
    var groups' := groups[gid := (if gid in groups then groups[gid] else []) + [rows[k]]];
    GroupStep(rows, k, gid);
    assert ids' == GameIds(rows[..k + 1]);
    assert forall g :: g in groups' <==> g in ids';
    if gid !in groups {
      GameIdsProperties(rows[..k]);
      assert GroupOf(rows[..k], gid) == [];
    }
    assert groups'[gid] == GroupOf(rows[..k + 1], gid);
    OtherGroupsUnchanged(rows, k);
    assert forall g :: g in groups' && g != gid ==> groups'[g] == groups[g] == GroupOf(rows[..k + 1], g);
  }

  /** A row leaves the other games' lists as they were. */
  lemma OtherGroupsUnchanged(rows: seq<PageRow>, k: nat)
    requires k < |rows|
    ensures forall g :: g != rows[k].gameId ==> GroupOf(rows[..k + 1], g) == GroupOf(rows[..k], g)
  {
    forall g | g != rows[k].gameId ensures GroupOf(rows[..k + 1], g) == GroupOf(rows[..k], g) {
      GroupStep(rows, k, g);
    }
  }

  /** The grouping loop: `games_dict[gid].append(row)`. */
  method GroupRows(rows: seq<PageRow>) returns (ids: seq<string>, groups: map<string, seq<PageRow>>)
    ensures ids == GameIds(rows)
    ensures forall g :: g in groups <==> g in ids
    ensures forall g :: g in groups ==> groups[g] == GroupOf(rows, g)
  {
    ids, groups := [], map[];
    for k := 0 to |rows|
      invariant Grouped(rows[..k], ids, groups)
    {
      var row := rows[k];
      GroupedStep(rows, k, ids, groups);
      if row.gameId !in groups {
        groups := groups[row.gameId := []];
        ids := ids + [row.gameId];
      }
      groups := groups[row.gameId := groups[row.gameId] + [row]];
    }
    assert rows[..|rows|] == rows;
  }

  // ---------------------------------------------------------------------
  // Team names of one game
  // ---------------------------------------------------------------------

  function Links(r: PageRow): seq<string>
  {
    if r.teamLinks.None? then [] else r.teamLinks.value
  }

  /** The link texts that are known team names, in order. */
  function KnownNames(links: seq<string>): seq<string>
  {
    if |links| == 0 then []
    else KnownNames(links[..|links| - 1]) + (if links[|links| - 1] in TeamMap then [links[|links| - 1]] else [])
  }

  lemma {:induction false} KnownNamesContents(links: seq<string>)
    ensures forall n :: n in KnownNames(links) <==> n in links && n in TeamMap
  {
    if |links| > 0 {
      var init := links[..|links| - 1];
      KnownNamesContents(init);
      assert forall i :: 0 <= i < |init| ==> init[i] == links[i];
      assert links == init + [links[|links| - 1]];
    }
  }

  /** The loop collecting `teams_in_away_row`. */
  method CollectKnownNames(r: PageRow) returns (names: seq<string>)
    ensures names == KnownNames(Links(r))
  {
    names := [];
    if r.teamLinks.None? {
      return;
    }
    var links := r.teamLinks.value;
    for k := 0 to |links|
      invariant names == KnownNames(links[..k])
    {
      assert links[..k + 1][..k] == links[..k];
      if links[k] in TeamMap {
        names := names + [links[k]];
      }
    }
    assert links[..|links|] == links;
  }

  /** `extract_team_name`: the first link text that is a known name. */
  function FirstKnown(links: seq<string>): Option<string>
  {
    if |links| == 0 then None
    else if links[0] in TeamMap then Some(links[0])
    else FirstKnown(links[1..])
  }

  /** The first known name is the head of the known names. */
  lemma {:induction false} FirstKnownIsFirst(links: seq<string>)
    ensures FirstKnown(links) == if |KnownNames(links)| == 0 then None else Some(KnownNames(links)[0])
  {
    if |links| > 0 {
      FirstKnownIsFirst(links[1..]);
      KnownNamesCons(links[0], links[1..]);
      assert links == [links[0]] + links[1..];
    }
  }

  lemma {:induction false} KnownNamesCons(x: string, xs: seq<string>)
    ensures KnownNames([x] + xs) == (if x in TeamMap then [x] else []) + KnownNames(xs)
  {
    if |xs| > 0 {
      var l := [x] + xs;
      assert l[..|l| - 1] == [x] + xs[..|xs| - 1];
      KnownNamesCons(x, xs[..|xs| - 1]);
    } else {
      assert [x] + xs == [x];
      assert [x][..0] == [];
    }
  }

  /**
   * The away and home names: the first two known names of the first row
   * when it has two, otherwise the first known name of each row.
   */
  function TeamNames(away: PageRow, home: PageRow): (r: (Option<string>, Option<string>))
    ensures var both, second := KnownNames(Links(away)), KnownNames(Links(home));
      if |both| >= 2 then r == (Some(both[0]), Some(both[1]))
      else r.0 == (if |both| == 0 then None else Some(both[0])) &&
           r.1 == (if |second| == 0 then None else Some(second[0]))
  {
    FirstKnownIsFirst(Links(away));
    FirstKnownIsFirst(Links(home));
    var both := KnownNames(Links(away));
    if |both| >= 2 then (Some(both[0]), Some(both[1]))
    else (FirstKnown(Links(away)), FirstKnown(Links(home)))
  }

  // ---------------------------------------------------------------------
  // Odds: the last match of `[-+]?\d*\.\d+|\d+`
  // ---------------------------------------------------------------------

  predicate IsSign(c: char) { c == '+' || c == '-' }

  /** The end of the run of digits starting at `i`. */
  function DigitRun(s: string, i: nat): (j: nat)
    requires i <= |s|
    ensures i <= j <= |s| && AllDigits(s[i..j]) && (j < |s| ==> !IsDigit(s[j]))
    decreases |s| - i
  {
    if i < |s| && IsDigit(s[i]) then
      var j := DigitRun(s, i + 1);
      assert s[i..j] == [s[i]] + s[i + 1..j];
      j
    else i
  }

  /** `[-+]?\d*\.\d+` at `i`: optional sign, digits, a point and at least one digit. */
  function DecimalAt(s: string, i: nat): (r: Option<nat>)
    requires i <= |s|
    ensures r.Some? ==> i + 2 <= r.value <= |s|
  {
    var j := if i < |s| && IsSign(s[i]) then i + 1 else i;
    var k := DigitRun(s, j);
    if k + 1 < |s| && s[k] == '.' && IsDigit(s[k + 1]) then Some(DigitRun(s, k + 1)) else None
  }

  /** `\d+` at `i`. */
  function IntegerAt(s: string, i: nat): (r: Option<nat>)
    requires i <= |s|
    ensures r.Some? ==> i + 1 <= r.value <= |s|
  {
    if i < |s| && IsDigit(s[i]) then Some(DigitRun(s, i)) else None
  }

  /** The end of the match at `i`, the first alternative tried first. */
  function MatchAt(s: string, i: nat): (r: Option<nat>)
    requires i <= |s|
    ensures r.Some? ==> i < r.value <= |s|
  {
    if DecimalAt(s, i).Some? then DecimalAt(s, i) else IntegerAt(s, i)
  }

  /** `re.findall` from position `i`: matches do not overlap, and the scan moves one character where none starts. */
  function NumberTokens(s: string, i: nat): seq<string>
    requires i <= |s|
    decreases |s| - i
  {
    if i == |s| then []
    else match MatchAt(s, i)
      case None => NumberTokens(s, i + 1)
      case Some(j) => [s[i..j]] + NumberTokens(s, j)
  }

  /** There is a token exactly when the text holds a digit. */
  lemma {:induction false} TokensIffDigit(s: string, i: nat)
    requires i <= |s|
    ensures |NumberTokens(s, i)| > 0 <==> exists k :: i <= k < |s| && IsDigit(s[k])
    decreases |s| - i
  {
    if i < |s| {
      match MatchAt(s, i)
      case None =>
        assert !IsDigit(s[i]);
        TokensIffDigit(s, i + 1);
        if exists k :: i <= k < |s| && IsDigit(s[k]) {
          var k :| i <= k < |s| && IsDigit(s[k]);
          assert i + 1 <= k;
        }
      case Some(j) =>
        if IntegerAt(s, i).Some? && DecimalAt(s, i).None? {
          assert IsDigit(s[i]);
        } else {
          var j0 := if IsSign(s[i]) then i + 1 else i;
          var k := DigitRun(s, j0);
          assert IsDigit(s[k + 1]);
        }
    }
  }

  /** The split of a token: sign, the digits before the point, and the digits after it (if a point is present). */
  function Unsigned(t: string): string
  {
    if |t| > 0 && IsSign(t[0]) then t[1..] else t
  }

  function PointAt(b: string): (p: nat)
    ensures p <= |b| && (p < |b| ==> b[p] == '.') && forall k :: 0 <= k < p ==> b[k] != '.'
  {
    if |b| == 0 then 0
    else if b[0] == '.' then 0
    else 1 + PointAt(b[1..])
  }

  /** The shape of a match: `\d+`, or `[-+]?\d*\.\d+`. */
  predicate WellFormedToken(t: string)
  {
    var b := Unsigned(t);
    var p := PointAt(b);
    AllDigits(b[..p]) && (p == |b| ==> b == t && |b| > 0) && (p < |b| ==> p + 1 < |b| && AllDigits(b[p + 1..]))
  }

  /** `float(token)`. */
  function TokenValue(t: string): real
    requires WellFormedToken(t)
  {
    var b := Unsigned(t);
    var p := PointAt(b);
    var magnitude := DigitsValue(b[..p]) as real +
      (if p < |b| then DigitsValue(b[p + 1..]) as real / Power10(|b| - p - 1) as real else 0.0);
    if |t| > 0 && t[0] == '-' then -magnitude else magnitude
  }

  /** Every match has the shape of the pattern. */
  lemma MatchWellFormed(s: string, i: nat)
    requires i <= |s| && MatchAt(s, i).Some?
    ensures WellFormedToken(s[i..MatchAt(s, i).value])
  {
    var e := MatchAt(s, i).value;
    var t := s[i..e];
    if DecimalAt(s, i).Some? {
      var j := if i < |s| && IsSign(s[i]) then i + 1 else i;
      var k := DigitRun(s, j);
      assert t == s[i..j] + s[j..k] + "." + s[k + 1..e];
      DecimalShape(s[i..j], s[j..k], s[k + 1..e]);
    } else {
      assert !IsSign(s[i]);
      assert Unsigned(t) == t;
      PointAtDigits(t);
    }
  }

  /** An optional sign, digits, a point and at least one digit: the first shape of the pattern. */
  lemma DecimalShape(sg: string, whole: string, frac: string)
    requires sg == "" || (|sg| == 1 && IsSign(sg[0]))
    requires AllDigits(whole) && AllDigits(frac) && |frac| > 0
    ensures WellFormedToken(sg + whole + "." + frac)
  {
    var t := sg + whole + "." + frac;
    var b := whole + "." + frac;
    if sg == "" {
      assert t == b;
      assert !IsSign(t[0]) by {
        if |whole| > 0 { assert t[0] == whole[0]; }
      }
    } else {
      assert t[1..] == b;
    }
    assert Unsigned(t) == b;
    PointAtFirst(b, |whole|);
    assert b[..|whole|] == whole && b[|whole| + 1..] == frac;
  }

  lemma PointAtFirst(b: string, p: nat)
    requires p < |b| && b[p] == '.' && forall k :: 0 <= k < p ==> b[k] != '.'
    ensures PointAt(b) == p
  {
  }

  lemma PointAtDigits(b: string)
    requires AllDigits(b)
    ensures PointAt(b) == |b|
  {
  }

  lemma {:induction false} TokensWellFormed(s: string, i: nat)
    requires i <= |s|
    ensures forall t :: t in NumberTokens(s, i) ==> WellFormedToken(t)
    decreases |s| - i
  {
    if i < |s| {
      match MatchAt(s, i)
      case None => TokensWellFormed(s, i + 1);
      case Some(j) =>
        MatchWellFormed(s, i);
        TokensWellFormed(s, j);
    }
  }

  /** `extract_odd`: the value of the last number in the odds cell, nothing without a cell or a number. */
  function CellOdds(cell: Option<string>): (r: Option<real>)
    ensures r.None? <==> cell.None? || forall k :: 0 <= k < |cell.value| ==> !IsDigit(cell.value[k])
  {
    if cell.None? then None
    else
      var toks := NumberTokens(cell.value, 0);
      TokensIffDigit(cell.value, 0);
      TokensWellFormed(cell.value, 0);
      if |toks| == 0 then None
      else
        assert toks[|toks| - 1] in toks;
        Some(TokenValue(toks[|toks| - 1]))
  }

  /** A character no match can contain: neither a digit, a point nor a sign. */
  predicate Barrier(c: char)
  {
    !IsDigit(c) && c != '.' && !IsSign(c)
  }

  lemma DigitRunIs(s: string, i: nat, k: nat)
    requires i <= k <= |s| && AllDigits(s[i..k]) && (k < |s| ==> !IsDigit(s[k]))
    ensures DigitRun(s, i) == k
    decreases k - i
  {
    if i < k {
      assert IsDigit(s[i..k][0]);
      assert s[i + 1..k] == s[i..k][1..];
      DigitRunIs(s, i + 1, k);
    }
  }

  lemma DigitAt(s: string, i: nat, k: nat, q: nat)
    requires i <= q < k <= |s| && AllDigits(s[i..k])
    ensures IsDigit(s[q])
  {
    assert s[i..k][q - i] == s[q];
  }

  /** A match starting before a barrier ends at or before it. */
  lemma MatchStopsAtBarrier(s: string, i: nat, q: nat)
    requires i < q < |s| && Barrier(s[q]) && MatchAt(s, i).Some?
    ensures MatchAt(s, i).value <= q
  {
    if DecimalAt(s, i).Some? {
      var j := if IsSign(s[i]) then i + 1 else i;
      var k := DigitRun(s, j);
      var e := DigitRun(s, k + 1);
      if j <= q < k {
        DigitAt(s, j, k, q);
      } else if k < q < e {
        DigitAt(s, k + 1, e, q);
      }
    } else {
      var e := DigitRun(s, i);
      if q < e {
        DigitAt(s, i, e, q);
      }
    }
  }

  /** The last number after a barrier is the last number of the whole text. */
  lemma {:induction false} LastTokenAfterBarrier(s: string, i: nat, q: nat)
    requires i <= q < |s| && Barrier(s[q]) && |NumberTokens(s, q + 1)| > 0
    ensures |NumberTokens(s, i)| > 0
    ensures NumberTokens(s, i)[|NumberTokens(s, i)| - 1] == NumberTokens(s, q + 1)[|NumberTokens(s, q + 1)| - 1]
    decreases q - i
  {
    if i == q {
      NoMatchAtBarrier(s, q);
      TokensSkip(s, q);
    } else if MatchAt(s, i).None? {
      LastTokenAfterBarrier(s, i + 1, q);
      TokensSkip(s, i);
    } else {
      var j := MatchAt(s, i).value;
      MatchStopsAtBarrier(s, i, q);
      LastTokenAfterBarrier(s, j, q);
      TokensCons(s, i, j);
    }
  }

  lemma NoMatchAtBarrier(s: string, q: nat)
    requires q < |s| && Barrier(s[q])
    ensures MatchAt(s, q).None?
  {
    assert DigitRun(s, q) == q;
  }

  /** Where no match starts, the scan moves on by one character. */
  lemma TokensSkip(s: string, i: nat)
    requires i < |s| && MatchAt(s, i).None?
    ensures NumberTokens(s, i) == NumberTokens(s, i + 1)
  {
  }

  /** A match at `i` puts its token in front of the later ones, and keeps their last one last. */
  lemma TokensCons(s: string, i: nat, j: nat)
    requires i < |s| && MatchAt(s, i) == Some(j) && |NumberTokens(s, j)| > 0
    ensures |NumberTokens(s, i)| > 0
    ensures NumberTokens(s, i)[|NumberTokens(s, i)| - 1] == NumberTokens(s, j)[|NumberTokens(s, j)| - 1]
  {
    var rest := NumberTokens(s, j);
    assert NumberTokens(s, i) == [s[i..j]] + rest;
  }

  /** A text ending in `whole.frac` from `i` on, with nothing before it to join: one token. */
  lemma DecimalTokens(s: string, i: nat, whole: string, frac: string)
    requires i <= |s| && s[i..] == whole + "." + frac && AllDigits(whole) && AllDigits(frac) && |frac| > 0
    ensures NumberTokens(s, i) == [whole + "." + frac]
  {
    DecimalMatch(s, i, whole, frac);
    assert s[i..|s|] == whole + "." + frac;
    assert NumberTokens(s, |s|) == [];
  }

  lemma DecimalMatch(s: string, i: nat, whole: string, frac: string)
    requires i <= |s| && s[i..] == whole + "." + frac && AllDigits(whole) && AllDigits(frac) && |frac| > 0
    ensures MatchAt(s, i) == Some(|s|)
  {
    var k := i + |whole|;
    assert AllDigits(s[i..k]) by {
      assert s[i..k] == whole;
    }
    assert s[k] == '.';
    assert AllDigits(s[k + 1..]) && IsDigit(s[k + 1]) by {
      assert s[k + 1..] == frac;
    }
    assert !IsSign(s[i]) by {
      if |whole| > 0 { assert s[i] == whole[0]; }
    }
    DigitRunIs(s, i, k);
    assert s[k + 1..|s|] == s[k + 1..];
    DigitRunIs(s, k + 1, |s|);
  }

  /** A text ending in the digits `whole` from `i` on: one token. */
  lemma IntegerTokens(s: string, i: nat, whole: string)
    requires i <= |s| && s[i..] == whole && AllDigits(whole) && |whole| > 0
    ensures NumberTokens(s, i) == [whole]
  {
    assert IsDigit(s[i]) by {
      assert s[i] == whole[0];
    }
    assert s[i..|s|] == whole;
    DigitRunIs(s, i, |s|);
    assert DecimalAt(s, i).None?;
    assert MatchAt(s, i) == Some(|s|);
    assert NumberTokens(s, |s|) == [];
  }

  /** `float` of an unsigned `whole.frac` token. */
  lemma DecimalTokenValue(whole: string, frac: string)
    requires AllDigits(whole) && AllDigits(frac) && |frac| > 0
    ensures WellFormedToken(whole + "." + frac) && TokenValue(whole + "." + frac) == Cells.DecimalValue(whole, frac)
  {
    var t := whole + "." + frac;
    assert t[0] != '-' && !IsSign(t[0]) by {
      if |whole| > 0 { assert t[0] == whole[0]; }
    }
    assert Unsigned(t) == t;
    PointAtFirst(t, |whole|);
    assert t[..|whole|] == whole && t[|whole| + 1..] == frac;
  }

  /** `float` of a digit token. */
  lemma IntegerTokenValue(whole: string)
    requires AllDigits(whole) && |whole| > 0
    ensures WellFormedToken(whole) && TokenValue(whole) == DigitsValue(whole) as real
  {
    assert !IsSign(whole[0]);
    assert Unsigned(whole) == whole;
    PointAtDigits(whole);
    assert whole[..|whole|] == whole;
  }

  /** A cell that is just `whole.frac` (such as "1.85") reads as that value. */
  lemma CellOddsDecimal(whole: string, frac: string)
    requires AllDigits(whole) && AllDigits(frac) && |frac| > 0
    ensures CellOdds(Some(whole + "." + frac)) == Some(Cells.DecimalValue(whole, frac))
  {
    var s := whole + "." + frac;
    assert s[0..] == s;
    DecimalTokens(s, 0, whole, frac);
    DecimalTokenValue(whole, frac);
  }

  /**
   * Whatever comes first (a handicap such as "+3.5", other text), a cell
   * ending in a barrier and then `whole.frac` reads as that value.
   */
  lemma CellOddsLastDecimal(prefix: string, sep: char, whole: string, frac: string)
    requires Barrier(sep) && AllDigits(whole) && AllDigits(frac) && |frac| > 0
    ensures CellOdds(Some(prefix + [sep] + whole + "." + frac)) == Some(Cells.DecimalValue(whole, frac))
  {
    var s := prefix + [sep] + whole + "." + frac;
    var q := |prefix|;
    assert s[q] == sep;
    assert s[q + 1..] == whole + "." + frac;
    DecimalTokens(s, q + 1, whole, frac);
    LastTokenAfterBarrier(s, 0, q);
    DecimalTokenValue(whole, frac);
  }

  /** The same for a whole number at the end of the cell. */
  lemma CellOddsLastInteger(prefix: string, sep: char, whole: string)
    requires Barrier(sep) && AllDigits(whole) && |whole| > 0
    ensures CellOdds(Some(prefix + [sep] + whole)) == Some(DigitsValue(whole) as real)
  {
    var s := prefix + [sep] + whole;
    var q := |prefix|;
    assert s[q] == sep;
    assert s[q + 1..] == whole;
    IntegerTokens(s, q + 1, whole);
    LastTokenAfterBarrier(s, 0, q);
    IntegerTokenValue(whole);
  }

  /** A sign is kept only in front of a number with a point: "-5" reads as 5. */
  lemma CellOddsSignedInteger()
    ensures CellOdds(Some("-5")) == Some(5.0)
  {
    assert DigitRun("-5", 1) == 2 && DigitRun("-5", 0) == 0;
    assert MatchAt("-5", 0) == None && MatchAt("-5", 1) == Some(2);
    assert NumberTokens("-5", 2) == [];
    assert "-5"[1..2] == "5";
    assert NumberTokens("-5", 0) == ["5"];
  }

  // ---------------------------------------------------------------------
  // Games of the day
  // ---------------------------------------------------------------------

  /** One saved line: `Date_TW` (only the manual test writes it), both codes and both odds. */
  datatype OddsRecord = OddsRecord(dateTw: Option<string>, awayAbbr: string, homeAbbr: string,
                                   oddsAway: Option<real>, oddsHome: Option<real>)

  /**
   * One game: the first row is the away side, the second the home side.
   * The away code is that of the first row's first known name; the home
   * code that of its second known name when it has one, else that of the
   * second row's first known name. A game without two rows or with a side
   * left unnamed is skipped.
   */
  function ParseGame(group: seq<PageRow>, dateTw: Option<string>): (r: Option<OddsRecord>)
    ensures r.Some? ==> |group| >= 2 && r.value.dateTw == dateTw
    ensures r.Some? ==> r.value.oddsAway == CellOdds(group[0].betText) && r.value.oddsHome == CellOdds(group[1].betText)
    ensures r.Some? ==> r.value.awayAbbr != Unknown && r.value.homeAbbr != Unknown
    ensures r.Some? ==>
      var both, second := KnownNames(Links(group[0])), KnownNames(Links(group[1]));
      |both| > 0 && r.value.awayAbbr == MapTeam(both[0]) &&
      (|both| >= 2 ==> r.value.homeAbbr == MapTeam(both[1])) &&
      (|both| < 2 ==> |second| > 0 && r.value.homeAbbr == MapTeam(second[0]))
  {
    if |group| < 2 then None
    else
      var (a, h) := TeamNames(group[0], group[1]);
      KnownNamesContents(Links(group[0]));
      KnownNamesContents(Links(group[1]));
      if a.None? || h.None? then None
      else
        assert a.value in TeamMap && h.value in TeamMap by {
          var both := KnownNames(Links(group[0]));
          if |both| >= 2 {
            assert both[0] in both && both[1] in both;
          } else {
            assert KnownNames(Links(group[0]))[0] in KnownNames(Links(group[0]));
            assert KnownNames(Links(group[1]))[0] in KnownNames(Links(group[1]));
          }
        }
        Some(OddsRecord(dateTw, MapTeam(a.value), MapTeam(h.value), CellOdds(group[0].betText), CellOdds(group[1].betText)))
  }

  /**
   * A game is kept exactly when it has two rows, the first row names a
   * known team, and either it names a second one or the second row does.
   */
  lemma ParseGameKept(group: seq<PageRow>, dateTw: Option<string>)
    ensures ParseGame(group, dateTw).Some? <==>
      |group| >= 2 && |KnownNames(Links(group[0]))| > 0 &&
      (|KnownNames(Links(group[0]))| >= 2 || |KnownNames(Links(group[1]))| > 0)
  {
  }

  /** What the loop makes of one game id. */
  function GameRecord(rows: seq<PageRow>, dateTw: Option<string>): string -> Option<OddsRecord>
  {
    g => ParseGame(GroupOf(rows, g), dateTw)
  }

  /** `get_playsport_odds_robust` after the page is read. */
  function DailyOdds(rows: seq<PageRow>, dateTw: Option<string>): seq<OddsRecord>
  {
    FilterMap(GameIds(rows), GameRecord(rows, dateTw))
  }

  /** The loop over the grouped games, appending to `daily_data`. */
  method CollectOdds(rows: seq<PageRow>, dateTw: Option<string>) returns (daily: seq<OddsRecord>)
    ensures daily == DailyOdds(rows, dateTw)
  {
    var ids, groups := GroupRows(rows);
    daily := [];
    for k := 0 to |ids|
      invariant daily == FilterMap(ids[..k], GameRecord(rows, dateTw))
    {
      FilterMapStep(ids, k, GameRecord(rows, dateTw));
      var group := groups[ids[k]];
      var r := ParseGame(group, dateTw);
      if r.Some? {
        daily := daily + [r.value];
      }
    }
    assert ids[..|ids|] == ids;
  }

  /** The position in the day's list of the record of the `i`-th game id, counting the kept games before it. */
  function RecordSlot(rows: seq<PageRow>, dateTw: Option<string>, i: nat): nat
    requires i <= |GameIds(rows)|
  {
    FilterMapSlot(GameIds(rows), GameRecord(rows, dateTw), i)
  }

  /**
   * At most one record per game id, each from a game with at least two
   * rows, with known codes on both sides.
   */
  lemma DailyOddsSpec(rows: seq<PageRow>, dateTw: Option<string>)
    ensures |DailyOdds(rows, dateTw)| <= |GameIds(rows)|
    ensures forall x :: x in DailyOdds(rows, dateTw) ==>
      x.awayAbbr != Unknown && x.homeAbbr != Unknown && x.dateTw == dateTw &&
      exists g :: g in GameIds(rows) && |GroupOf(rows, g)| >= 2 && ParseGame(GroupOf(rows, g), dateTw) == Some(x)
  {
    var ids, f := GameIds(rows), GameRecord(rows, dateTw);
    FilterMapContents(ids, f);
    forall x | x in DailyOdds(rows, dateTw)
      ensures exists g :: g in ids && |GroupOf(rows, g)| >= 2 && ParseGame(GroupOf(rows, g), dateTw) == Some(x)
    {
      var i :| 0 <= i < |ids| && f(ids[i]) == Some(x);
      var g := ids[i];
      assert g in ids && ParseGame(GroupOf(rows, g), dateTw) == Some(x);
    }
  }

  /**
   * Every kept game contributes its record, and the records follow the
   * games' first appearance on the page: a later kept game's record comes
   * after an earlier one's.
   */
  lemma DailyOddsComplete(rows: seq<PageRow>, dateTw: Option<string>)
    ensures forall i :: 0 <= i < |GameIds(rows)| && ParseGame(GroupOf(rows, GameIds(rows)[i]), dateTw).Some? ==>
      RecordSlot(rows, dateTw, i) < |DailyOdds(rows, dateTw)| &&
      DailyOdds(rows, dateTw)[RecordSlot(rows, dateTw, i)] == ParseGame(GroupOf(rows, GameIds(rows)[i]), dateTw).value
    ensures forall i, j :: 0 <= i < j < |GameIds(rows)| && ParseGame(GroupOf(rows, GameIds(rows)[i]), dateTw).Some? ==>
      RecordSlot(rows, dateTw, i) < RecordSlot(rows, dateTw, j)
  {
    var ids, f := GameIds(rows), GameRecord(rows, dateTw);
    forall i | 0 <= i < |ids| && f(ids[i]).Some?
      ensures RecordSlot(rows, dateTw, i) < |DailyOdds(rows, dateTw)| &&
              DailyOdds(rows, dateTw)[RecordSlot(rows, dateTw, i)] == f(ids[i]).value
    {
      FilterMapOrder(ids, f, i, |ids|);
    }
    forall i, j | 0 <= i < j < |ids| && f(ids[i]).Some?
      ensures RecordSlot(rows, dateTw, i) < RecordSlot(rows, dateTw, j)
    {
      FilterMapOrder(ids, f, i, j);
    }
  }

  /** The day has no odds exactly when no game is kept. */
  lemma DailyOddsEmpty(rows: seq<PageRow>, dateTw: Option<string>)
    ensures |DailyOdds(rows, dateTw)| == 0 <==>
      forall g :: g in GameIds(rows) ==> ParseGame(GroupOf(rows, g), dateTw).None?
  {
    var ids, f := GameIds(rows), GameRecord(rows, dateTw);
    var daily := DailyOdds(rows, dateTw);
    if |daily| > 0 {
      FilterMapContents(ids, f);
      assert daily[0] in daily;
      var i :| 0 <= i < |ids| && f(ids[i]) == Some(daily[0]);
      assert ids[i] in ids;
    } else {
      forall g | g in ids ensures f(g).None? {
        if f(g).Some? {
          var i :| 0 <= i < |ids| && ids[i] == g;
          FilterMapOrder(ids, f, i, |ids|);
        }
      }
    }
  }

  // ---------------------------------------------------------------------
  // Files and dates
  // ---------------------------------------------------------------------

  /** `YYYY-MM-DD` as `\d{4}-\d{2}-\d{2}`. */
  predicate IsoShape(t: string)
  {
    |t| == 10 && AllDigits(t[..4]) && t[4] == '-' && AllDigits(t[5..7]) && t[7] == '-' && AllDigits(t[8..])
  }

  /**
   * The date text of a name the glob `predictions_*.csv` lists and the
   * pattern `predictions_(\d{4}-\d{2}-\d{2})\.csv` matches at its start.
   */
  function PredictionDateText(name: string): (r: Option<string>)
    ensures r.Some? ==> IsoShape(r.value)
  {
    if |name| >= 26 && name[..12] == "predictions_" && IsoShape(name[12..22]) && name[22..26] == ".csv" &&
       name[|name| - 4..] == ".csv"
    then Some(name[12..22])
    else None
  }

  /** `max(valid_files, key=os.path.getctime)`: the first file with the latest creation time. */
  function Newest(files: seq<(string, int)>): (r: (string, int))
    requires |files| > 0
    ensures r in files && forall k :: 0 <= k < |files| ==> files[k].1 <= r.1
  {
    if |files| == 1 then files[0]
    else
      var init := files[..|files| - 1];
      var m := Newest(init);
      assert forall k :: 0 <= k < |init| ==> init[k] == files[k];
      if files[|files| - 1].1 > m.1 then files[|files| - 1] else m
  }

  function IfPrediction(f: (string, int)): Option<(string, int)>
  {
    if PredictionDateText(f.0).Some? then Some(f) else None
  }

  /** `find_latest_prediction_file`, with each listed name's creation time given. */
  function LatestPrediction(files: seq<(string, int)>): (r: Option<string>)
    ensures r.Some? ==> PredictionDateText(r.value).Some?
    ensures r.None? <==> forall k :: 0 <= k < |files| ==> PredictionDateText(files[k].0).None?
  {
    var valid := FilterMap(files, IfPrediction);
    FilterMapContents(files, IfPrediction);
    if |valid| == 0 then
      assert forall k :: 0 <= k < |files| ==> IfPrediction(files[k]).None?;
      None
    else
      var n := Newest(valid);
      var k :| 0 <= k < |files| && IfPrediction(files[k]) == Some(n);
      Some(n.0)
  }

  /** The newest listed prediction file is at least as new as every other one. */
  lemma LatestPredictionNewest(files: seq<(string, int)>)
    ensures LatestPrediction(files).Some? ==>
      exists i :: 0 <= i < |files| && files[i].0 == LatestPrediction(files).value &&
        forall k :: 0 <= k < |files| && PredictionDateText(files[k].0).Some? ==> files[k].1 <= files[i].1
  {
    var valid := FilterMap(files, IfPrediction);
    FilterMapContents(files, IfPrediction);
    if |valid| > 0 {
      var n := Newest(valid);
      var i :| 0 <= i < |files| && IfPrediction(files[i]) == Some(n);
      forall k | 0 <= k < |files| && PredictionDateText(files[k].0).Some? ensures files[k].1 <= files[i].1 {
        assert IfPrediction(files[k]) == Some(files[k]);
        assert files[k] in valid;
      }
    }
  }

  /** `strptime(text, "%Y-%m-%d")`: nothing for a day that does not exist. */
  function ParseIsoDate(t: string): (r: Option<Date>)
    requires IsoShape(t)
    ensures r.Some? ==> ValidDate(r.value)
  {
    var d := Date(DigitsValue(t[..4]), DigitsValue(t[5..7]), DigitsValue(t[8..]));
    if ValidDate(d) then Some(d) else None
  }

  /** What the odds step does with a set of files: the page date to fetch and the file to save under. */
  datatype OddsPlan = OddsPlan(fetchDate: string, outputFile: string)

  /** `main`: the prediction date plus one day, written `YYYYMMDD`, and `odds_for_<prediction date>.csv`. */
  function PlanFor(files: seq<(string, int)>): Option<OddsPlan>
  {
    match LatestPrediction(files)
    case None => None
    case Some(name) =>
      var text := PredictionDateText(name).value;
      match ParseIsoDate(text)
      case None => None
      case Some(d) => Some(OddsPlan(CompactDate(NextDay(d)), "odds_for_" + text + ".csv"))
  }

  /**
   * `main` after the fetch: the records are written to the plan's file
   * when there are any, and nothing is written for a day without odds.
   */
  function SavedOdds(files: seq<(string, int)>, page: string -> seq<PageRow>): (r: Option<(string, seq<OddsRecord>)>)
    ensures r.Some? ==> PlanFor(files).Some? && r.value.0 == PlanFor(files).value.outputFile
    ensures r.Some? ==> r.value.1 == DailyOdds(page(PlanFor(files).value.fetchDate), None) && |r.value.1| > 0
    ensures r.None? <==> PlanFor(files).None? || |DailyOdds(page(PlanFor(files).value.fetchDate), None)| == 0
  {
    match PlanFor(files)
    case None => None
    case Some(plan) =>
      var daily := DailyOdds(page(plan.fetchDate), None);
      if |daily| == 0 then None else Some((plan.outputFile, daily))
  }

  lemma IsoDateRoundTrip(d: Date)
    requires ValidDate(d) && d.year < 10000
    ensures IsoShape(IsoDate(d)) && ParseIsoDate(IsoDate(d)) == Some(d)
  {
    var s := IsoDate(d);
    assert s[..4] == PadDigits(d.year, 4);
    assert s[5..7] == PadDigits(d.month, 2);
    assert s[8..] == PadDigits(d.day, 2);
    assert Power10(2) == 100;
    assert Power10(4) == 10000;
    PadDigitsExact(d.year, 4);
    PadDigitsExact(d.month, 2);
    PadDigitsExact(d.day, 2);
  }

  /**
   * When the newest file is the export of day `d`, the odds page of the
   * next day is fetched and saved under `d`, so that the next step can
   * pair predictions and odds by the prediction's date.
   */
  lemma PlanForExport(d: Date, files: seq<(string, int)>, exported: seq<ExportRow>)
    requires ValidDate(d) && d.year < 9999 && |exported| > 0
    requires LatestPrediction(files) == OutputFile(d, exported)
    ensures PlanFor(files) == Some(OddsPlan(CompactDate(NextDay(d)), "odds_for_" + IsoDate(d) + ".csv"))
    ensures ParseCompactDate(CompactDate(NextDay(d))) == NextDay(d) && DayNumber(NextDay(d)) == DayNumber(d) + 1
  {
    var name := "predictions_" + IsoDate(d) + ".csv";
    IsoDateRoundTrip(d);
    assert name[..12] == "predictions_" && name[12..22] == IsoDate(d) && name[22..26] == ".csv";
    assert name[|name| - 4..] == ".csv";
    CompactDateRoundTrip(NextDay(d));
  }

  /** The manual test's fixed pair of dates follows the same one-day rule. */
  lemma ManualTestDates()
    ensures CompactDate(NextDay(Date(2025, 11, 23))) == "20251124"
    ensures IsoDate(Date(2025, 11, 23)) == "2025-11-23"
  {
  }
}
