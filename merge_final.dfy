/**
 * `merge_final_v200`: the base training table is joined with the home and
 * the away before-game advanced averages of the same game, the away columns
 * renamed with `Opp_`, and a `Diff_` column added for every average.
 * Tables are modelled at the level of column names: a row maps column
 * names to cells.
 */
module MergeFinal {
  import opened Common
  import opened Joins

  datatype Cell = Num(x: real) | Text(s: string) | Missing

  /** One table row: column name to cell. */
  type Row = map<string, Cell>

  /** A table: its column names in order, and its rows. */
  datatype Frame = Frame(columns: seq<string>, rows: seq<Row>)

  const AvgPrefix: string := "Before_Game_Avg_"
  const DupAbbr: string := "Opp_Abbr.1"
  const GameIdColumn: string := "game_id"
  const LocationColumn: string := "location"

  function Get(r: Row, c: string): Cell
  {
    if c in r then r[c] else Missing
  }

  function Opp(c: string): string { "Opp_" + c }

  function DiffName(c: string): string { "Diff_" + c }

  predicate IsDiffColumn(k: string)
  {
    StartsWith(k, "Diff_")
  }

  /** An advanced-average column is neither a `Diff_` column nor, once prefixed, one. */
  lemma AvgColumnNames(c: string)
    requires StartsWith(c, AvgPrefix)
    ensures !IsDiffColumn(c) && !IsDiffColumn(Opp(c)) && c != GameIdColumn && Opp(c) != GameIdColumn
    ensures IsDiffColumn(DiffName(c)) && c != DupAbbr && Opp(c) != DupAbbr
  {
    assert c[0] == AvgPrefix[0] == 'B';
    assert Opp(c)[0] == 'O' && Opp(c)[4..] == c;
    assert DiffName(c)[..5] == "Diff_";
    assert DupAbbr[4..] == "Abbr.1";
  }

  lemma PrefixInjective(p: string, a: string, b: string)
    requires p + a == p + b
    ensures a == b
  {
    assert a == (p + a)[|p|..];
    assert b == (p + b)[|p|..];
  }

  /** The column list with the names `keep` accepts, in order. */
  function AdvColumns(cs: seq<string>): (r: seq<string>)
    ensures |r| <= |cs|
    ensures forall c :: c in r <==> c in cs && StartsWith(c, AvgPrefix)
  {
    if |cs| == 0 then []
    else
      var last := cs[|cs| - 1];
      assert cs == cs[..|cs| - 1] + [last];
      AdvColumns(cs[..|cs| - 1]) + (if StartsWith(last, AvgPrefix) then [last] else [])
  }

  /** The column list without `d`. */
  function Without(cs: seq<string>, d: string): (r: seq<string>)
    ensures |r| <= |cs|
    ensures forall c :: c in r <==> c in cs && c != d
  {
    if |cs| == 0 then []
    else
      var last := cs[|cs| - 1];
      assert cs == cs[..|cs| - 1] + [last];
      Without(cs[..|cs| - 1], d) + (if last != d then [last] else [])
  }

  function OppColumns(cs: seq<string>): (r: seq<string>)
    ensures |r| == |cs| && forall k :: 0 <= k < |cs| ==> r[k] == Opp(cs[k])
  {
    seq(|cs|, k requires 0 <= k < |cs| => Opp(cs[k]))
  }

  /** `df_base.drop(columns=['Opp_Abbr.1'])` when that duplicate column is present. */
  function CleanBase(base: Frame): (r: Frame)
    ensures |r.rows| == |base.rows|
    ensures forall c :: c in r.columns <==> c in base.columns && c != DupAbbr
    ensures forall i, c :: 0 <= i < |r.rows| && c != DupAbbr ==> Get(r.rows[i], c) == Get(base.rows[i], c)
    ensures DupAbbr !in base.columns ==> r == base
  {
    if DupAbbr in base.columns then
      Frame(Without(base.columns, DupAbbr), seq(|base.rows|, i requires 0 <= i < |base.rows| => base.rows[i] - {DupAbbr}))
    else base
  }

  predicate AtLocation(r: Row, loc: string)
  {
    Get(r, LocationColumn) == Text(loc)
  }

  /** A home row keeps `game_id` and the averages. */
  function HomeRow(r: Row, cols: seq<string>): (h: Row)
    ensures h.Keys == {GameIdColumn} + (set c | c in cols)
    ensures forall k :: k in h ==> h[k] == Get(r, k)
  {
    map k | k in {GameIdColumn} + (set c | c in cols) :: Get(r, k)
  }

  /** An away row keeps `game_id` and the averages renamed `Opp_X`; `team` (renamed `Opp_Abbr`) is dropped. */
  function AwayRow(r: Row, cols: seq<string>): (a: Row)
    requires forall c :: c in cols ==> StartsWith(c, AvgPrefix)
    ensures a.Keys == {GameIdColumn} + (set c | c in cols :: Opp(c))
    ensures a[GameIdColumn] == Get(r, GameIdColumn)
    ensures forall c :: c in cols ==> a[Opp(c)] == Get(r, c)
  {
    if |cols| == 0 then map[GameIdColumn := Get(r, GameIdColumn)]
    else
      var init, last := cols[..|cols| - 1], cols[|cols| - 1];
      assert cols == init + [last];
      var a0 := AwayRow(r, init);
      AvgColumnNames(last);
      var a := a0[Opp(last) := Get(r, last)];
      forall c | c in cols ensures a[Opp(c)] == Get(r, c) {
        if c != last {
          if Opp(c) == Opp(last) {
            PrefixInjective("Opp_", c, last);
          }
        }
      }
      a
  }

  function HomeSelect(cols: seq<string>, r: Row): Option<Row>
  {
    if AtLocation(r, "Home") then Some(HomeRow(r, cols)) else None
  }

  function AwaySelect(cols: seq<string>, r: Row): Option<Row>
    requires forall c :: c in cols ==> StartsWith(c, AvgPrefix)
  {
    if AtLocation(r, "Away") then Some(AwayRow(r, cols)) else None
  }

  function GameId(r: Row): Cell
  {
    Get(r, GameIdColumn)
  }

  // ---------------------------------------------------------------------
  // pd.merge on game_id, with the default suffixes
  // ---------------------------------------------------------------------

  /** The suffixes `pd.merge` gives a non-key column both tables have, on the left and on the right. */
  const LeftSuffix: string := "_x"
  const RightSuffix: string := "_y"

  predicate EndsWith(s: string, suffix: string)
  {
    |suffix| <= |s| && s[|s| - |suffix|..] == suffix
  }

  /** A name that ends the way a column renamed by a merge does. */
  predicate MergeSuffixed(c: string)
  {
    EndsWith(c, LeftSuffix) || EndsWith(c, RightSuffix)
  }

  /** The non-key columns both tables have: the merge keeps both copies, renamed. */
  function Shared(l: seq<string>, r: seq<string>): set<string>
  {
    set c | c in l && c in r && c != GameIdColumn
  }

  function Suffixed(c: string, shared: set<string>, sfx: string): string
  {
    if c in shared then c + sfx else c
  }

  /** The column list with each shared column renamed in place. */
  function RenameColumns(cs: seq<string>, shared: set<string>, sfx: string): (r: seq<string>)
    ensures |r| == |cs| && forall k :: 0 <= k < |cs| ==> r[k] == Suffixed(cs[k], shared, sfx)
  {
    seq(|cs|, k requires 0 <= k < |cs| => Suffixed(cs[k], shared, sfx))
  }

  /** A renamed name ends with its suffix and starts with the name it came from. */
  lemma RenamedEnds(c: string, sfx: string)
    ensures EndsWith(c + sfx, sfx) && (c + sfx)[..|c|] == c
  {
    assert (c + sfx)[|c|..] == sfx;
  }

  lemma SuffixInjective(sfx: string)
    ensures forall a: string, b: string :: a + sfx == b + sfx ==> a == b
  {
    forall a: string, b: string | a + sfx == b + sfx ensures a == b {
      RenamedEnds(a, sfx);
      RenamedEnds(b, sfx);
    }
  }

  /** A row with each shared column moved to its suffixed name. */
  function RenameRow(row: Row, shared: set<string>, sfx: string): Row
  {
    SuffixInjective(sfx);
    (map k | k in row.Keys - shared :: row[k]) + (map c | c in row.Keys * shared :: c + sfx := row[c])
  }

  /** A merged row: the left row's cells, then the right row's cells other than the key, shared columns suffixed. */
  function Combine(l: Row, r: Row, shared: set<string>): Row
  {
    RenameRow(l, shared, LeftSuffix) + RenameRow(r - {GameIdColumn}, shared, RightSuffix)
  }

  function Joiner(shared: set<string>): (Row, Row) -> Row
  {
    (l: Row, r: Row) => Combine(l, r, shared)
  }

  /** `pd.merge(l, r, on='game_id', how='inner')`: a shared column `c` becomes `c_x` and `c_y`. */
  function MergeOn(l: Frame, r: Frame): Frame
  {
    var shared := Shared(l.columns, r.columns);
    Frame(RenameColumns(l.columns, shared, LeftSuffix) + RenameColumns(Without(r.columns, GameIdColumn), shared, RightSuffix),
          InnerJoin(l.rows, r.rows, GameId, GameId, Joiner(shared)))
  }

  /** Membership in a renamed column list: an unshared name as it was, a shared one with the suffix. */
  lemma RenamedMember(cs: seq<string>, shared: set<string>, sfx: string, k: string)
    ensures k in RenameColumns(cs, shared, sfx) <==>
      (k in cs && k !in shared) || exists c :: c in cs && c in shared && k == c + sfx
  {
    var r := RenameColumns(cs, shared, sfx);
    if k in r {
      var i :| 0 <= i < |r| && r[i] == k;
      assert cs[i] in cs;
    }
    if k in cs && k !in shared {
      var i :| 0 <= i < |cs| && cs[i] == k;
      assert r[i] == k;
    }
    if exists c :: c in cs && c in shared && k == c + sfx {
      var c :| c in cs && c in shared && k == c + sfx;
      var i :| 0 <= i < |cs| && cs[i] == c;
      assert r[i] == k;
    }
  }

  /**
   * The columns of a merge: the unshared columns of both tables (the key
   * once), and each shared column twice, as `c_x` and `c_y`.
   */
  lemma MergeOnColumns(l: Frame, r: Frame, k: string)
    ensures var shared := Shared(l.columns, r.columns);
      k in MergeOn(l, r).columns <==>
        (k in l.columns && k !in shared) || (k in r.columns && k != GameIdColumn && k !in shared) ||
        exists c :: c in shared && (k == c + LeftSuffix || k == c + RightSuffix)
  {
    var shared := Shared(l.columns, r.columns);
    var rc := Without(r.columns, GameIdColumn);
    RenamedMember(l.columns, shared, LeftSuffix, k);
    RenamedMember(rc, shared, RightSuffix, k);
    if exists c :: c in shared && (k == c + LeftSuffix || k == c + RightSuffix) {
      var c :| c in shared && (k == c + LeftSuffix || k == c + RightSuffix);
      assert c in l.columns && c in rc;
    }
  }

  function HomeFrame(adv: Frame): Frame
  {
    var cols := AdvColumns(adv.columns);
    Frame([GameIdColumn] + cols, FilterMap(adv.rows, r => HomeSelect(cols, r)))
  }

  function AwayFrame(adv: Frame): Frame
  {
    var cols := AdvColumns(adv.columns);
    Frame([GameIdColumn] + OppColumns(cols), FilterMap(adv.rows, r => AwaySelect(cols, r)))
  }

  /** The table after both merges, before the `Diff_` columns. */
  function Merged(base: Frame, adv: Frame): Frame
  {
    MergeOn(MergeOn(CleanBase(base), HomeFrame(adv)), AwayFrame(adv))
  }

  function Sub(a: Cell, b: Cell): Cell
  {
    if a.Num? && b.Num? then Num(a.x - b.x) else Missing
  }

  /** `df_final[Diff_c] = df_final[c] - df_final[Opp_c]`. */
  function AssignDiff(f: Frame, c: string): (r: Frame)
    ensures |r.rows| == |f.rows|
    ensures forall k :: k in r.columns <==> k in f.columns || k == DiffName(c)
    ensures forall i, k :: 0 <= i < |f.rows| ==>
      Get(r.rows[i], k) == if k == DiffName(c) then Sub(Get(f.rows[i], c), Get(f.rows[i], Opp(c))) else Get(f.rows[i], k)
  {
    var d := DiffName(c);
    Frame(if d in f.columns then f.columns else f.columns + [d],
          seq(|f.rows|, i requires 0 <= i < |f.rows| => f.rows[i][d := Sub(Get(f.rows[i], c), Get(f.rows[i], Opp(c)))]))
  }

  /** The `Diff_` loop: a column for each average whose two operands are both present. */
  function WithDiffs(f: Frame, cols: seq<string>): Frame
  {
    if |cols| == 0 then f
    else
      var g := WithDiffs(f, cols[..|cols| - 1]);
      var c := cols[|cols| - 1];
      if c in g.columns && Opp(c) in g.columns then AssignDiff(g, c) else g
  }

  method AddDiffColumns(f: Frame, cols: seq<string>) returns (out: Frame)
    ensures out == WithDiffs(f, cols)
  {
    out := f;
    for k := 0 to |cols|
      invariant out == WithDiffs(f, cols[..k])
    {
      var c := cols[k];
      assert cols[..k + 1][..k] == cols[..k];
      if c in out.columns && Opp(c) in out.columns {
        out := AssignDiff(out, c);
      }
    }
    assert cols[..|cols|] == cols;
  }

  /** `merge_final_v200`: the saved table. */
  function MergeFinal(base: Frame, adv: Frame): Frame
  {
    WithDiffs(Merged(base, adv), AdvColumns(adv.columns))
  }

  // ---------------------------------------------------------------------
  // What the Diff loop does
  // ---------------------------------------------------------------------

  /** `Diff_c` holds `c - Opp_c` of the table the loop started from. */
  ghost predicate HasDiff(f: Frame, out: Frame, c: string)
    requires |out.rows| == |f.rows|
  {
    DiffName(c) in out.columns &&
    forall i :: 0 <= i < |f.rows| ==> Get(out.rows[i], DiffName(c)) == Sub(Get(f.rows[i], c), Get(f.rows[i], Opp(c)))
  }

  /**
   * The loop only adds `Diff_` columns; every other column and cell is left
   * as it was, and each average whose operands are present gets its
   * difference.
   */
  lemma {:induction false} WithDiffsEffect(f: Frame, cols: seq<string>)
    requires forall c :: c in cols ==> StartsWith(c, AvgPrefix)
    ensures |WithDiffs(f, cols).rows| == |f.rows|
    ensures forall k :: !IsDiffColumn(k) ==> (k in WithDiffs(f, cols).columns <==> k in f.columns)
    ensures forall i, k :: 0 <= i < |f.rows| && !IsDiffColumn(k) ==> Get(WithDiffs(f, cols).rows[i], k) == Get(f.rows[i], k)
    ensures forall c :: c in cols && c in f.columns && Opp(c) in f.columns ==> HasDiff(f, WithDiffs(f, cols), c)
  {
    if |cols| > 0 {
      var init, c := cols[..|cols| - 1], cols[|cols| - 1];
      assert cols == init + [c];
      WithDiffsEffect(f, init);
      var g := WithDiffs(f, init);
      AvgColumnNames(c);
      if c in g.columns && Opp(c) in g.columns {
        var out := AssignDiff(g, c);
        assert WithDiffs(f, cols) == out;
        forall c' | c' in cols && c' in f.columns && Opp(c') in f.columns ensures HasDiff(f, out, c') {
          AvgColumnNames(c');
          if DiffName(c') == DiffName(c) {
            PrefixInjective("Diff_", c', c);
          } else {
            assert c' in init;
          }
        }
      }
    }
  }

  /** The loop left `Diff_c` as it was: present exactly when it was, with the same cells. */
  ghost predicate Skipped(f: Frame, out: Frame, c: string)
    requires |out.rows| == |f.rows|
  {
    (DiffName(c) in out.columns <==> DiffName(c) in f.columns) &&
    forall i :: 0 <= i < |f.rows| ==> Get(out.rows[i], DiffName(c)) == Get(f.rows[i], DiffName(c))
  }

  /** An average the loop does not visit, or whose operands are not both there, gets no new `Diff_` column. */
  lemma {:induction false} WithDiffsSkips(f: Frame, cols: seq<string>, e: string)
    requires forall c :: c in cols ==> StartsWith(c, AvgPrefix)
    requires StartsWith(e, AvgPrefix) && !(e in cols && e in f.columns && Opp(e) in f.columns)
    ensures |WithDiffs(f, cols).rows| == |f.rows| && Skipped(f, WithDiffs(f, cols), e)
  {
    WithDiffsEffect(f, cols);
    if |cols| > 0 {
      var init, c := cols[..|cols| - 1], cols[|cols| - 1];
      assert cols == init + [c];
      WithDiffsSkips(f, init, e);
      WithDiffsEffect(f, init);
      var g := WithDiffs(f, init);
      AvgColumnNames(c);
      AvgColumnNames(e);
      if c in g.columns && Opp(c) in g.columns {
        if DiffName(e) == DiffName(c) {
          PrefixInjective("Diff_", e, c);
          assert false;
        }
      }
    }
  }

  // ---------------------------------------------------------------------
  // The columns of the merged table
  // ---------------------------------------------------------------------

  /** A name keeps its first letter when a suffix is added; a suffixed name ends with `x` or `y`. */
  lemma SuffixLetters(c: string, sfx: string)
    requires sfx == LeftSuffix || sfx == RightSuffix
    ensures |c| > 0 ==> (c + sfx)[0] == c[0]
    ensures (c + sfx)[|c| + 1] == sfx[1] && (c + sfx)[|c| + 1] in {'x', 'y'}
  {
  }

  /** A name ends with a suffix exactly when its `Opp_` form does. */
  lemma OppEndsWith(c: string, sfx: string)
    requires |sfx| <= |c|
    ensures EndsWith(Opp(c), sfx) <==> EndsWith(c, sfx)
  {
    assert Opp(c)[|Opp(c)| - |sfx|..] == c[|c| - |sfx|..];
  }

  /** The home frame holds the key and the averages; the away frame the key and the averages with `Opp_`. */
  lemma SideFrameColumns(adv: Frame, k: string)
    ensures k in HomeFrame(adv).columns <==> k == GameIdColumn || k in AdvColumns(adv.columns)
    ensures k in AwayFrame(adv).columns ==> k == GameIdColumn || exists c :: c in AdvColumns(adv.columns) && k == Opp(c)
    ensures forall c :: c in AdvColumns(adv.columns) ==> Opp(c) in AwayFrame(adv).columns
  {
    var cols := AdvColumns(adv.columns);
    var opp := OppColumns(cols);
    if k in AwayFrame(adv).columns && k != GameIdColumn {
      var j :| 0 <= j < |opp| && opp[j] == k;
      assert cols[j] in cols;
    }
    forall c | c in cols ensures Opp(c) in AwayFrame(adv).columns {
      var j :| 0 <= j < |cols| && cols[j] == c;
      assert ([GameIdColumn] + opp)[j + 1] == Opp(c);
    }
  }

  /** Apart from the key, a home column starts with `B` and an away column with `Opp_B`. */
  lemma SideInitials(adv: Frame, k: string)
    ensures k in HomeFrame(adv).columns ==> k == GameIdColumn || (|k| > 0 && k[0] == 'B')
    ensures k in AwayFrame(adv).columns ==> k == GameIdColumn || (|k| > 4 && k[0] == 'O' && k[4] == 'B')
  {
    SideFrameColumns(adv, k);
    if k in HomeFrame(adv).columns && k != GameIdColumn {
      assert k[0] == AvgPrefix[0];
    }
    if k in AwayFrame(adv).columns && k != GameIdColumn {
      var c :| c in AdvColumns(adv.columns) && k == Opp(c);
      assert k[4] == c[0] == AvgPrefix[0];
    }
  }

  /** A renamed home column (one of the averages) still starts with `B`. */
  lemma HomeRenamedInitial(adv: Frame, k: string, sfx: string)
    requires k in HomeFrame(adv).columns && k != GameIdColumn
    requires sfx == LeftSuffix || sfx == RightSuffix
    ensures (k + sfx)[0] == 'B'
  {
    SideInitials(adv, k);
    SuffixLetters(k, sfx);
  }

  /** Every average column of the merged table has both operands, unless the base table already had one of them. */
  lemma MergedColumns(base: Frame, adv: Frame, c: string)
    requires c in AdvColumns(adv.columns)
    ensures c !in base.columns && Opp(c) !in base.columns ==> c in Merged(base, adv).columns && Opp(c) in Merged(base, adv).columns
  {
    if c !in base.columns && Opp(c) !in base.columns {
      var b, hf, af := CleanBase(base), HomeFrame(adv), AwayFrame(adv);
      var inner := MergeOn(b, hf);
      AvgColumnNames(c);
      assert c[0] == 'B' && Opp(c)[0] == 'O';
      SideFrameColumns(adv, c);
      MergeOnColumns(b, hf, c);
      assert c in inner.columns;
      SideInitials(adv, c);
      MergeOnColumns(inner, af, c);
      SideInitials(adv, Opp(c));
      forall c', sfx | c' in Shared(b.columns, hf.columns) && (sfx == LeftSuffix || sfx == RightSuffix)
        ensures Opp(c) != c' + sfx
      {
        HomeRenamedInitial(adv, c', sfx);
      }
      MergeOnColumns(b, hf, Opp(c));
      assert Opp(c) !in inner.columns;
      SideFrameColumns(adv, Opp(c));
      MergeOnColumns(inner, af, Opp(c));
    }
  }

  /**
   * An average the base table already has is met by the first merge: it is
   * kept twice, as `c_x` and `c_y`, and (when `c` does not itself end like
   * a renamed column) the plain name is gone, so the loop's test fails.
   */
  lemma BaseHasAverage(base: Frame, adv: Frame, c: string)
    requires c in AdvColumns(adv.columns) && c in base.columns
    ensures c + LeftSuffix in Merged(base, adv).columns && c + RightSuffix in Merged(base, adv).columns
    ensures !MergeSuffixed(c) ==> c !in Merged(base, adv).columns
  {
    var b, hf, af := CleanBase(base), HomeFrame(adv), AwayFrame(adv);
    var inner := MergeOn(b, hf);
    AvgColumnNames(c);
    SideFrameColumns(adv, c);
    assert c in Shared(b.columns, hf.columns);
    assert c[0] == 'B';
    forall sfx | sfx == LeftSuffix || sfx == RightSuffix
      ensures c + sfx in inner.columns && c + sfx !in af.columns
    {
      MergeOnColumns(b, hf, c + sfx);
      SuffixLetters(c, sfx);
      SideInitials(adv, c + sfx);
    }
    MergeOnColumns(inner, af, c + LeftSuffix);
    MergeOnColumns(inner, af, c + RightSuffix);
    if !MergeSuffixed(c) {
      forall c', sfx | sfx == LeftSuffix || sfx == RightSuffix ensures c != c' + sfx {
        RenamedEnds(c', sfx);
      }
      MergeOnColumns(b, hf, c);
      assert c !in inner.columns;
      SideInitials(adv, c);
      MergeOnColumns(inner, af, c);
    }
  }

  /**
   * An average whose `Opp_` name the base table already has is met by the
   * second merge: `Opp_c` is kept twice, as `Opp_c_x` and `Opp_c_y`.
   */
  lemma BaseHasOppAverage(base: Frame, adv: Frame, c: string)
    requires c in AdvColumns(adv.columns) && Opp(c) in base.columns
    ensures Opp(c) + LeftSuffix in Merged(base, adv).columns && Opp(c) + RightSuffix in Merged(base, adv).columns
    ensures Opp(c) in Shared(MergeOn(CleanBase(base), HomeFrame(adv)).columns, AwayFrame(adv).columns)
  {
    var b, hf, af := CleanBase(base), HomeFrame(adv), AwayFrame(adv);
    var inner := MergeOn(b, hf);
    AvgColumnNames(c);
    assert Opp(c) in b.columns && Opp(c)[0] == 'O';
    SideInitials(adv, Opp(c));
    MergeOnColumns(b, hf, Opp(c));
    assert Opp(c) in inner.columns;
    SideFrameColumns(adv, Opp(c));
    assert Opp(c) in Shared(inner.columns, af.columns);
    MergeOnColumns(inner, af, Opp(c) + LeftSuffix);
    MergeOnColumns(inner, af, Opp(c) + RightSuffix);
  }

  /** ... and (when `c` does not itself end like a renamed column) the plain `Opp_c` is gone, so the loop's test fails. */
  lemma BaseHasOppAverageGone(base: Frame, adv: Frame, c: string)
    requires c in AdvColumns(adv.columns) && Opp(c) in base.columns && !MergeSuffixed(c)
    ensures Opp(c) !in Merged(base, adv).columns
  {
    var inner, af := MergeOn(CleanBase(base), HomeFrame(adv)), AwayFrame(adv);
    BaseHasOppAverage(base, adv, c);
    assert |c| >= |AvgPrefix|;
    forall c', sfx | sfx == LeftSuffix || sfx == RightSuffix ensures Opp(c) != c' + sfx {
      RenamedEnds(c', sfx);
      OppEndsWith(c, sfx);
    }
    MergeOnColumns(inner, af, Opp(c));
  }

  /** The merged table no longer has the `Opp_Abbr.1` duplicate. */
  lemma MergedDropsDuplicate(base: Frame, adv: Frame)
    ensures DupAbbr !in Merged(base, adv).columns
  {
    var b, hf, af := CleanBase(base), HomeFrame(adv), AwayFrame(adv);
    var inner := MergeOn(b, hf);
    assert DupAbbr[0] == 'O' && DupAbbr[4] == 'A' && DupAbbr[9] == '1';
    forall c', sfx | sfx == LeftSuffix || sfx == RightSuffix ensures DupAbbr != c' + sfx {
      SuffixLetters(c', sfx);
    }
    SideInitials(adv, DupAbbr);
    MergeOnColumns(b, hf, DupAbbr);
    MergeOnColumns(inner, af, DupAbbr);
  }

  /** An average the base table already has (as `c` or `Opp_c`) gets no `Diff_` column from the loop. */
  lemma OverlapSkipped(base: Frame, adv: Frame, c: string)
    requires c in AdvColumns(adv.columns) && (c in base.columns || Opp(c) in base.columns) && !MergeSuffixed(c)
    ensures |MergeFinal(base, adv).rows| == |Merged(base, adv).rows| && Skipped(Merged(base, adv), MergeFinal(base, adv), c)
  {
    if c in base.columns {
      BaseHasAverage(base, adv, c);
    } else {
      BaseHasOppAverageGone(base, adv, c);
    }
    WithDiffsSkips(Merged(base, adv), AdvColumns(adv.columns), c);
  }

  /**
   * Every advanced average the base table does not already have (neither
   * as `c` nor as `Opp_c`) gets `Diff_c = c - Opp_c` on every row; for one
   * it does have, the merge renamed the operands and the loop adds nothing.
   * All other columns and cells are those of the merged table, which no
   * longer has the `Opp_Abbr.1` duplicate.
   */
  lemma MergeFinalDiffs(base: Frame, adv: Frame)
    ensures |MergeFinal(base, adv).rows| == |Merged(base, adv).rows|
    ensures forall c :: c in AdvColumns(adv.columns) && c !in base.columns && Opp(c) !in base.columns ==>
      HasDiff(Merged(base, adv), MergeFinal(base, adv), c)
    ensures forall c :: c in AdvColumns(adv.columns) && (c in base.columns || Opp(c) in base.columns) && !MergeSuffixed(c) ==>
      Skipped(Merged(base, adv), MergeFinal(base, adv), c)
    ensures forall i, k :: 0 <= i < |Merged(base, adv).rows| && !IsDiffColumn(k) ==>
      Get(MergeFinal(base, adv).rows[i], k) == Get(Merged(base, adv).rows[i], k)
    ensures DupAbbr !in MergeFinal(base, adv).columns
  {
    MergeFinalAdds(base, adv);
    MergeFinalSkips(base, adv);
    MergeFinalKeeps(base, adv);
  }

  lemma MergeFinalAdds(base: Frame, adv: Frame)
    ensures |MergeFinal(base, adv).rows| == |Merged(base, adv).rows|
    ensures forall c :: c in AdvColumns(adv.columns) && c !in base.columns && Opp(c) !in base.columns ==>
      HasDiff(Merged(base, adv), MergeFinal(base, adv), c)
  {
    var cols, m := AdvColumns(adv.columns), Merged(base, adv);
    WithDiffsEffect(m, cols);
    forall c | c in cols && c !in base.columns && Opp(c) !in base.columns ensures HasDiff(m, MergeFinal(base, adv), c) {
      MergedColumns(base, adv, c);
    }
  }

  lemma MergeFinalSkips(base: Frame, adv: Frame)
    ensures |MergeFinal(base, adv).rows| == |Merged(base, adv).rows|
    ensures forall c :: c in AdvColumns(adv.columns) && (c in base.columns || Opp(c) in base.columns) && !MergeSuffixed(c) ==>
      Skipped(Merged(base, adv), MergeFinal(base, adv), c)
  {
    var cols, m := AdvColumns(adv.columns), Merged(base, adv);
    WithDiffsEffect(m, cols);
    forall c | c in cols && (c in base.columns || Opp(c) in base.columns) && !MergeSuffixed(c)
      ensures Skipped(m, MergeFinal(base, adv), c)
    {
      OverlapSkipped(base, adv, c);
    }
  }

  lemma MergeFinalKeeps(base: Frame, adv: Frame)
    ensures |MergeFinal(base, adv).rows| == |Merged(base, adv).rows|
    ensures forall i, k :: 0 <= i < |Merged(base, adv).rows| && !IsDiffColumn(k) ==>
      Get(MergeFinal(base, adv).rows[i], k) == Get(Merged(base, adv).rows[i], k)
    ensures DupAbbr !in MergeFinal(base, adv).columns
  {
    WithDiffsEffect(Merged(base, adv), AdvColumns(adv.columns));
    MergedDropsDuplicate(base, adv);
    assert DupAbbr[0] == 'O';
    assert !IsDiffColumn(DupAbbr);
  }

  // ---------------------------------------------------------------------
  // Which rows the merges keep
  // ---------------------------------------------------------------------

  /** The columns each merge finds on both sides. */
  function HomeShared(base: Frame, adv: Frame): set<string>
  {
    Shared(CleanBase(base).columns, HomeFrame(adv).columns)
  }

  function AwayShared(base: Frame, adv: Frame): set<string>
  {
    Shared(MergeOn(CleanBase(base), HomeFrame(adv)).columns, AwayFrame(adv).columns)
  }

  /** `x` joins a base row with the home and the away advanced rows of its game. */
  ghost predicate FromGame(base: Frame, adv: Frame, x: Row)
  {
    var b, cols := CleanBase(base), AdvColumns(adv.columns);
    exists p, q, s :: 0 <= p < |b.rows| && 0 <= q < |adv.rows| && 0 <= s < |adv.rows| &&
      AtLocation(adv.rows[q], "Home") && AtLocation(adv.rows[s], "Away") &&
      GameId(b.rows[p]) == GameId(adv.rows[q]) && GameId(b.rows[p]) == GameId(adv.rows[s]) &&
      x == Combine(Combine(b.rows[p], HomeRow(adv.rows[q], cols), HomeShared(base, adv)), AwayRow(adv.rows[s], cols), AwayShared(base, adv))
  }

  /** A merged row keeps the left row's `game_id`: the key is never shared, and no renamed name is `game_id`. */
  lemma CombineKey(l: Row, r: Row, shared: set<string>)
    requires GameIdColumn !in shared
    ensures GameId(Combine(l, r, shared)) == GameId(l)
  {
    assert GameIdColumn[6] == 'd';
    forall c, sfx | sfx == LeftSuffix || sfx == RightSuffix ensures c + sfx != GameIdColumn {
      SuffixLetters(c, sfx);
    }
    assert GameIdColumn !in RenameRow(r - {GameIdColumn}, shared, RightSuffix);
  }

  /** `h` is the home projection of an advanced row of the same game. */
  ghost predicate HomeOf(adv: Frame, h: Row)
  {
    exists q :: 0 <= q < |adv.rows| && AtLocation(adv.rows[q], "Home") &&
      h == HomeRow(adv.rows[q], AdvColumns(adv.columns)) && GameId(h) == GameId(adv.rows[q])
  }

  ghost predicate AwayOf(adv: Frame, a: Row)
  {
    exists s :: 0 <= s < |adv.rows| && AtLocation(adv.rows[s], "Away") &&
      a == AwayRow(adv.rows[s], AdvColumns(adv.columns)) && GameId(a) == GameId(adv.rows[s])
  }

  lemma SideFrameRows(adv: Frame)
    ensures forall h :: h in HomeFrame(adv).rows ==> HomeOf(adv, h)
    ensures forall a :: a in AwayFrame(adv).rows ==> AwayOf(adv, a)
  {
    var cols := AdvColumns(adv.columns);
    FilterMapContents(adv.rows, r => HomeSelect(cols, r));
    FilterMapContents(adv.rows, r => AwaySelect(cols, r));
    forall h | h in HomeFrame(adv).rows ensures HomeOf(adv, h) {
      var q :| 0 <= q < |adv.rows| && HomeSelect(cols, adv.rows[q]) == Some(h);
    }
    forall a | a in AwayFrame(adv).rows ensures AwayOf(adv, a) {
      var s :| 0 <= s < |adv.rows| && AwaySelect(cols, adv.rows[s]) == Some(a);
    }
  }

  /** A row of a merge on `game_id` combines a left and a right row of one game, and keeps the left key. */
  lemma MergeOnRow(l: Frame, r: Frame, x: Row) returns (i: nat, j: nat)
    requires x in MergeOn(l, r).rows
    ensures i < |l.rows| && j < |r.rows| && GameId(l.rows[i]) == GameId(r.rows[j])
    ensures x == Combine(l.rows[i], r.rows[j], Shared(l.columns, r.columns)) && GameId(x) == GameId(l.rows[i])
  {
    var join := Joiner(Shared(l.columns, r.columns));
    InnerJoinSound(l.rows, r.rows, GameId, GameId, join);
    assert JoinedRow(l.rows, r.rows, GameId, GameId, join, x);
    i, j :| 0 <= i < |l.rows| && 0 <= j < |r.rows| && GameId(l.rows[i]) == GameId(r.rows[j]) &&
      x == join(l.rows[i], r.rows[j]);
    CombineKey(l.rows[i], r.rows[j], Shared(l.columns, r.columns));
  }

  /** Every merged row joins a base row with the home and the away advanced rows of its game. */
  lemma MergedRows(base: Frame, adv: Frame, x: Row)
    requires x in Merged(base, adv).rows
    ensures FromGame(base, adv, x)
  {
    var b := CleanBase(base);
    var hf, af := HomeFrame(adv), AwayFrame(adv);
    var inner := MergeOn(b, hf);
    var i, j := MergeOnRow(inner, af, x);
    var y := inner.rows[i];
    var p, k := MergeOnRow(b, hf, y);
    SideFrameRows(adv);
    assert hf.rows[k] in hf.rows && af.rows[j] in af.rows;
    assert HomeOf(adv, hf.rows[k]) && AwayOf(adv, af.rows[j]);
  }

  /** A left and a right row of one game meet in the merge. */
  lemma MergeOnComplete(l: Frame, r: Frame, i: nat, j: nat)
    requires i < |l.rows| && j < |r.rows| && GameId(l.rows[i]) == GameId(r.rows[j])
    ensures Combine(l.rows[i], r.rows[j], Shared(l.columns, r.columns)) in MergeOn(l, r).rows
  {
    var join := Joiner(Shared(l.columns, r.columns));
    assert join(l.rows[i], r.rows[j]) == Combine(l.rows[i], r.rows[j], Shared(l.columns, r.columns));
  }

  /** Conversely, a base row whose game has a home and an away advanced row reaches the output. */
  lemma MergedRowsComplete(base: Frame, adv: Frame, p: nat, q: nat, s: nat)
    requires p < |CleanBase(base).rows| && q < |adv.rows| && s < |adv.rows|
    requires AtLocation(adv.rows[q], "Home") && AtLocation(adv.rows[s], "Away")
    requires GameId(CleanBase(base).rows[p]) == GameId(adv.rows[q]) == GameId(adv.rows[s])
    ensures Combine(Combine(CleanBase(base).rows[p], HomeRow(adv.rows[q], AdvColumns(adv.columns)), HomeShared(base, adv)),
                    AwayRow(adv.rows[s], AdvColumns(adv.columns)), AwayShared(base, adv)) in Merged(base, adv).rows
  {
    var b, cols := CleanBase(base), AdvColumns(adv.columns);
    var hf, af := HomeFrame(adv), AwayFrame(adv);
    FilterMapContents(adv.rows, r => HomeSelect(cols, r));
    FilterMapContents(adv.rows, r => AwaySelect(cols, r));
    var h, a := HomeRow(adv.rows[q], cols), AwayRow(adv.rows[s], cols);
    assert HomeSelect(cols, adv.rows[q]) == Some(h);
    assert AwaySelect(cols, adv.rows[s]) == Some(a);
    assert h in hf.rows && a in af.rows;
    var k :| 0 <= k < |hf.rows| && hf.rows[k] == h;
    var j :| 0 <= j < |af.rows| && af.rows[j] == a;
    var y := Combine(b.rows[p], h, HomeShared(base, adv));
    MergeOnComplete(b, hf, p, k);
    var i :| 0 <= i < |MergeOn(b, hf).rows| && MergeOn(b, hf).rows[i] == y;
    CombineKey(b.rows[p], h, HomeShared(base, adv));
    MergeOnComplete(MergeOn(b, hf), af, i, j);
  }
}
