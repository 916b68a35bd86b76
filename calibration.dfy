/**
 * The calibration check: the season report's games are put into ten
 * equal-width probability bins, each non-empty bin compares its mean
 * predicted probability with its actual win rate and gets a marker, and
 * the bins with enough games are collected as sweet spots or danger
 * zones.
 */
module Calibration {
  import opened Common

  /** A game of the season report: the predicted home-win probability and the result (1 for a win). */
  datatype Game = Game(winProb: real, win: int)

  const BinCount: nat := 10

  function Lower(i: nat): real { (i as real) / 10.0 }
  function Upper(i: nat): real { (i as real + 1.0) / 10.0 }

  /** The first bin from `i` whose upper edge reaches `p`. */
  function FirstBin(p: real, i: nat): (b: nat)
    requires i < BinCount && p <= 1.0
    ensures i <= b < BinCount && p <= Upper(b)
    ensures b > i ==> Upper(b - 1) < p
    decreases BinCount - i
  {
    if i == BinCount - 1 || p <= Upper(i) then i else FirstBin(p, i + 1)
  }

  /** `pd.cut` on the edges 0, 0.1, …, 1 with the lowest edge included: bin 0 is [0, 0.1], bin i is (i/10, (i+1)/10]. */
  function BinOf(p: real): (b: Option<nat>)
    ensures b.Some? <==> 0.0 <= p <= 1.0
  {
    if p < 0.0 || p > 1.0 then None else Some(FirstBin(p, 0))
  }

  /** `p` lies in bin `i`. */
  predicate InInterval(p: real, i: nat)
  {
    i < BinCount && p <= Upper(i) && (if i == 0 then 0.0 <= p else Lower(i) < p)
  }

  /** A probability in [0, 1] falls in exactly one bin, the one `BinOf` names. */
  lemma BinOfSpec(p: real, j: nat)
    ensures BinOf(p).Some? ==> InInterval(p, BinOf(p).value)
    ensures InInterval(p, j) ==> BinOf(p) == Some(j)
  {
    if BinOf(p).Some? {
      var b := BinOf(p).value;
      assert b > 0 ==> Upper(b - 1) == Lower(b);
    }
  }

  function InBin(games: seq<Game>, i: nat): seq<Game>
  {
    FilterMap(games, (g: Game) => if BinOf(g.winProb) == Some(i) then Some(g) else None)
  }

  function Wins(gs: seq<Game>): seq<real>
  {
    seq(|gs|, k requires 0 <= k < |gs| => gs[k].win as real)
  }

  function Probs(gs: seq<Game>): seq<real>
  {
    seq(|gs|, k requires 0 <= k < |gs| => gs[k].winProb)
  }

  /** One row of the grouped table with its count, actual win rate and mean predicted probability. */
  datatype BinStat = BinStat(bin: nat, count: nat, trueAvg: real, predAvg: real)

  /** The bin's statistics; nothing for an empty bin (its means are NaN). */
  function BinSummary(games: seq<Game>, i: nat): (s: Option<BinStat>)
    ensures s.Some? <==> |InBin(games, i)| > 0
    ensures s.Some? ==> s.value.bin == i && s.value.count == |InBin(games, i)|
    ensures s.Some? ==> s.value.trueAvg == Mean(Wins(InBin(games, i))).value && s.value.predAvg == Mean(Probs(InBin(games, i))).value
  {
    var gs := InBin(games, i);
    if |gs| == 0 then None else Some(BinStat(i, |gs|, Mean(Wins(gs)).value, Mean(Probs(gs)).value))
  }

  /** The games of a bin all have probabilities inside it, so its mean prediction does too. */
  lemma PredAvgInBin(games: seq<Game>, i: nat)
    requires BinSummary(games, i).Some?
    ensures Lower(i) <= BinSummary(games, i).value.predAvg <= Upper(i)
  {
    var gs := InBin(games, i);
    FilterMapContents(games, (g: Game) => if BinOf(g.winProb) == Some(i) then Some(g) else None);
    forall k | 0 <= k < |gs| ensures Lower(i) <= Probs(gs)[k] <= Upper(i) {
      assert gs[k] in gs;
      BinOfSpec(gs[k].winProb, i);
    }
    MeanBounds(Probs(gs), Lower(i), Upper(i));
  }

  datatype Marker = Precise | Overconfident | Underconfident | Unmarked

  /** ✅ within 5 points, ⚠️ more than 10 points too high, 💎 more than 10 points too low, nothing in between. */
  function MarkerOf(diff: real): (m: Marker)
    ensures m == Precise <==> -0.05 < diff < 0.05
    ensures m == Overconfident <==> diff > 0.10
    ensures m == Underconfident <==> diff < -0.10
    ensures m == Unmarked <==> (0.05 <= diff <= 0.10 || -0.10 <= diff <= -0.05)
  {
    var a := if diff < 0.0 then -diff else diff;
    if a < 0.05 then Precise else if diff > 0.10 then Overconfident else if diff < -0.10 then Underconfident else Unmarked
  }

  /** A printed line of the table. */
  datatype BinLine = BinLine(stat: BinStat, diff: real, marker: Marker)

  datatype Spot = HomeSweetSpot(bin: nat) | AwaySweetSpot(bin: nat)

  function LineOf(s: BinStat): BinLine
  {
    var diff := s.predAvg - s.trueAvg;
    BinLine(s, diff, MarkerOf(diff))
  }

  function SweetOf(s: BinStat): seq<Spot>
  {
    var diff := s.predAvg - s.trueAvg;
    if s.count < 5 then []
    else (if s.trueAvg > 0.7 && diff < 0.05 then [HomeSweetSpot(s.bin)] else []) +
         (if s.trueAvg < 0.3 && diff > -0.05 then [AwaySweetSpot(s.bin)] else [])
  }

  function DangerOf(s: BinStat): seq<nat>
  {
    if s.count >= 5 && s.predAvg - s.trueAvg > 0.15 then [s.bin] else []
  }

  /** The grouped table: one entry per bin, nothing for an empty one. */
  function Stats(games: seq<Game>): (t: seq<Option<BinStat>>)
    ensures |t| == BinCount
    ensures forall i :: 0 <= i < BinCount ==> t[i] == BinSummary(games, i)
  {
    seq(BinCount, i requires 0 <= i < BinCount => BinSummary(games, i))
  }

  function LinesUpTo(t: seq<Option<BinStat>>, k: nat): seq<BinLine>
    requires k <= |t|
  {
    if k == 0 then [] else LinesUpTo(t, k - 1) + (if t[k - 1].Some? then [LineOf(t[k - 1].value)] else [])
  }

  function SweetUpTo(t: seq<Option<BinStat>>, k: nat): seq<Spot>
    requires k <= |t|
  {
    if k == 0 then [] else SweetUpTo(t, k - 1) + (if t[k - 1].Some? then SweetOf(t[k - 1].value) else [])
  }

  function DangerUpTo(t: seq<Option<BinStat>>, k: nat): seq<nat>
    requires k <= |t|
  {
    if k == 0 then [] else DangerUpTo(t, k - 1) + (if t[k - 1].Some? then DangerOf(t[k - 1].value) else [])
  }

  /** The body of the bin loop for a non-empty bin: its line, its sweet spots, its danger zone. */
  method BinStep(st: BinStat) returns (line: BinLine, spots: seq<Spot>, zones: seq<nat>)
    ensures line == LineOf(st) && spots == SweetOf(st) && zones == DangerOf(st)
  {
    var diff := st.predAvg - st.trueAvg;
    var marker := Unmarked;
    var a := if diff < 0.0 then -diff else diff;
    if a < 0.05 {
      marker := Precise;
    } else if diff > 0.10 {
      marker := Overconfident;
    } else if diff < -0.10 {
      marker := Underconfident;
    }
    line := BinLine(st, diff, marker);
    spots, zones := [], [];
    if st.count >= 5 {
      if st.trueAvg > 0.7 {
        if diff < 0.05 {
          spots := spots + [HomeSweetSpot(st.bin)];
        }
      }
      if st.trueAvg < 0.3 {
        if diff > -0.05 {
          spots := spots + [AwaySweetSpot(st.bin)];
        }
      }
      if diff > 0.15 {
        zones := zones + [st.bin];
      }
    }
  }

  /** The table and strategy loop of `analyze_calibration`. */
  method AnalyzeCalibration(games: seq<Game>) returns (lines: seq<BinLine>, sweet: seq<Spot>, danger: seq<nat>)
    ensures lines == LinesUpTo(Stats(games), BinCount)
    ensures sweet == SweetUpTo(Stats(games), BinCount)
    ensures danger == DangerUpTo(Stats(games), BinCount)
  {
    var t := Stats(games);
    StatsWellFormed(games);
    lines, sweet, danger := [], [], [];
    for i := 0 to BinCount
      invariant lines == LinesUpTo(t, i) && sweet == SweetUpTo(t, i) && danger == DangerUpTo(t, i)
    {
      if t[i].Some? && t[i].value.count > 0 {
        var line, spots, zones := BinStep(t[i].value);
        lines, sweet, danger := lines + [line], sweet + spots, danger + zones;
      }
    }
  }

  /** The table holds every bin's statistics, each entry naming its own bin. */
  ghost predicate WellFormed(t: seq<Option<BinStat>>)
  {
    forall i :: 0 <= i < |t| && t[i].Some? ==> t[i].value.bin == i && t[i].value.count > 0
  }

  lemma StatsWellFormed(games: seq<Game>)
    ensures WellFormed(Stats(games))
    ensures forall i :: 0 <= i < BinCount ==> (Stats(games)[i].Some? <==> |InBin(games, i)| > 0)
  {
  }

  /**
   * Only non-empty bins are listed, each with its own statistics, the
   * difference mean predicted minus actual, and the marker of that
   * difference; every non-empty bin is listed.
   */
  lemma {:induction false} LinesSpec(t: seq<Option<BinStat>>, k: nat)
    requires k <= |t| && WellFormed(t)
    ensures forall l :: l in LinesUpTo(t, k) ==>
      l.stat.bin < k && t[l.stat.bin] == Some(l.stat) && l.stat.count > 0 &&
      l.diff == l.stat.predAvg - l.stat.trueAvg && l.marker == MarkerOf(l.diff)
    ensures forall i :: 0 <= i < k && t[i].Some? ==> LineOf(t[i].value) in LinesUpTo(t, k)
  {
    if k > 0 {
      LinesSpec(t, k - 1);
    }
  }

  /** A bin of at least five games, won more than 70 % of the time and predicted at most 5 points high. */
  predicate HomeSweet(s: BinStat)
  {
    s.count >= 5 && s.trueAvg > 0.7 && s.predAvg - s.trueAvg < 0.05
  }

  /** A bin of at least five games, won less than 30 % of the time and predicted at most 5 points low. */
  predicate AwaySweet(s: BinStat)
  {
    s.count >= 5 && s.trueAvg < 0.3 && s.predAvg - s.trueAvg > -0.05
  }

  /** The spots of one bin: at most one, of that bin, with at least five games and the side's conditions. */
  lemma SweetOfSpec(s: BinStat)
    ensures |SweetOf(s)| <= 1
    ensures forall sp :: sp in SweetOf(s) ==> sp.bin == s.bin && s.count >= 5
    ensures HomeSweetSpot(s.bin) in SweetOf(s) ==> s.trueAvg > 0.7 && s.predAvg - s.trueAvg < 0.05
    ensures AwaySweetSpot(s.bin) in SweetOf(s) ==> s.trueAvg < 0.3 && s.predAvg - s.trueAvg > -0.05
    ensures HomeSweet(s) ==> HomeSweetSpot(s.bin) in SweetOf(s)
    ensures AwaySweet(s) ==> AwaySweetSpot(s.bin) in SweetOf(s)
  {
  }

  /**
   * A sweet spot needs at least five games: a home one an actual rate
   * above 70 % and a prediction at most 5 points high, so it is never
   * marked overconfident; an away one an actual rate below 30 % and a
   * prediction at most 5 points low, so never marked underconfident.
   */
  lemma SweetSpec(t: seq<Option<BinStat>>, k: nat)
    requires k <= |t| && WellFormed(t)
    ensures forall sp :: sp in SweetUpTo(t, k) ==> sp.bin < k && t[sp.bin].Some? && t[sp.bin].value.count >= 5
    ensures forall b: nat :: HomeSweetSpot(b) in SweetUpTo(t, k) ==> t[b].value.trueAvg > 0.7 && t[b].value.predAvg - t[b].value.trueAvg < 0.05
    ensures forall b: nat :: AwaySweetSpot(b) in SweetUpTo(t, k) ==> t[b].value.trueAvg < 0.3 && t[b].value.predAvg - t[b].value.trueAvg > -0.05
    ensures forall i :: 0 <= i < k && t[i].Some? && HomeSweet(t[i].value) ==> HomeSweetSpot(i) in SweetUpTo(t, k)
    ensures forall i :: 0 <= i < k && t[i].Some? && AwaySweet(t[i].value) ==> AwaySweetSpot(i) in SweetUpTo(t, k)
  {
    SweetSound(t, k);
    SweetComplete(t, k);
  }

  /** Every collected spot is of an earlier bin meeting its side's conditions. */
  lemma {:induction false} SweetSound(t: seq<Option<BinStat>>, k: nat)
    requires k <= |t| && WellFormed(t)
    ensures forall sp :: sp in SweetUpTo(t, k) ==> sp.bin < k && t[sp.bin].Some? && t[sp.bin].value.count >= 5
    ensures forall b: nat :: HomeSweetSpot(b) in SweetUpTo(t, k) ==> t[b].value.trueAvg > 0.7 && t[b].value.predAvg - t[b].value.trueAvg < 0.05
    ensures forall b: nat :: AwaySweetSpot(b) in SweetUpTo(t, k) ==> t[b].value.trueAvg < 0.3 && t[b].value.predAvg - t[b].value.trueAvg > -0.05
  {
    if k > 0 {
      SweetSound(t, k - 1);
      if t[k - 1].Some? {
        SweetOfSpec(t[k - 1].value);
      }
    }
  }

  /** Every earlier bin meeting a side's conditions is collected as that side's spot. */
  lemma {:induction false} SweetComplete(t: seq<Option<BinStat>>, k: nat)
    requires k <= |t| && WellFormed(t)
    ensures forall i :: 0 <= i < k && t[i].Some? && HomeSweet(t[i].value) ==> HomeSweetSpot(i) in SweetUpTo(t, k)
    ensures forall i :: 0 <= i < k && t[i].Some? && AwaySweet(t[i].value) ==> AwaySweetSpot(i) in SweetUpTo(t, k)
  {
    if k > 0 {
      SweetComplete(t, k - 1);
      if t[k - 1].Some? {
        SweetOfSpec(t[k - 1].value);
      }
    }
  }

  /** No bin is both a home and an away sweet spot, and neither kind is marked against itself. */
  lemma SweetExclusive(t: seq<Option<BinStat>>, b: nat)
    requires WellFormed(t) && |t| == BinCount
    ensures HomeSweetSpot(b) in SweetUpTo(t, BinCount) ==> AwaySweetSpot(b) !in SweetUpTo(t, BinCount)
    ensures HomeSweetSpot(b) in SweetUpTo(t, BinCount) ==> b < BinCount && t[b].Some? && MarkerOf(t[b].value.predAvg - t[b].value.trueAvg) != Overconfident
    ensures AwaySweetSpot(b) in SweetUpTo(t, BinCount) ==> b < BinCount && t[b].Some? && MarkerOf(t[b].value.predAvg - t[b].value.trueAvg) != Underconfident
  {
    SweetSpec(t, BinCount);
  }

  /** A danger zone is exactly a bin of at least five games whose prediction is more than 15 points high; it is marked overconfident. */
  lemma {:induction false} DangerSpec(t: seq<Option<BinStat>>, k: nat)
    requires k <= |t| && WellFormed(t)
    ensures forall b :: b in DangerUpTo(t, k) ==> b < k && t[b].Some? && t[b].value.count >= 5 && t[b].value.predAvg - t[b].value.trueAvg > 0.15
    ensures forall b :: b in DangerUpTo(t, k) ==> MarkerOf(t[b].value.predAvg - t[b].value.trueAvg) == Overconfident
    ensures forall i :: 0 <= i < k && t[i].Some? && t[i].value.count >= 5 && t[i].value.predAvg - t[i].value.trueAvg > 0.15 ==> i in DangerUpTo(t, k)
  {
    if k > 0 {
      DangerSpec(t, k - 1);
    }
  }
}
