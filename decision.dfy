/**
 * The decision engine: each prediction is paired with the day's odds,
 * each side's expected value is `p * odds - 1`, and a betting signal is
 * chosen, either by the simple value rule or by the banded rule that
 * follows the calibration study.  The analysis history is updated by
 * date and home team and kept newest first.
 */
module Decision {
  import opened Common
  import opened Ordering
  import opened Dedup
  import opened Joins

  // ---------------------------------------------------------------------
  // Rows and expected values
  // ---------------------------------------------------------------------

  /** A prediction row as read back: the date text, the teams and the probability columns it may carry. */
  datatype Prediction = Prediction(date: string, home: string, away: string, homeWinProb: Option<real>, predictedProb: Option<real>)

  /** A row of the odds file. */
  datatype OddsLine = OddsLine(homeAbbr: string, awayAbbr: string, oddsHome: Option<real>, oddsAway: Option<real>)

  /** `Home_Win_Prob`, else `Predicted_Prob_Win (1)`, else 0.5. */
  function HomeProb(p: Prediction): (hp: real)
    ensures p.homeWinProb.Some? ==> hp == p.homeWinProb.value
    ensures p.homeWinProb.None? && p.predictedProb.Some? ==> hp == p.predictedProb.value
    ensures p.homeWinProb.None? && p.predictedProb.None? ==> hp == 0.5
  {
    if p.homeWinProb.Some? then p.homeWinProb.value
    else if p.predictedProb.Some? then p.predictedProb.value
    else 0.5
  }

  /** The expected value of one unit staked at decimal `odds` on a side that wins with probability `p`; none without odds. */
  function Ev(p: real, odds: Option<real>): (e: Option<real>)
    ensures e.None? <==> odds.None?
  {
    if odds.None? then None else Some(p * odds.value - 1.0)
  }

  /** A bet has positive value exactly when the odds beat the fair odds `1 / p`, and the value rises with the odds. */
  lemma EvFairOdds(p: real, o: real, o': real)
    requires 0.0 < p
    ensures Ev(p, Some(o)).value > 0.0 <==> o > 1.0 / p
    ensures o <= o' ==> Ev(p, Some(o)).value <= Ev(p, Some(o')).value
  {
    assert p * (1.0 / p) == 1.0;
    if o > 1.0 / p {
      assert p * o > p * (1.0 / p);
    } else {
      assert p * o <= p * (1.0 / p);
    }
    if o <= o' {
      assert p * o <= p * o';
    }
  }

  /** `calculate_ev`: the home side at `hp`, the away side at `1 - hp`. */
  function CalculateEv(p: Prediction, line: Option<OddsLine>): (r: (Option<real>, Option<real>))
    ensures line.None? ==> r == (None, None)
    ensures line.Some? ==> r == (Ev(HomeProb(p), line.value.oddsHome), Ev(1.0 - HomeProb(p), line.value.oddsAway))
  {
    if line.None? then (None, None)
    else (Ev(HomeProb(p), line.value.oddsHome), Ev(1.0 - HomeProb(p), line.value.oddsAway))
  }

  /** With both odds the two values add up to the book's margin: `hp * oh + (1 - hp) * oa - 2`. */
  lemma EvSidesSum(p: Prediction, l: OddsLine)
    requires l.oddsHome.Some? && l.oddsAway.Some?
    ensures var (eh, ea) := CalculateEv(p, Some(l));
      eh.value + ea.value == HomeProb(p) * l.oddsHome.value + (1.0 - HomeProb(p)) * l.oddsAway.value - 2.0
  {
  }

  // ---------------------------------------------------------------------
  // Signal tags (what the grading step looks for in the signal text)
  // ---------------------------------------------------------------------

  /** The markers a signal text can contain: 主, 客, "BET HOME", "BET AWAY", "PASS", 觀望, 無賠率. */
  datatype Tag = HomeMark | AwayMark | BetHomeTag | BetAwayTag | PassTag | WatchTag | NoOddsTag

  // ---------------------------------------------------------------------
  // The simple value rule
  // ---------------------------------------------------------------------

  /** `主EV=…` or `客EV=…`, with ★ when the value exceeds 0.1 and 🔥 when the model is confident on that side. */
  datatype ValuePart = ValuePart(side: Location, ev: real, star: bool, fire: bool)

  datatype SimpleSignal = SimpleNoOdds | SimpleWatch | Parts(parts: seq<ValuePart>)

  function HomePart(hp: real, eh: real): seq<ValuePart>
  {
    if eh > 0.0 then [ValuePart(Home, eh, eh > 0.1, hp >= 0.65)] else []
  }

  function AwayPart(hp: real, ea: real): seq<ValuePart>
  {
    if ea > 0.0 then [ValuePart(Away, ea, ea > 0.1, hp <= 0.35)] else []
  }

  /** `get_signal`. */
  function SimpleSignalOf(hp: real, eh: Option<real>, ea: Option<real>): SimpleSignal
  {
    if eh.None? || ea.None? then SimpleNoOdds
    else
      var res := HomePart(hp, eh.value) + AwayPart(hp, ea.value);
      if |res| == 0 then SimpleWatch else Parts(res)
  }

  /**
   * No odds on either side gives "無賠率"; otherwise a side is listed
   * exactly when its value is positive (home first), ★ marks a value
   * above 0.1, and 🔥 marks the side the predictor's confidence band
   * favours; with no positive side the signal is "觀望".
   */
  lemma SimpleSignalSpec(hp: real, eh: Option<real>, ea: Option<real>)
    ensures SimpleSignalOf(hp, eh, ea) == SimpleNoOdds <==> eh.None? || ea.None?
    ensures eh.Some? && ea.Some? ==>
      (SimpleSignalOf(hp, eh, ea) == SimpleWatch <==> eh.value <= 0.0 && ea.value <= 0.0)
    ensures SimpleSignalOf(hp, eh, ea).Parts? ==>
      var ps := SimpleSignalOf(hp, eh, ea).parts;
      |ps| == (if eh.value > 0.0 then 1 else 0) + (if ea.value > 0.0 then 1 else 0) &&
      (forall k :: 0 <= k < |ps| ==> ps[k].ev > 0.0 && (ps[k].star <==> ps[k].ev > 0.1)) &&
      (forall k :: 0 <= k < |ps| ==> ps[k].side == Home ==> k == 0 && ps[k].ev == eh.value && (ps[k].fire <==> ConfidenceBand(hp) == HighHome)) &&
      (forall k :: 0 <= k < |ps| ==> ps[k].side == Away ==> ps[k].ev == ea.value && (ps[k].fire <==> ConfidenceBand(hp) == HighAway))
  {
  }

  function SimplePartTag(p: ValuePart): Tag
  {
    if p.side == Home then HomeMark else AwayMark
  }

  /** The markers in the text of a simple signal. */
  function SimpleTags(s: SimpleSignal): (t: set<Tag>)
    ensures t <= {HomeMark, AwayMark, WatchTag, NoOddsTag}
  {
    match s
    case SimpleNoOdds => {NoOddsTag}
    case SimpleWatch => {WatchTag}
    case Parts(ps) => set k | 0 <= k < |ps| :: SimplePartTag(ps[k])
  }

  /** 主 is in the text exactly when the home value is positive, 客 exactly when the away value is. */
  lemma SimpleTagsSpec(hp: real, eh: real, ea: real)
    ensures HomeMark in SimpleTags(SimpleSignalOf(hp, Some(eh), Some(ea))) <==> eh > 0.0
    ensures AwayMark in SimpleTags(SimpleSignalOf(hp, Some(eh), Some(ea))) <==> ea > 0.0
    ensures WatchTag in SimpleTags(SimpleSignalOf(hp, Some(eh), Some(ea))) <==> eh <= 0.0 && ea <= 0.0
  {
    var s := SimpleSignalOf(hp, Some(eh), Some(ea));
    if s.Parts? {
      var ps := s.parts;
      if eh > 0.0 {
        assert SimplePartTag(ps[0]) == HomeMark;
      }
      if ea > 0.0 {
        assert SimplePartTag(ps[|ps| - 1]) == AwayMark;
      }
    }
  }

  // ---------------------------------------------------------------------
  // The banded rule
  // ---------------------------------------------------------------------

  /** The entries of a banded signal; 🔥 on a strong or sniper bet marks a value above 0.1. */
  datatype BandedEntry =
    | StrongHome(ev: real, fire: bool)
    | SniperAway(ev: real, fire: bool)
    | LockHome(ev: real)
    | LockAway(ev: real)
    | RiskyHome(ev: real)
    | RiskyAway(ev: real)

  datatype BandedSignal = BandedNoOdds | OverconfidencePass | NoisePass | BandedWatch | Entries(entries: seq<BandedEntry>)

  /** The bets of the four bands, before the fallback. */
  function BandBets(hp: real, eh: real, ea: real): seq<BandedEntry>
  {
    (if 0.70 <= hp < 0.80 && eh > 0.0 then [StrongHome(eh, eh > 0.1)] else []) +
    (if 0.20 <= hp < 0.30 && ea > 0.0 then [SniperAway(ea, ea > 0.1)] else []) +
    (if hp >= 0.90 then [LockHome(eh)] else []) +
    (if hp < 0.20 then [LockAway(ea)] else [])
  }

  /** `get_v800_signal`. */
  function BandedSignalOf(hp: real, eh: Option<real>, ea: Option<real>): BandedSignal
  {
    if eh.None? || ea.None? then BandedNoOdds
    else if 0.80 <= hp < 0.90 then OverconfidencePass
    else
      var bets := BandBets(hp, eh.value, ea.value);
      if |bets| > 0 then Entries(bets)
      else if 0.40 <= hp < 0.60 then NoisePass
      else
        var risky := (if eh.value > 0.15 then [RiskyHome(eh.value)] else []) + (if ea.value > 0.15 then [RiskyAway(ea.value)] else []);
        if |risky| == 0 then BandedWatch else Entries(risky)
  }

  predicate IsHomeBet(e: BandedEntry) { e.StrongHome? || e.LockHome? }
  predicate IsAwayBet(e: BandedEntry) { e.SniperAway? || e.LockAway? }

  /**
   * The bands: missing odds first, then the 80-90 % pass whatever the
   * value, the locks above 90 % and below 20 % whatever the value, the
   * noise-zone pass between 40 % and 60 % whatever the value.
   */
  lemma BandedSignalBands(hp: real, eh: real, ea: real)
    ensures BandedSignalOf(hp, None, Some(ea)) == BandedNoOdds && BandedSignalOf(hp, Some(eh), None) == BandedNoOdds
    ensures 0.80 <= hp < 0.90 ==> BandedSignalOf(hp, Some(eh), Some(ea)) == OverconfidencePass
    ensures hp >= 0.90 ==> BandedSignalOf(hp, Some(eh), Some(ea)) == Entries([LockHome(eh)])
    ensures hp < 0.20 ==> BandedSignalOf(hp, Some(eh), Some(ea)) == Entries([LockAway(ea)])
    ensures 0.40 <= hp < 0.60 ==> BandedSignalOf(hp, Some(eh), Some(ea)) == NoisePass
  {
  }

  /**
   * A home bet is signalled exactly in the strong band with a positive
   * home value or in the home lock band, an away bet exactly in the
   * sniper band with a positive away value or in the away lock band, and
   * never both; a risky mention only comes with no bet.
   */
  lemma BandedBetsDisjoint(hp: real, eh: real, ea: real)
    ensures var s := BandedSignalOf(hp, Some(eh), Some(ea));
      (s.Entries? && (exists k :: 0 <= k < |s.entries| && IsHomeBet(s.entries[k]))) <==> (0.70 <= hp < 0.80 && eh > 0.0) || hp >= 0.90
    ensures var s := BandedSignalOf(hp, Some(eh), Some(ea));
      (s.Entries? && (exists k :: 0 <= k < |s.entries| && IsAwayBet(s.entries[k]))) <==> (0.20 <= hp < 0.30 && ea > 0.0) || hp < 0.20
    ensures var s := BandedSignalOf(hp, Some(eh), Some(ea));
      s.Entries? ==> |s.entries| <= 2 && (|s.entries| == 2 ==> s.entries == [RiskyHome(eh), RiskyAway(ea)])
  {
    var s := BandedSignalOf(hp, Some(eh), Some(ea));
    if (0.70 <= hp < 0.80 && eh > 0.0) {
      assert s.entries[0] == StrongHome(eh, eh > 0.1);
    }
    if hp >= 0.90 {
      assert s.entries[0] == LockHome(eh);
    }
    if 0.20 <= hp < 0.30 && ea > 0.0 {
      assert s.entries[0] == SniperAway(ea, ea > 0.1);
    }
    if hp < 0.20 {
      assert s.entries[0] == LockAway(ea);
    }
  }

  function BandedEntryTag(e: BandedEntry): Tag
  {
    match e
    case StrongHome(_, _) => BetHomeTag
    case LockHome(_) => BetHomeTag
    case SniperAway(_, _) => BetAwayTag
    case LockAway(_) => BetAwayTag
    case RiskyHome(_) => HomeMark
    case RiskyAway(_) => AwayMark
  }

  /** The markers in the text of a banded signal. */
  function BandedTags(s: BandedSignal): (t: set<Tag>)
    ensures s.BandedNoOdds? <==> t == {NoOddsTag}
    ensures s.OverconfidencePass? || s.NoisePass? <==> t == {PassTag}
  {
    match s
    case BandedNoOdds => {NoOddsTag}
    case OverconfidencePass => {PassTag}
    case NoisePass => {PassTag}
    case BandedWatch => {WatchTag}
    case Entries(es) =>
      var t := set k | 0 <= k < |es| :: BandedEntryTag(es[k]);
      assert NoOddsTag !in t && PassTag !in t;
      t
  }

  // ---------------------------------------------------------------------
  // Pairing predictions with odds
  // ---------------------------------------------------------------------

  /** One line of the analysis: the prediction, both odds, both values and the signal. */
  datatype Analysis<S> = Analysis(pred: Prediction, oddsHome: Option<real>, oddsAway: Option<real>,
                                  evHome: Option<real>, evAway: Option<real>, signal: S)

  function PredKey(p: Prediction): (string, string) { (p.home, p.away) }
  function LineKey(l: OddsLine): (string, string) { (l.homeAbbr, l.awayAbbr) }

  /** The merged row of one prediction with its odds line (or none), with values and signal. */
  function Analyzed<S>(p: Prediction, line: Option<OddsLine>, rule: (real, Option<real>, Option<real>) -> S): Analysis<S>
  {
    var (eh, ea) := CalculateEv(p, line);
    Analysis(p, if line.None? then None else line.value.oddsHome, if line.None? then None else line.value.oddsAway,
             eh, ea, rule(HomeProb(p), eh, ea))
  }

  /** `main` up to the history: a left merge on (home, away) when the odds file exists, all values missing otherwise. */
  function Analyze<S>(preds: seq<Prediction>, odds: Option<seq<OddsLine>>, rule: (real, Option<real>, Option<real>) -> S, noOdds: S): seq<Analysis<S>>
  {
    if odds.None? then seq(|preds|, i requires 0 <= i < |preds| => Analysis(preds[i], None, None, None, None, noOdds))
    else LeftJoin(preds, odds.value, PredKey, LineKey, (p, l) => Analyzed(p, l, rule))
  }

  ghost predicate UniqueLines(lines: seq<OddsLine>)
  {
    UniqueRightKeys(lines, LineKey)
  }

  /**
   * Every prediction is kept, in order: without an odds file each row has
   * no odds, no values and the no-odds signal; with one (one line per
   * pair of teams) each row carries its own pair's line, or none.
   */
  lemma AnalyzeKeepsEveryRow<S>(preds: seq<Prediction>, odds: Option<seq<OddsLine>>, rule: (real, Option<real>, Option<real>) -> S, noOdds: S)
    requires odds.Some? ==> UniqueLines(odds.value)
    ensures |Analyze(preds, odds, rule, noOdds)| == |preds|
    ensures forall i :: 0 <= i < |preds| ==> Analyze(preds, odds, rule, noOdds)[i].pred == preds[i]
    ensures odds.None? ==> forall i :: 0 <= i < |preds| ==>
      Analyze(preds, odds, rule, noOdds)[i] == Analysis(preds[i], None, None, None, None, noOdds)
    ensures odds.Some? ==> forall i :: 0 <= i < |preds| ==>
      Analyze(preds, odds, rule, noOdds)[i] == Analyzed(preds[i], FindByKey(odds.value, LineKey, PredKey(preds[i])), rule)
  {
    if odds.Some? {
      LeftJoinUnique(preds, odds.value, PredKey, LineKey, (p, l) => Analyzed(p, l, rule));
    }
  }

  /** A prediction without a matching line has no values, so both rules say "無賠率". */
  lemma UnmatchedHasNoOdds(p: Prediction)
    ensures Analyzed(p, None, SimpleSignalOf).signal == SimpleNoOdds
    ensures Analyzed(p, None, BandedSignalOf).signal == BandedNoOdds
  {
  }

  // ---------------------------------------------------------------------
  // The history file
  // ---------------------------------------------------------------------

  /** The existing report: absent, unreadable, without the home column, or a table. */
  datatype History<S> = NoReport | Unreadable | Incompatible | Stored(rows: seq<Analysis<S>>)

  /** `Date + "_" + Home`. */
  function UniqueKey<S>(r: Analysis<S>): string
  {
    r.pred.date + "_" + r.pred.home
  }

  function DateOrder<S>(r: Analysis<S>): Key
  {
    [StrKey(r.pred.date)]
  }

  /** The stored rows whose key is not in the new batch. */
  function KeptHistory<S>(rows: seq<Analysis<S>>, batch: seq<Analysis<S>>): seq<Analysis<S>>
  {
    DropKeys(rows, r => UniqueKey(r), KeySet(batch, r => UniqueKey(r)))
  }

  /** The report written: old rows replaced by the batch's, newest date first; the batch alone when there is no usable table. */
  function Upsert<S>(history: History<S>, batch: seq<Analysis<S>>): seq<Analysis<S>>
  {
    match history
    case Stored(rows) => Reverse(SortBy(KeptHistory(rows, batch) + batch, DateOrder))
    case _ => batch
  }

  ghost predicate NewestFirst<S>(rows: seq<Analysis<S>>)
  {
    forall i, j :: 0 <= i < j < |rows| ==> KeyLe(DateOrder(rows[j]), DateOrder(rows[i]))
  }

  /**
   * The written report holds exactly the batch and the stored rows whose
   * key the batch does not have, each once, newest date first.
   */
  lemma UpsertSpec<S>(rows: seq<Analysis<S>>, batch: seq<Analysis<S>>)
    ensures multiset(Upsert(Stored(rows), batch)) == multiset(KeptHistory(rows, batch)) + multiset(batch)
    ensures NewestFirst(Upsert(Stored(rows), batch))
    ensures forall x :: x in KeptHistory(rows, batch) ==> x in rows && UniqueKey(x) !in KeySet(batch, r => UniqueKey(r))
  {
    var sorted := SortBy(KeptHistory(rows, batch) + batch, DateOrder);
    ReverseMultiset(sorted);
    ReverseSortedDescending(sorted, DateOrder);
  }

  /** Every stored row whose key the batch lacks is kept. */
  lemma {:induction false} KeptHistoryComplete<S>(rows: seq<Analysis<S>>, batch: seq<Analysis<S>>, x: Analysis<S>)
    requires x in rows && UniqueKey(x) !in KeySet(batch, r => UniqueKey(r))
    ensures x in KeptHistory(rows, batch)
  {
    DropKeysKeeps(rows, r => UniqueKey(r), KeySet(batch, r => UniqueKey(r)), x);
  }

  lemma {:induction false} DropKeysKeeps<T, K>(rows: seq<T>, key: T -> K, ks: set<K>, x: T)
    requires x in rows && key(x) !in ks
    ensures x in DropKeys(rows, key, ks)
  {
    if rows[0] != x {
      DropKeysKeeps(rows[1..], key, ks, x);
    }
  }

  /** Dropping keys removes every copy of a row with a dropped key and keeps every copy of the others. */
  lemma {:induction false} DropKeysCount<T, K>(rows: seq<T>, key: T -> K, ks: set<K>, x: T)
    ensures multiset(DropKeys(rows, key, ks))[x] == if key(x) in ks then 0 else multiset(rows)[x]
  {
    if |rows| > 0 {
      DropKeysCount(rows[1..], key, ks, x);
      assert rows == [rows[0]] + rows[1..];
    }
  }

  /** The rows written are the kept old rows and the batch, as a multiset. */
  lemma UpsertContents<S>(rows: seq<Analysis<S>>, batch: seq<Analysis<S>>)
    ensures multiset(Upsert(Stored(rows), batch)) == multiset(KeptHistory(rows, batch)) + multiset(batch)
  {
    ReverseMultiset(SortBy(KeptHistory(rows, batch) + batch, DateOrder));
  }

  /** Writing a batch again drops the same old rows: what survives of the report is what survived of the table. */
  lemma KeptAfterUpsert<S>(rows: seq<Analysis<S>>, batch: seq<Analysis<S>>)
    ensures multiset(KeptHistory(Upsert(Stored(rows), batch), batch)) == multiset(KeptHistory(rows, batch))
  {
    var once := Upsert(Stored(rows), batch);
    UpsertContents(rows, batch);
    forall x | true
      ensures multiset(KeptHistory(once, batch))[x] == multiset(KeptHistory(rows, batch))[x]
    {
      KeptCount(rows, once, batch, x);
    }
    assert multiset(KeptHistory(once, batch)) == multiset(KeptHistory(rows, batch));
  }

  /** A table holding the kept rows and the batch keeps, against the batch, as many copies of each row as the first table kept. */
  lemma KeptCount<S>(rows: seq<Analysis<S>>, once: seq<Analysis<S>>, batch: seq<Analysis<S>>, x: Analysis<S>)
    requires multiset(once) == multiset(KeptHistory(rows, batch)) + multiset(batch)
    ensures multiset(KeptHistory(once, batch))[x] == multiset(KeptHistory(rows, batch))[x]
  {
    var ks := KeySet(batch, r => UniqueKey(r));
    DropKeysCount(once, r => UniqueKey(r), ks, x);
    DropKeysCount(rows, r => UniqueKey(r), ks, x);
    BatchKeyed(batch, x);
  }

  /** A row of the batch has its key among the batch's keys. */
  lemma BatchKeyed<S>(batch: seq<Analysis<S>>, x: Analysis<S>)
    ensures x in batch ==> UniqueKey(x) in KeySet(batch, r => UniqueKey(r))
  {
    if x in batch {
      var i :| 0 <= i < |batch| && batch[i] == x;
    }
  }

  /** Writing the same batch twice leaves the same rows as writing it once. */
  lemma UpsertIdempotent<S>(rows: seq<Analysis<S>>, batch: seq<Analysis<S>>)
    ensures multiset(Upsert(Stored(Upsert(Stored(rows), batch)), batch)) == multiset(Upsert(Stored(rows), batch))
  {
    var once := Upsert(Stored(rows), batch);
    UpsertContents(rows, batch);
    UpsertContents(once, batch);
    KeptAfterUpsert(rows, batch);
  }
}
