/**
 * The season evaluation: the master dataset is split into the seasons
 * before 2026 (training) and the 2026 season (test), a classifier trained
 * on the first scores the second, and each test game gets its prediction,
 * whether the prediction was right, and a confidence label; the overall
 * and the high-confidence accuracies close the report.
 */
module SeasonReport {
  import opened Common
  import opened ExportPredictions

  const TestSeason := 2026

  /** The feature columns the table lacks, in `FeatureColumns` order. */
  function MissingColumns(columns: set<string>): seq<string>
  {
    FilterMap(FeatureColumns, c => if c in columns then None else Some(c))
  }

  lemma MissingColumnsSpec(columns: set<string>)
    ensures forall c :: c in MissingColumns(columns) <==> c in FeatureColumns && c !in columns
    ensures |MissingColumns(columns)| == 0 <==> forall k :: 0 <= k < |FeatureColumns| ==> FeatureColumns[k] in columns
  {
    var f := c => if c in columns then None else Some(c);
    FilterMapContents(FeatureColumns, f);
    if |MissingColumns(columns)| > 0 {
      assert MissingColumns(columns)[0] in MissingColumns(columns);
    }
  }

  /** A row of the master dataset; missing cells are absent. */
  datatype DatasetRow = DatasetRow(date: string, team: string, opp: string, win: Option<int>, seasonYear: Option<int>,
                                   features: seq<Option<real>>)

  /** A row after `fillna(0)`. */
  datatype FilledRow = FilledRow(date: string, team: string, opp: string, win: int, seasonYear: int, features: seq<real>)

  function OrZero(x: Option<int>): int { if x.Some? then x.value else 0 }
  function OrZeroReal(x: Option<real>): real { if x.Some? then x.value else 0.0 }

  function Filled(r: DatasetRow): (f: FilledRow)
    ensures |f.features| == |r.features|
    ensures forall k :: 0 <= k < |r.features| ==> f.features[k] == OrZeroReal(r.features[k])
  {
    FilledRow(r.date, r.team, r.opp, OrZero(r.win), OrZero(r.seasonYear),
              seq(|r.features|, k requires 0 <= k < |r.features| => OrZeroReal(r.features[k])))
  }

  /** The whole table after `fillna(0)`. */
  function FilledRows(t: Table): (f: seq<FilledRow>)
    ensures |f| == |t.rows| && forall k :: 0 <= k < |t.rows| ==> f[k] == Filled(t.rows[k])
  {
    seq(|t.rows|, k requires 0 <= k < |t.rows| => Filled(t.rows[k]))
  }

  function Train(rows: seq<FilledRow>): seq<FilledRow>
  {
    FilterMap(rows, (r: FilledRow) => if r.seasonYear < TestSeason then Some(r) else None)
  }

  function Test(rows: seq<FilledRow>): seq<FilledRow>
  {
    FilterMap(rows, (r: FilledRow) => if r.seasonYear == TestSeason then Some(r) else None)
  }

  function Later(rows: seq<FilledRow>): seq<FilledRow>
  {
    FilterMap(rows, (r: FilledRow) => if r.seasonYear > TestSeason then Some(r) else None)
  }

  /**
   * Training holds exactly the earlier seasons (a row without a season
   * counts as season 0), testing exactly 2026; the two never share a row
   * and, with the later seasons, account for every row once.
   */
  lemma {:induction false} SplitPartition(rows: seq<FilledRow>)
    ensures forall r :: r in Train(rows) ==> r in rows && r.seasonYear < TestSeason
    ensures forall r :: r in Test(rows) ==> r in rows && r.seasonYear == TestSeason
    ensures forall r :: r in rows && r.seasonYear < TestSeason ==> r in Train(rows)
    ensures forall r :: r in rows && r.seasonYear == TestSeason ==> r in Test(rows)
    ensures |Train(rows)| + |Test(rows)| + |Later(rows)| == |rows|
  {
    FilterMapContents(rows, (r: FilledRow) => if r.seasonYear < TestSeason then Some(r) else None);
    FilterMapContents(rows, (r: FilledRow) => if r.seasonYear == TestSeason then Some(r) else None);
    if |rows| > 0 {
      SplitPartition(rows[..|rows| - 1]);
    }
  }

  /** `get_confidence`: the live predictor's bands, with "Normal" for the middle one. */
  function GetConfidence(p: real): (s: string)
    ensures s == "High (Home)" <==> ConfidenceBand(p) == HighHome
    ensures s == "High (Away)" <==> ConfidenceBand(p) == HighAway
    ensures s == "Normal" <==> ConfidenceBand(p) == Neutral
  {
    if p >= 0.65 then "High (Home)" else if p <= 0.35 then "High (Away)" else "Normal"
  }

  /** The report's labels are the export's, except that the middle band is called "Normal" instead of "Toss-up". */
  lemma ConfidenceLabelsAgree(p: real)
    ensures GetConfidence(p) != "Normal" ==> GetConfidence(p) == ConfidenceLabel(p)
    ensures GetConfidence(p) == "Normal" <==> ConfidenceLabel(p) == "Toss-up"
  {
  }

  /** One line of the report. */
  datatype ResultRow = ResultRow(date: string, team: string, opp: string, win: int, predictedWin: int,
                                 winProb: real, isCorrect: int, confidence: string)

  /** The class the classifier predicts: the more probable one, the loss on a tie. */
  function PredictedClass(p: real): int
  {
    if p > 0.5 then 1 else 0
  }

  function Scored(r: FilledRow, p: real): (x: ResultRow)
    ensures x.isCorrect == 1 <==> r.win == PredictedClass(p)
    ensures x.isCorrect == 0 <==> r.win != PredictedClass(p)
  {
    var pred := PredictedClass(p);
    ResultRow(r.date, r.team, r.opp, r.win, pred, p, if r.win == pred then 1 else 0, GetConfidence(p))
  }

  function ScoreAll(test: seq<FilledRow>, model: seq<real> -> real): (rs: seq<ResultRow>)
    ensures |rs| == |test|
    ensures forall k :: 0 <= k < |test| ==> rs[k] == Scored(test[k], model(test[k].features))
  {
    seq(|test|, k requires 0 <= k < |test| => Scored(test[k], model(test[k].features)))
  }

  function CorrectValues(rows: seq<ResultRow>): seq<real>
  {
    seq(|rows|, k requires 0 <= k < |rows| => rows[k].isCorrect as real)
  }

  function IfConfident(r: ResultRow): Option<ResultRow>
  {
    if r.confidence != "Normal" then Some(r) else None
  }

  /** `results_df[results_df['Confidence'] != 'Normal']`. */
  function HighConfidence(rows: seq<ResultRow>): seq<ResultRow>
  {
    FilterMap(rows, IfConfident)
  }

  /** The confident lines are exactly the lines not labelled "Normal". */
  lemma HighConfidenceContents(rows: seq<ResultRow>)
    ensures forall r :: r in HighConfidence(rows) <==> r in rows && r.confidence != "Normal"
  {
    FilterMapContents(rows, IfConfident);
  }

  /** The number of lines whose prediction was right. */
  function Hits(rows: seq<ResultRow>): nat
  {
    if |rows| == 0 then 0 else Hits(rows[..|rows| - 1]) + (if rows[|rows| - 1].isCorrect == 1 then 1 else 0)
  }

  /** With `Is_Correct` in {0, 1}, its column sums to the number of right predictions. */
  lemma {:induction false} SumCorrectIsHits(rows: seq<ResultRow>)
    requires forall k :: 0 <= k < |rows| ==> rows[k].isCorrect == 0 || rows[k].isCorrect == 1
    ensures Sum(CorrectValues(rows)) == Hits(rows) as real
  {
    if |rows| > 0 {
      var init := rows[..|rows| - 1];
      assert CorrectValues(rows)[..|rows| - 1] == CorrectValues(init);
      SumCorrectIsHits(init);
    }
  }

  datatype Table = Table(columns: set<string>, rows: seq<DatasetRow>)

  datatype Report =
    | ReadFailed
    | MissingFeatures(names: seq<string>)
    | NoTestSeason
    | Evaluated(rows: seq<ResultRow>, accuracy: real, highAccuracy: Option<real>)

  /**
   * `predict_2026_season_full`: `fit` stands for the scaler and the
   * forest trained on the training rows, giving the probability of a win.
   */
  function FullReport(table: Option<Table>, fit: seq<FilledRow> -> (seq<real> -> real)): Report
  {
    if table.None? then ReadFailed
    else if |MissingColumns(table.value.columns)| > 0 then MissingFeatures(MissingColumns(table.value.columns))
    else Evaluate(FilledRows(table.value), fit)
  }

  /** The split, the fit and the scoring, once the table is complete and filled. */
  function Evaluate(filled: seq<FilledRow>, fit: seq<FilledRow> -> (seq<real> -> real)): Report
  {
    var train, test := Train(filled), Test(filled);
    if |test| == 0 then NoTestSeason
    else
      var model := fit(train);
      var results := ScoreAll(test, model);
      var high := HighConfidence(results);
      Evaluated(results, Mean(CorrectValues(results)).value, Mean(CorrectValues(high)))
  }

  /** Every scored line is right or wrong, so its `Is_Correct` is 0 or 1. */
  lemma ScoredBinary(rows: seq<ResultRow>, test: seq<FilledRow>, model: seq<real> -> real)
    requires rows == ScoreAll(test, model)
    ensures forall k :: 0 <= k < |rows| ==> rows[k].isCorrect == 0 || rows[k].isCorrect == 1
    ensures forall r :: r in HighConfidence(rows) ==> r.isCorrect == 0 || r.isCorrect == 1
  {
    HighConfidenceContents(rows);
  }

  /** The mean of `Is_Correct` is the fraction of right predictions. */
  lemma MeanIsHitRate(rows: seq<ResultRow>)
    requires forall k :: 0 <= k < |rows| ==> rows[k].isCorrect == 0 || rows[k].isCorrect == 1
    ensures Mean(CorrectValues(rows)).Some? ==> Mean(CorrectValues(rows)).value == (Hits(rows) as real) / (|rows| as real)
  {
    SumCorrectIsHits(rows);
  }

  lemma EvaluateValues(filled: seq<FilledRow>, fit: seq<FilledRow> -> (seq<real> -> real))
    ensures var rep := Evaluate(filled, fit);
      rep.Evaluated? ==> (
        rep.rows == ScoreAll(Test(filled), fit(Train(filled))) &&
        rep.accuracy == (Hits(rep.rows) as real) / (|rep.rows| as real) &&
        (rep.highAccuracy.Some? ==>
           rep.highAccuracy.value == (Hits(HighConfidence(rep.rows)) as real) / (|HighConfidence(rep.rows)| as real)))
  {
    var test := Test(filled);
    if |test| > 0 {
      var results := ScoreAll(test, fit(Train(filled)));
      var high := HighConfidence(results);
      assert Evaluate(filled, fit) == Evaluated(results, Mean(CorrectValues(results)).value, Mean(CorrectValues(high)));
      ScoredBinary(results, test, fit(Train(filled)));
      forall k | 0 <= k < |high| ensures high[k].isCorrect == 0 || high[k].isCorrect == 1 {
        assert high[k] in high;
      }
      MeanIsHitRate(results);
      MeanIsHitRate(high);
    }
  }

  lemma CorrectValuesBounds(rows: seq<ResultRow>)
    requires forall k :: 0 <= k < |rows| ==> rows[k].isCorrect == 0 || rows[k].isCorrect == 1
    ensures forall k :: 0 <= k < |CorrectValues(rows)| ==> 0.0 <= CorrectValues(rows)[k] <= 1.0
  {
  }

  /** An evaluated report is built from the scored test rows and the means of their `Is_Correct` columns. */
  lemma EvaluateParts(filled: seq<FilledRow>, fit: seq<FilledRow> -> (seq<real> -> real))
    ensures var rep := Evaluate(filled, fit);
      rep.Evaluated? ==> (
        rep.rows == ScoreAll(Test(filled), fit(Train(filled))) && |rep.rows| > 0 &&
        rep.accuracy == Mean(CorrectValues(rep.rows)).value &&
        rep.highAccuracy == Mean(CorrectValues(HighConfidence(rep.rows))))
  {
  }

  /** The accuracy over a non-empty set of scored lines is a fraction. */
  lemma AccuracyBounds(rows: seq<ResultRow>)
    requires |rows| > 0
    requires forall k :: 0 <= k < |rows| ==> rows[k].isCorrect == 0 || rows[k].isCorrect == 1
    ensures 0.0 <= Mean(CorrectValues(rows)).value <= 1.0
  {
    CorrectValuesBounds(rows);
    MeanBounds(CorrectValues(rows), 0.0, 1.0);
  }

  /** The high-confidence accuracy is missing exactly when every line is "Normal", and otherwise a fraction. */
  lemma HighAccuracyBounds(rows: seq<ResultRow>)
    requires forall k :: 0 <= k < |rows| ==> rows[k].isCorrect == 0 || rows[k].isCorrect == 1
    ensures Mean(CorrectValues(HighConfidence(rows))).None? <==> forall k :: 0 <= k < |rows| ==> rows[k].confidence == "Normal"
    ensures Mean(CorrectValues(HighConfidence(rows))).Some? ==> 0.0 <= Mean(CorrectValues(HighConfidence(rows))).value <= 1.0
  {
    var high := HighConfidence(rows);
    HighConfidenceContents(rows);
    if |high| > 0 {
      assert high[0] in high;
      forall k | 0 <= k < |high| ensures high[k].isCorrect == 0 || high[k].isCorrect == 1 {
        assert high[k] in high;
      }
      AccuracyBounds(high);
    } else {
      forall k | 0 <= k < |rows| ensures rows[k].confidence == "Normal" {
        assert rows[k] in rows;
      }
    }
  }

  /**
   * A report is written only when every feature column is present and the
   * 2026 season has games; it then has one line per 2026 game, each right
   * exactly when the predicted class is the result, both accuracies are
   * fractions, and the high-confidence one is missing exactly when every
   * game is "Normal" and otherwise only counts the confident games.
   */
  lemma FullReportSpec(table: Option<Table>, fit: seq<FilledRow> -> (seq<real> -> real))
    ensures table.Some? && |MissingColumns(table.value.columns)| > 0 ==> FullReport(table, fit).MissingFeatures?
    ensures FullReport(table, fit).Evaluated? ==>
      var rep := FullReport(table, fit);
      |rep.rows| > 0 && table.Some? && |MissingColumns(table.value.columns)| == 0 &&
      (forall k :: 0 <= k < |rep.rows| ==> (rep.rows[k].isCorrect == 1 <==> rep.rows[k].win == rep.rows[k].predictedWin)) &&
      (forall k :: 0 <= k < |rep.rows| ==> rep.rows[k].confidence == GetConfidence(rep.rows[k].winProb)) &&
      0.0 <= rep.accuracy <= 1.0 &&
      (rep.highAccuracy.None? <==> forall k :: 0 <= k < |rep.rows| ==> rep.rows[k].confidence == "Normal") &&
      (rep.highAccuracy.Some? ==> 0.0 <= rep.highAccuracy.value <= 1.0)
  {
    if FullReport(table, fit).Evaluated? {
      var filled := FilledRows(table.value);
      assert FullReport(table, fit) == Evaluate(filled, fit);
      EvaluateParts(filled, fit);
      var test, model := Test(filled), fit(Train(filled));
      var results := ScoreAll(test, model);
      ScoredBinary(results, test, model);
      AccuracyBounds(results);
      HighAccuracyBounds(results);
    }
  }

  /**
   * The report's lines are the 2026 rows scored in order by the model
   * fitted on the earlier seasons; `accuracy_score` is the fraction of
   * lines predicted right, and the high-confidence accuracy the fraction
   * among the lines not labelled "Normal".
   */
  lemma FullReportValues(table: Option<Table>, fit: seq<FilledRow> -> (seq<real> -> real))
    ensures var rep := FullReport(table, fit);
      rep.Evaluated? ==> (
        table.Some? &&
        rep.rows == ScoreAll(Test(FilledRows(table.value)), fit(Train(FilledRows(table.value)))) &&
        rep.accuracy == (Hits(rep.rows) as real) / (|rep.rows| as real) &&
        (rep.highAccuracy.Some? ==>
           rep.highAccuracy.value == (Hits(HighConfidence(rep.rows)) as real) / (|HighConfidence(rep.rows)| as real)))
  {
    if table.Some? && |MissingColumns(table.value.columns)| == 0 {
      assert FullReport(table, fit) == Evaluate(FilledRows(table.value), fit);
      EvaluateValues(FilledRows(table.value), fit);
    }
  }

  /** The 2026 games are the ones scored: a missing test season is reported as such. */
  lemma NoTestSeasonSpec(t: Table, fit: seq<FilledRow> -> (seq<real> -> real))
    requires |MissingColumns(t.columns)| == 0
    ensures FullReport(Some(t), fit) == NoTestSeason <==> forall k :: 0 <= k < |t.rows| ==> OrZero(t.rows[k].seasonYear) != TestSeason
  {
    var filled := FilledRows(t);
    SplitPartition(filled);
    if |Test(filled)| > 0 {
      assert Test(filled)[0] in Test(filled);
    } else {
      forall k | 0 <= k < |t.rows| ensures OrZero(t.rows[k].seasonYear) != TestSeason {
        assert filled[k] in filled;
      }
    }
  }
}
