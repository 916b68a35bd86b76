/**
 * Small shared vocabulary: optional values (pandas NaN / missing cells),
 * the confidence bands every prediction script reports, sums and means over
 * real-valued columns, and the character classes and string helpers the
 * scrapers rely on.
 */
module Common {

  datatype Option<T> = None | Some(value: T)

  /**
   * One HTTP request of a scraper: it raised (connection error, timeout),
   * or a response came back, with a success status or an error status.
   */
  datatype Attempt<P> = Raised | Answered(ok: bool, page: P)

  /** Which side of a game a team-row describes (`location`, `Is_Home`). */
  datatype Location = Home | Away

  // ---------------------------------------------------------------------
  // Confidence bands (>= 0.65 high home, <= 0.35 high away, else neutral)
  // ---------------------------------------------------------------------

  datatype Band = HighHome | HighAway | Neutral

  const HighCut: real := 0.65
  const LowCut: real := 0.35

  function ConfidenceBand(p: real): (b: Band)
    ensures b == HighHome <==> p >= HighCut
    ensures b == HighAway <==> p <= LowCut
    ensures b == Neutral <==> LowCut < p < HighCut
  {
    if p >= HighCut then HighHome else if p <= LowCut then HighAway else Neutral
  }

  /** The bands are symmetric: the home side's high band is the away side's. */
  lemma BandSymmetric(p: real)
    ensures ConfidenceBand(p) == HighHome <==> ConfidenceBand(1.0 - p) == HighAway
    ensures ConfidenceBand(p) == Neutral <==> ConfidenceBand(1.0 - p) == Neutral
  {
  }

  /** The thirteen difference columns the classifier reads, in order (the scaler and the forest see them so). */
  const FeatureColumns: seq<string> := [
    "Diff_Days_Since_Last_Game", "Diff_Before_Game_Streak",
    "Diff_Before_Game_Win_Pct_Last_5", "Diff_Before_Game_Avg_Margin_Last_5",
    "Diff_Before_Game_Win_Pct_Last_10", "Diff_CS_Win_Pct_L5", "Diff_CS_Avg_Margin_L5",
    "Diff_Before_Game_H2H_Win_Pct_L5", "Diff_Before_Game_H2H_Avg_Margin_L5",
    "Diff_Total_Injury_Impact", "Diff_Before_Game_Avg_NetRtg",
    "Diff_Before_Game_Avg_TOV_Rate", "Diff_Before_Game_Avg_ORB_Pct"
  ]

  // ---------------------------------------------------------------------
  // Filtering rows
  // ---------------------------------------------------------------------

  /** The rows `f` accepts, each replaced by what `f` makes of it, in order. */
  function FilterMap<A, B>(xs: seq<A>, f: A -> Option<B>): (r: seq<B>)
    ensures |r| <= |xs|
  {
    if |xs| == 0 then []
    else
      var last := f(xs[|xs| - 1]);
      FilterMap(xs[..|xs| - 1], f) + (if last.Some? then [last.value] else [])
  }

  lemma {:induction false} FilterMapContents<A, B>(xs: seq<A>, f: A -> Option<B>)
    ensures forall y :: y in FilterMap(xs, f) <==> exists i :: 0 <= i < |xs| && f(xs[i]) == Some(y)
  {
    if |xs| > 0 {
      var init := xs[..|xs| - 1];
      FilterMapContents(init, f);
      assert forall i :: 0 <= i < |init| ==> init[i] == xs[i];
    }
  }

  lemma {:induction false} FilterMapAppend<A, B>(xs: seq<A>, ys: seq<A>, f: A -> Option<B>)
    ensures FilterMap(xs + ys, f) == FilterMap(xs, f) + FilterMap(ys, f)
  {
    if |ys| == 0 {
      assert xs + ys == xs;
    } else {
      assert (xs + ys)[..|xs + ys| - 1] == xs + ys[..|ys| - 1];
      FilterMapAppend(xs, ys[..|ys| - 1], f);
    }
  }

  /** Where the image of `xs[i]` lands: after the images of the rows before it. */
  function FilterMapSlot<A, B>(xs: seq<A>, f: A -> Option<B>, i: nat): nat
    requires i <= |xs|
  {
    |FilterMap(xs[..i], f)|
  }

  /**
   * Order is kept: an accepted row's image sits at its slot, and a later
   * accepted row's slot is further on, so the output lists the accepted
   * rows' images in input order.
   */
  lemma FilterMapOrder<A, B>(xs: seq<A>, f: A -> Option<B>, i: nat, j: nat)
    requires i < j <= |xs| && f(xs[i]).Some?
    ensures FilterMapSlot(xs, f, i) < FilterMapSlot(xs, f, j) <= |FilterMap(xs, f)|
    ensures FilterMap(xs, f)[FilterMapSlot(xs, f, i)] == f(xs[i]).value
  {
    FilterMapStep(xs, i, f);
    assert xs[..j] == xs[..i + 1] + xs[i + 1..j];
    FilterMapAppend(xs[..i + 1], xs[i + 1..j], f);
    assert xs == xs[..j] + xs[j..];
    FilterMapAppend(xs[..j], xs[j..], f);
  }

  /** One more row: what `f` makes of it is appended. */
  lemma FilterMapStep<A, B>(xs: seq<A>, k: nat, f: A -> Option<B>)
    requires k < |xs|
    ensures FilterMap(xs[..k + 1], f) == FilterMap(xs[..k], f) + (if f(xs[k]).Some? then [f(xs[k]).value] else [])
  {
    assert xs[..k + 1][..k] == xs[..k];
  }

  // ---------------------------------------------------------------------
  // Sums and means
  // ---------------------------------------------------------------------

  function Sum(xs: seq<real>): real
  {
    if |xs| == 0 then 0.0 else Sum(xs[..|xs| - 1]) + xs[|xs| - 1]
  }

  lemma {:induction false} SumAppend(xs: seq<real>, ys: seq<real>)
    ensures Sum(xs + ys) == Sum(xs) + Sum(ys)
  {
    if |ys| == 0 {
      assert xs + ys == xs;
    } else {
      assert (xs + ys)[..|xs + ys| - 1] == xs + ys[..|ys| - 1];
      SumAppend(xs, ys[..|ys| - 1]);
    }
  }

  lemma {:induction false} SumNonNegative(xs: seq<real>)
    requires forall i :: 0 <= i < |xs| ==> xs[i] >= 0.0
    ensures Sum(xs) >= 0.0
  {
    if |xs| > 0 {
      SumNonNegative(xs[..|xs| - 1]);
    }
  }

  /** Mean of a non-empty column; pandas gives NaN for an empty one. */
  function Mean(xs: seq<real>): (m: Option<real>)
    ensures m.Some? <==> |xs| > 0
    ensures m.Some? ==> m.value * (|xs| as real) == Sum(xs)
  {
    if |xs| == 0 then None else Some(Sum(xs) / (|xs| as real))
  }

  lemma {:induction false} SumBounds(xs: seq<real>, lo: real, hi: real)
    requires forall i :: 0 <= i < |xs| ==> lo <= xs[i] <= hi
    ensures (|xs| as real) * lo <= Sum(xs) <= (|xs| as real) * hi
  {
    if |xs| > 0 {
      SumBounds(xs[..|xs| - 1], lo, hi);
    }
  }

  /** The mean of values between `lo` and `hi` lies between them. */
  lemma MeanBounds(xs: seq<real>, lo: real, hi: real)
    requires |xs| > 0 && forall i :: 0 <= i < |xs| ==> lo <= xs[i] <= hi
    ensures lo <= Mean(xs).value <= hi
  {
    SumBounds(xs, lo, hi);
    var n, m := |xs| as real, Mean(xs).value;
    assert (m - lo) * n >= 0.0 && (hi - m) * n >= 0.0;
  }

  // ---------------------------------------------------------------------
  // Characters and strings
  // ---------------------------------------------------------------------

  predicate IsDigit(c: char) { '0' <= c <= '9' }

  /** Regex `\w`, restricted to ASCII. */
  predicate IsWordChar(c: char)
  {
    IsDigit(c) || ('a' <= c <= 'z') || ('A' <= c <= 'Z') || c == '_'
  }

  /** The 29 characters Python's `str.isspace` accepts, the ones `strip()`, `int()` and `float()` drop. */
  predicate IsSpace(c: char)
  {
    '\t' <= c <= '\r' || '\U{1C}' <= c <= ' ' || c == '\U{85}' || c == '\U{A0}' || c == '\U{1680}' ||
    '\U{2000}' <= c <= '\U{200A}' || c == '\U{2028}' || c == '\U{2029}' || c == '\U{202F}' || c == '\U{205F}' ||
    c == '\U{3000}'
  }

  predicate AllDigits(s: string) { forall i :: 0 <= i < |s| ==> IsDigit(s[i]) }

  predicate AllWordChars(s: string) { forall i :: 0 <= i < |s| ==> IsWordChar(s[i]) }

  /** `not s.strip()`: empty or only whitespace. */
  predicate IsBlank(s: string) { forall i :: 0 <= i < |s| ==> IsSpace(s[i]) }

  predicate StartsWith(s: string, prefix: string)
  {
    |prefix| <= |s| && s[..|prefix|] == prefix
  }

  function DigitValue(c: char): (v: nat)
    requires IsDigit(c)
    ensures v < 10
  {
    (c as int) - ('0' as int)
  }

  /** Decimal value of a digit string (`int("0042") == 42`). */
  function DigitsValue(s: string): (v: nat)
    requires AllDigits(s)
  {
    if |s| == 0 then 0 else 10 * DigitsValue(s[..|s| - 1]) + DigitValue(s[|s| - 1])
  }

  function DigitChar(v: nat): (c: char)
    requires v < 10
    ensures IsDigit(c) && DigitValue(c) == v
  {
    ('0' as int + v) as char
  }

  /** Zero-padded decimal rendering with exactly `width` digits (`%02d`, `%04d`). */
  function PadDigits(v: nat, width: nat): (s: string)
    ensures |s| == width && AllDigits(s)
  {
    if width == 0 then "" else PadDigits(v / 10, width - 1) + [DigitChar(v % 10)]
  }

  lemma {:induction false} PadDigitsValue(v: nat, width: nat)
    ensures DigitsValue(PadDigits(v, width)) == v % Power10(width)
  {
    if width > 0 {
      var s := PadDigits(v, width);
      assert s[..|s| - 1] == PadDigits(v / 10, width - 1);
      PadDigitsValue(v / 10, width - 1);
      DivModPower(v, width - 1);
    }
  }

  function Power10(n: nat): (p: nat)
    ensures p >= 1
  {
    if n == 0 then 1 else 10 * Power10(n - 1)
  }

  lemma DivModPower(v: nat, n: nat)
    ensures 10 * ((v / 10) % Power10(n)) + v % 10 == v % Power10(n + 1)
  {
    var p := Power10(n);
    var q := v / 10;
    var r := v % 10;
    assert v == 10 * q + r;
    var a := q / p;
    var b := q % p;
    assert q == a * p + b;
    assert v == (10 * p) * a + (10 * b + r);
    assert 0 <= 10 * b + r < 10 * p;
    assert Power10(n + 1) == 10 * p;
    ModUnique(v, 10 * p, a, 10 * b + r);
  }

  lemma ModUnique(v: int, m: int, a: int, b: int)
    requires m > 0 && v == m * a + b && 0 <= b < m
    ensures v % m == b
  {
    var q, r := v / m, v % m;
    assert v == m * q + r && 0 <= r < m;
    var k := a - q;
    assert m * k == r - b;
  }

  /** A value that fits in `width` digits reads back unchanged. */
  lemma PadDigitsExact(v: nat, width: nat)
    requires v < Power10(width)
    ensures DigitsValue(PadDigits(v, width)) == v
  {
    PadDigitsValue(v, width);
    ModUnique(v, Power10(width), 0, v);
  }
}
