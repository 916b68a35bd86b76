/**
 * The fixed-width regular expressions the scrapers use
 * (`/boxscores/(\d{8})0(\w{3})\.html`, `/teams/(\w{3})/`,
 * `predictions_(\d{4}-\d{2}-\d{2})\.csv`): each is a sequence of literal
 * characters, `\d` and `\w` positions, so a match has a fixed length and
 * its groups are fixed slices.  `re.search` finds the leftmost match,
 * `re.match` only tries position 0.
 */
module Patterns {
  import opened Common

  datatype Elem = Lit(c: char) | AnyDigit | AnyWord

  type Pattern = seq<Elem>

  predicate ElemMatches(e: Elem, c: char)
  {
    match e
    case Lit(x) => c == x
    case AnyDigit => IsDigit(c)
    case AnyWord => IsWordChar(c)
  }

  function Literal(s: string): (p: Pattern)
    ensures |p| == |s| && forall i :: 0 <= i < |s| ==> p[i] == Lit(s[i])
  {
    if |s| == 0 then [] else [Lit(s[0])] + Literal(s[1..])
  }

  function Repeat(e: Elem, n: nat): (p: Pattern)
    ensures |p| == n && forall i :: 0 <= i < n ==> p[i] == e
  {
    if n == 0 then [] else [e] + Repeat(e, n - 1)
  }

  predicate MatchesAt(s: string, i: int, p: Pattern)
  {
    0 <= i && i + |p| <= |s| && forall k :: 0 <= k < |p| ==> ElemMatches(p[k], s[i + k])
  }

  function SearchFrom(s: string, p: Pattern, from: nat): (r: Option<nat>)
    ensures r.Some? ==> from <= r.value && MatchesAt(s, r.value, p)
    ensures r.Some? ==> forall j :: from <= j < r.value ==> !MatchesAt(s, j, p)
    ensures r.None? ==> forall j :: from <= j ==> !MatchesAt(s, j, p)
    decreases |s| - from
  {
    if from + |p| > |s| then None
    else if MatchesAt(s, from, p) then Some(from)
    else SearchFrom(s, p, from + 1)
  }

  /** `re.search`: the leftmost position where the pattern matches. */
  function Search(s: string, p: Pattern): (r: Option<nat>)
    ensures r.Some? ==> MatchesAt(s, r.value, p) && forall j :: 0 <= j < r.value ==> !MatchesAt(s, j, p)
    ensures r.None? ==> forall j :: !MatchesAt(s, j, p)
  {
    SearchFrom(s, p, 0)
  }

  /** A string that is exactly one instance of the pattern is found at 0. */
  lemma SearchWhole(s: string, p: Pattern)
    requires MatchesAt(s, 0, p)
    ensures Search(s, p) == Some(0)
  {
  }

  /** Concatenated patterns match concatenated strings piece by piece. */
  lemma MatchesConcat(a: string, b: string, p: Pattern, q: Pattern)
    requires MatchesAt(a, 0, p) && |a| == |p| && MatchesAt(b, 0, q) && |b| == |q|
    ensures MatchesAt(a + b, 0, p + q)
  {
    forall k | 0 <= k < |p + q| ensures ElemMatches((p + q)[k], (a + b)[k]) {
      if k >= |p| {
        assert (p + q)[k] == q[k - |p|] && (a + b)[k] == b[k - |a|];
      }
    }
  }

  lemma LiteralMatches(s: string)
    ensures MatchesAt(s, 0, Literal(s))
  {
  }

  lemma DigitsMatch(s: string)
    requires AllDigits(s)
    ensures MatchesAt(s, 0, Repeat(AnyDigit, |s|))
  {
  }

  lemma WordsMatch(s: string)
    requires AllWordChars(s)
    ensures MatchesAt(s, 0, Repeat(AnyWord, |s|))
  {
  }

  /** What a match at `i` says about the captured slice `[i+lo, i+hi)`. */
  lemma CaptureDigits(s: string, i: int, p: Pattern, lo: int, hi: int)
    requires MatchesAt(s, i, p) && 0 <= lo <= hi <= |p|
    requires forall k :: lo <= k < hi ==> p[k] == AnyDigit
    ensures AllDigits(s[i + lo..i + hi])
  {
    var c := s[i + lo..i + hi];
    forall k | 0 <= k < |c| ensures IsDigit(c[k]) {
      assert ElemMatches(p[lo + k], s[i + lo + k]);
    }
  }

  lemma CaptureWords(s: string, i: int, p: Pattern, lo: int, hi: int)
    requires MatchesAt(s, i, p) && 0 <= lo <= hi <= |p|
    requires forall k :: lo <= k < hi ==> p[k] == AnyWord
    ensures AllWordChars(s[i + lo..i + hi])
  {
    var c := s[i + lo..i + hi];
    forall k | 0 <= k < |c| ensures IsWordChar(c[k]) {
      assert ElemMatches(p[lo + k], s[i + lo + k]);
    }
  }
}
