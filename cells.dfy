/**
 * Python's string handling on the cell texts the scrapers read:
 * `str.strip()`, `int(text)` and `float(text)` (restricted to ASCII digits in
 * plain decimal notation: an optional sign, digits, and for `float` an
 * optional fraction), `", ".join(names)` and `text.split(",")`.
 */
module Cells {
  import opened Common

  /** Number of whitespace characters at the start of `s`. */
  function LeadingSpaces(s: string): (n: nat)
    ensures n <= |s| && IsBlank(s[..n])
    ensures n < |s| ==> !IsSpace(s[n])
  {
    if |s| > 0 && IsSpace(s[0]) then
      var n := 1 + LeadingSpaces(s[1..]);
      assert forall k :: 0 < k < n ==> s[..n][k] == s[1..][..n - 1][k - 1];
      n
    else 0
  }

  /** Number of whitespace characters at the end of `s`. */
  function TrailingSpaces(s: string): (n: nat)
    ensures n <= |s| && IsBlank(s[|s| - n..])
    ensures n < |s| ==> !IsSpace(s[|s| - n - 1])
  {
    if |s| > 0 && IsSpace(s[|s| - 1]) then
      var n := 1 + TrailingSpaces(s[..|s| - 1]);
      var t := s[|s| - n..];
      assert forall k :: 0 <= k < n - 1 ==> t[k] == s[..|s| - 1][|s| - n + k];
      n
    else 0
  }

  /**
   * `s.strip()`: `s` without its leading and trailing whitespace; empty
   * exactly when `s` is blank.
   */
  function Strip(s: string): (r: string)
    ensures |r| == 0 <==> IsBlank(s)
    ensures |r| > 0 ==> !IsSpace(r[0]) && !IsSpace(r[|r| - 1])
    ensures |r| > 0 ==> LeadingSpaces(s) + |r| + TrailingSpaces(s) == |s|
    ensures |r| > 0 ==> r == s[LeadingSpaces(s)..LeadingSpaces(s) + |r|]
  {
    var i := LeadingSpaces(s);
    if i == |s| then
      assert s[..i] == s;
      ""
    else
      var j := TrailingSpaces(s);
      assert i < |s| - j;
      assert !IsBlank(s) by {
        assert !IsSpace(s[i]);
      }
      s[i..|s| - j]
  }

  /** Splits an optional leading sign: its factor and the rest. */
  function SplitSign(t: string): (r: (int, string))
    ensures r.0 == 1 || r.0 == -1
    ensures |t| > 0 && (t[0] == '+' || t[0] == '-') ==> r.1 == t[1..] && (r.0 == -1 <==> t[0] == '-')
    ensures !(|t| > 0 && (t[0] == '+' || t[0] == '-')) ==> r == (1, t)
  {
    if |t| > 0 && t[0] == '-' then (-1, t[1..])
    else if |t| > 0 && t[0] == '+' then (1, t[1..])
    else (1, t)
  }

  /** `int(s)`: `None` where Python raises `ValueError`. */
  function ParseInt(s: string): (r: Option<int>)
    ensures r.Some? ==> var (sign, body) := SplitSign(Strip(s));
      |body| > 0 && AllDigits(body) && r.value == sign * DigitsValue(body)
    ensures r.None? ==> var (_, body) := SplitSign(Strip(s)); |body| == 0 || !AllDigits(body)
  {
    var (sign, body) := SplitSign(Strip(s));
    if |body| > 0 && AllDigits(body) then Some(sign * DigitsValue(body)) else None
  }

  /** Position of the first `.` in `s`, or `|s|`. */
  function DotIndex(s: string): (k: nat)
    ensures k <= |s| && (k < |s| ==> s[k] == '.')
    ensures forall j :: 0 <= j < k ==> s[j] != '.'
  {
    if |s| == 0 then 0 else if s[0] == '.' then 0 else 1 + DotIndex(s[1..])
  }

  /** Value of `whole.frac`. */
  function DecimalValue(whole: string, frac: string): real
    requires AllDigits(whole) && AllDigits(frac)
  {
    (DigitsValue(whole) as real) + (DigitsValue(frac) as real) / (Power10(|frac|) as real)
  }

  /** The split `ParseDecimal` makes: the digits before the first point, and the text after it. */
  function WholePart(body: string): string
  {
    body[..DotIndex(body)]
  }

  function FracPart(body: string): string
  {
    if DotIndex(body) < |body| then body[DotIndex(body) + 1..] else ""
  }

  predicate PlainShape(body: string)
  {
    |WholePart(body)| + |FracPart(body)| > 0 && AllDigits(WholePart(body)) && AllDigits(FracPart(body))
  }

  /** `float(s)` for plain decimals (`"12"`, `"-3.5"`, `".5"`, `"7."`). */
  function ParseDecimal(s: string): Option<real>
  {
    SignedDecimal(SplitSign(Strip(s)))
  }

  /** The value of a sign and an unsigned body, when the body is a plain decimal. */
  function SignedDecimal(p: (int, string)): Option<real>
  {
    if PlainShape(p.1) then
      var v := DecimalValue(WholePart(p.1), FracPart(p.1));
      Some(if p.0 < 0 then -v else v)
    else None
  }

  /** The first point found is the one at `k` when none comes before it. */
  lemma {:induction false} DotIndexAt(s: string, k: nat)
    requires k <= |s| && (k < |s| ==> s[k] == '.') && forall j :: 0 <= j < k ==> s[j] != '.'
    ensures DotIndex(s) == k
  {
    if k > 0 {
      DotIndexAt(s[1..], k - 1);
    }
  }

  /** Digits and at most one point, with at least one digit: the plain decimal forms. */
  predicate DecimalBody(body: string)
  {
    (exists i :: 0 <= i < |body| && IsDigit(body[i])) &&
    (forall i :: 0 <= i < |body| ==> IsDigit(body[i]) || body[i] == '.') &&
    (forall i, j :: 0 <= i < j < |body| && body[i] == '.' ==> body[j] != '.')
  }

  lemma ShapeIsDecimalBody(body: string)
    requires PlainShape(body)
    ensures DecimalBody(body)
  {
    var k, whole, frac := DotIndex(body), WholePart(body), FracPart(body);
    forall i | 0 <= i < |body| ensures IsDigit(body[i]) || body[i] == '.' {
      if i < k {
        assert body[i] == whole[i];
      } else if i > k {
        assert body[i] == frac[i - k - 1];
      }
    }
    forall i, j | 0 <= i < j < |body| && body[i] == '.' ensures body[j] != '.' {
      assert body[j] == frac[j - k - 1];
    }
    if |whole| > 0 {
      assert IsDigit(body[0]);
    } else {
      assert IsDigit(body[k + 1]);
    }
  }

  lemma DecimalBodyIsShape(body: string)
    requires DecimalBody(body)
    ensures PlainShape(body)
  {
    var k, whole, frac := DotIndex(body), WholePart(body), FracPart(body);
    var d :| 0 <= d < |body| && IsDigit(body[d]);
    assert AllDigits(whole) by {
      forall m | 0 <= m < |whole| ensures IsDigit(whole[m]) {
        assert whole[m] == body[m];
      }
    }
    assert AllDigits(frac) by {
      forall m | 0 <= m < |frac| ensures IsDigit(frac[m]) {
        assert frac[m] == body[k + 1 + m];
      }
    }
    if d < k {
      assert whole[d] == body[d];
    } else {
      assert frac[d - k - 1] == body[d];
    }
  }

  /**
   * `float(s)` fails exactly when the stripped text, after an optional
   * sign, holds no digit, a character other than a digit or a point, or a
   * second point.
   */
  lemma ParseDecimalSucceeds(s: string)
    ensures ParseDecimal(s).Some? <==> DecimalBody(SplitSign(Strip(s)).1)
    ensures ParseDecimal(s).Some? ==> !IsBlank(s)
  {
    var body := SplitSign(Strip(s)).1;
    assert ParseDecimal(s).Some? <==> PlainShape(body);
    if PlainShape(body) {
      ShapeIsDecimalBody(body);
      assert |Strip(s)| > 0;
    }
    if DecimalBody(body) {
      DecimalBodyIsShape(body);
    }
  }

  /** The sign text before a number: none, `+` or `-`. */
  predicate SignText(sg: string)
  {
    sg == "" || sg == "+" || sg == "-"
  }

  /** `x` with the sign text applied. */
  function Signed(sg: string, x: real): real
  {
    if sg == "-" then -x else x
  }

  lemma SignedBody(sg: string, body: string)
    requires SignText(sg) && |body| > 0 && (IsDigit(body[0]) || body[0] == '.')
    ensures SplitSign(sg + body) == (if sg == "-" then -1 else 1, body)
  {
    if sg != "" {
      assert (sg + body)[1..] == body;
    } else {
      assert sg + body == body;
    }
  }

  /** `float(s)` once the stripped, unsigned body is known. */
  lemma ParseDecimalOfBody(s: string, sign: int, body: string)
    requires SplitSign(Strip(s)) == (sign, body) && PlainShape(body)
    ensures ParseDecimal(s) == SignedDecimal((sign, body))
  {
  }

  /** `float(s)` with the sign text and the two digit strings of the body known. */
  lemma ParseDecimalSigned(s: string, sg: string, whole: string, frac: string, body: string)
    requires SignText(sg) && AllDigits(whole) && AllDigits(frac) && |whole| + |frac| > 0
    requires SplitSign(Strip(s)) == (if sg == "-" then -1 else 1, body) && WholePart(body) == whole && FracPart(body) == frac
    ensures ParseDecimal(s) == Some(Signed(sg, DecimalValue(whole, frac)))
  {
    var sign := if sg == "-" then -1 else 1;
    ParseDecimalOfBody(s, sign, body);
    SignedDecimalValue(sign, sg, whole, frac, body);
  }

  lemma SignedDecimalValue(sign: int, sg: string, whole: string, frac: string, body: string)
    requires SignText(sg) && AllDigits(whole) && AllDigits(frac) && |whole| + |frac| > 0
    requires sign == (if sg == "-" then -1 else 1) && WholePart(body) == whole && FracPart(body) == frac
    ensures SignedDecimal((sign, body)) == Some(Signed(sg, DecimalValue(whole, frac)))
  {
    assert PlainShape(body);
  }

  /** `float` of a padded, signed `whole.frac` is its value (either digit string may be empty, not both). */
  lemma ParseDecimalValue(a: string, sg: string, whole: string, frac: string, b: string)
    requires IsBlank(a) && IsBlank(b) && SignText(sg) && AllDigits(whole) && AllDigits(frac) && |whole| + |frac| > 0
    ensures ParseDecimal(a + sg + whole + "." + frac + b) == Some(Signed(sg, DecimalValue(whole, frac)))
  {
    PaddedDecimal(a + sg + whole + "." + frac + b, a, sg, whole, frac, b);
  }

  lemma PaddedDecimal(s: string, a: string, sg: string, whole: string, frac: string, b: string)
    requires IsBlank(a) && IsBlank(b) && SignText(sg) && AllDigits(whole) && AllDigits(frac) && |whole| + |frac| > 0
    requires s == a + (sg + (whole + "." + frac)) + b
    ensures ParseDecimal(s) == Some(Signed(sg, DecimalValue(whole, frac)))
  {
    var body := whole + "." + frac;
    DecimalParts(whole, frac);
    PaddedSigned(a, sg, body, b);
    ParseDecimalSigned(s, sg, whole, frac, body);
  }

  /** `whole.frac` splits back into `whole` and `frac`, and starts and ends with a digit or the point. */
  lemma DecimalParts(whole: string, frac: string)
    requires AllDigits(whole) && AllDigits(frac)
    ensures var body := whole + "." + frac;
      WholePart(body) == whole && FracPart(body) == frac &&
      (IsDigit(body[0]) || body[0] == '.') && (IsDigit(body[|body| - 1]) || body[|body| - 1] == '.')
  {
    var body := whole + "." + frac;
    DotIndexAt(body, |whole|);
    assert body[..|whole|] == whole && body[|whole| + 1..] == frac;
    if |whole| > 0 { assert body[0] == whole[0]; }
    if |frac| > 0 { assert body[|body| - 1] == frac[|frac| - 1]; }
  }

  /** `float` of a padded, signed digit string is its value. */
  lemma ParseDecimalInteger(a: string, sg: string, whole: string, b: string)
    requires IsBlank(a) && IsBlank(b) && SignText(sg) && AllDigits(whole) && |whole| > 0
    ensures ParseDecimal(a + sg + whole + b) == Some(Signed(sg, DigitsValue(whole) as real))
  {
    Regroup(a, sg, whole, b);
    PaddedInteger(a + sg + whole + b, a, sg, whole, b);
  }

  lemma Regroup(a: string, sg: string, whole: string, b: string)
    ensures a + sg + whole + b == a + (sg + whole) + b
  {
  }

  lemma WholeValue(whole: string)
    requires AllDigits(whole)
    ensures DecimalValue(whole, "") == DigitsValue(whole) as real
  {
    assert DigitsValue("") == 0 && Power10(0) == 1;
  }

  lemma PaddedInteger(s: string, a: string, sg: string, whole: string, b: string)
    requires IsBlank(a) && IsBlank(b) && SignText(sg) && AllDigits(whole) && |whole| > 0
    requires s == a + (sg + whole) + b
    ensures ParseDecimal(s) == Some(Signed(sg, DigitsValue(whole) as real))
  {
    DotIndexAt(whole, |whole|);
    assert whole[..|whole|] == whole;
    assert WholePart(whole) == whole && FracPart(whole) == "";
    PaddedSigned(a, sg, whole, b);
    ParseDecimalSigned(s, sg, whole, "", whole);
    WholeValue(whole);
  }

  /** Padding is stripped and the sign split off a body starting with a digit or a point and ending with one. */
  lemma PaddedSigned(a: string, sg: string, body: string, b: string)
    requires IsBlank(a) && IsBlank(b) && SignText(sg) && |body| > 0
    requires IsDigit(body[0]) || body[0] == '.'
    requires IsDigit(body[|body| - 1]) || body[|body| - 1] == '.'
    ensures SplitSign(Strip(a + (sg + body) + b)) == (if sg == "-" then -1 else 1, body)
  {
    var t := sg + body;
    assert t[0] == (if sg == "" then body[0] else sg[0]);
    assert t[|t| - 1] == body[|body| - 1];
    StripUnique(a, t, b);
    SignedBody(sg, body);
  }

  /** A text `int` accepts reads the same as a `float`. */
  lemma ParseIntAgreesWithDecimal(s: string)
    requires ParseInt(s).Some?
    ensures ParseDecimal(s) == Some(ParseInt(s).value as real)
  {
    var (sign, body) := SplitSign(Strip(s));
    var k := DotIndex(body);
    assert k == |body|;
    assert body[..k] == body;
    assert DigitsValue("") == 0;
    var d: int := DigitsValue(body);
    if sign < 0 {
      assert sign * d == -d;
    } else {
      assert sign * d == d;
    }
  }

  /** Plain digit strings read as their value. */
  lemma ParseDigits(s: string)
    requires |s| > 0 && AllDigits(s)
    ensures ParseInt(s) == Some(DigitsValue(s) as int)
  {
    StripUnchanged(s);
    assert SplitSign(s) == (1, s);
  }

  lemma LeadingSpacesIs(s: string, n: nat)
    requires n < |s| && IsBlank(s[..n]) && !IsSpace(s[n])
    ensures LeadingSpaces(s) == n
  {
  }

  lemma TrailingSpacesIs(s: string, n: nat)
    requires n < |s| && IsBlank(s[|s| - n..]) && !IsSpace(s[|s| - n - 1])
    ensures TrailingSpaces(s) == n
  {
  }

  /** A padded text strips to its core, whatever the padding. */
  lemma StripUnique(a: string, r: string, b: string)
    requires IsBlank(a) && IsBlank(b) && |r| > 0 && !IsSpace(r[0]) && !IsSpace(r[|r| - 1])
    ensures Strip(a + r + b) == r
  {
    var s := a + r + b;
    assert s[..|a|] == a && s[|a|] == r[0];
    LeadingSpacesIs(s, |a|);
    assert s[|s| - |b|..] == b && s[|s| - |b| - 1] == r[|r| - 1];
    TrailingSpacesIs(s, |b|);
    assert !IsBlank(s) by {
      assert !IsSpace(s[|a|]);
    }
    assert s[|a|..|a| + |r|] == r;
  }

  /** Text with no whitespace at either end is its own strip. */
  lemma StripUnchanged(s: string)
    requires |s| > 0 && !IsSpace(s[0]) && !IsSpace(s[|s| - 1])
    ensures Strip(s) == s
  {
    StripUnique("", s, "");
    assert "" + s + "" == s;
  }

  /** Position of the first `c` in `s`, or `|s|`. */
  function FindChar(s: string, c: char): (k: nat)
    ensures k <= |s| && (k < |s| ==> s[k] == c)
    ensures forall j :: 0 <= j < k ==> s[j] != c
  {
    if |s| == 0 then 0 else if s[0] == c then 0 else 1 + FindChar(s[1..], c)
  }

  lemma FindCharAt(a: string, c: char, b: string)
    requires c !in a
    ensures FindChar(a + [c] + b, c) == |a|
  {
    var s := a + [c] + b;
    assert s[|a|] == c;
    assert forall j :: 0 <= j < |a| ==> s[j] == a[j];
  }

  lemma FindCharAbsent(a: string, c: char)
    requires c !in a
    ensures FindChar(a, c) == |a|
  {
  }

  /** `s.split(sep)`: the pieces between separators; `[s]` when there is none. */
  function Split(s: string, sep: char): (r: seq<string>)
    ensures |r| >= 1
    ensures forall k :: 0 <= k < |r| ==> sep !in r[k]
    decreases |s|
  {
    var k := FindChar(s, sep);
    if k == |s| then [s]
    else
      assert forall j :: 0 <= j < k ==> s[..k][j] == s[j];
      [s[..k]] + Split(s[k + 1..], sep)
  }

  /** `sep.join(parts)`. */
  function Join(sep: string, parts: seq<string>): string
  {
    if |parts| == 0 then ""
    else if |parts| == 1 then parts[0]
    else parts[0] + sep + Join(sep, parts[1..])
  }

  /** `[p.strip() for p in parts]`. */
  function StripAll(parts: seq<string>): (r: seq<string>)
    ensures |r| == |parts| && forall k :: 0 <= k < |parts| ==> r[k] == Strip(parts[k])
  {
    seq(|parts|, k requires 0 <= k < |parts| => Strip(parts[k]))
  }

  /** No whitespace at either end. */
  predicate Trimmed(n: string)
  {
    |n| == 0 || (!IsSpace(n[0]) && !IsSpace(n[|n| - 1]))
  }

  ghost predicate NoCommas(names: seq<string>)
  {
    forall k :: 0 <= k < |names| ==> ',' !in names[k]
  }

  /** Names with no comma and no surrounding whitespace. */
  ghost predicate CleanNames(names: seq<string>)
  {
    NoCommas(names) && forall k :: 0 <= k < |names| ==> Trimmed(names[k])
  }

  lemma SplitNoSeparator(x: string, sep: char)
    requires sep !in x
    ensures Split(x, sep) == [x]
  {
    FindCharAbsent(x, sep);
  }

  lemma SplitFirst(x: string, sep: char, rest: string)
    requires sep !in x
    ensures Split(x + [sep] + rest, sep) == [x] + Split(rest, sep)
  {
    var s := x + [sep] + rest;
    FindCharAt(x, sep, rest);
    assert s[..|x|] == x;
    assert s[|x| + 1..] == rest;
  }

  /** The pieces after the first one: each later name behind the space of its ", ". */
  function SpacedTail(names: seq<string>): (r: seq<string>)
    requires |names| > 0
    ensures |r| == |names| - 1 && forall k :: 0 <= k < |r| ==> r[k] == " " + names[k + 1]
  {
    seq(|names| - 1, k requires 0 <= k < |names| - 1 => " " + names[k + 1])
  }

  lemma SpacedTailCons(names: seq<string>)
    requires |names| > 1
    ensures SpacedTail(names) == [" " + names[1]] + SpacedTail(names[1..])
  {
    var want := SpacedTail(names);
    var got := [" " + names[1]] + SpacedTail(names[1..]);
    assert |want| == |got|;
    forall k | 0 <= k < |want| ensures want[k] == got[k] {
      if k > 0 {
        assert got[k] == SpacedTail(names[1..])[k - 1];
      }
    }
  }

  lemma JoinFirst(q: string, names: seq<string>)
    requires |names| > 1
    ensures q + Join(", ", names) == (q + names[0]) + [','] + (" " + Join(", ", names[1..]))
  {
    var tail := Join(", ", names[1..]);
    assert Join(", ", names) == names[0] + ", " + tail;
    assert ", " == [','] + " ";
  }

  lemma {:induction false} SplitJoinFrom(q: string, names: seq<string>)
    requires |names| > 0 && ',' !in q && NoCommas(names)
    ensures Split(q + Join(", ", names), ',') == [q + names[0]] + SpacedTail(names)
    decreases |names|
  {
    assert ',' !in names[0];
    assert ',' !in q + names[0];
    if |names| == 1 {
      SplitNoSeparator(q + names[0], ',');
      assert SpacedTail(names) == [];
    } else {
      var rest := names[1..];
      assert NoCommas(rest) by {
        assert forall k :: 0 <= k < |rest| ==> rest[k] == names[k + 1];
      }
      JoinFirst(q, names);
      SplitFirst(q + names[0], ',', " " + Join(", ", rest));
      SplitJoinFrom(" ", rest);
      SpacedTailCons(names);
    }
  }

  lemma StripTrimmed(n: string)
    requires Trimmed(n)
    ensures Strip(n) == n && Strip(" " + n) == n
  {
    if |n| == 0 {
      assert IsBlank(" " + n);
    } else {
      StripUnique("", n, "");
      StripUnique(" ", n, "");
      assert "" + n + "" == n && " " + n + "" == " " + n;
    }
  }

  /** Stripping the first piece and the spaced later pieces gives the names back. */
  lemma StripPieces(names: seq<string>)
    requires |names| > 0 && CleanNames(names)
    ensures StripAll([names[0]] + SpacedTail(names)) == names
  {
    var parts := [names[0]] + SpacedTail(names);
    var r := StripAll(parts);
    forall k | 0 <= k < |names| ensures r[k] == names[k] {
      StripTrimmed(names[k]);
      if k > 0 {
        assert parts[k] == " " + names[k];
      }
    }
  }

  /** Parsing the joined list of names back (`split(',')` then `strip()`) recovers it. */
  lemma SplitJoinRoundTrip(names: seq<string>)
    requires |names| > 0 && CleanNames(names)
    ensures StripAll(Split(Join(", ", names), ',')) == names
  {
    SplitJoinFrom("", names);
    assert "" + Join(", ", names) == Join(", ", names);
    assert "" + names[0] == names[0];
    StripPieces(names);
  }
}
