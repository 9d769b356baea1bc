/**
 * The single-expression text helpers of src/pdfXYExtract.js and the label
 * clean-up shared with src/scraper.js and scripts/backfill_matched_lines.js:
 * `looksNumericToken`, `cleanNumberText` and the collapse of a label printed
 * twice in a row (`/^(.{4,}?)\1$/u`).
 */
module Lexer {
  import opened Strs
  import opened Segmenter

  lemma {:induction false} HasDigitIffDigits(s: string)
    ensures HasDigit(s) <==> Digits(s) != []
  {
    if s != [] {
      HasDigitIffDigits(s[1..]);
      if HasDigit(s) && !IsDigit(s[0]) {
        var i :| 0 <= i < |s| && IsDigit(s[i]);
        assert s[1..][i - 1] == s[i];
      }
      if HasDigit(s[1..]) {
        var i :| 0 <= i < |s[1..]| && IsDigit(s[1..][i]);
        assert s[i + 1] == s[1..][i];
      }
    }
  }

  // ---------------------------------------------------------------------------
  // looksNumericToken

  /** The characters allowed after the first digit: `[\d .,:-]`. */
  predicate InNumClass(c: char) {
    IsDigit(c) || c == ' ' || c == '.' || c == ',' || c == ':' || c == '-'
  }

  /** `/^[+\-]?\d[\d .,:-]*$/`: an optional sign, a digit, then only digits,
      spaces, dots, commas, colons and hyphens. */
  predicate NumericShape(t: string) {
    || (|t| >= 1 && IsDigit(t[0]) && forall i | 1 <= i < |t| :: InNumClass(t[i]))
    || (|t| >= 2 && IsSign(t[0]) && IsDigit(t[1]) && forall i | 2 <= i < |t| :: InNumClass(t[i]))
  }

  /** `looksNumericToken`: the normalised text is non-empty, has a digit and
      has the numeric shape. The first two tests are implied by the third, so
      the token looks numeric exactly when its normalised text has the shape. */
  function LooksNumericToken(s: string): (r: bool)
    ensures r <==> NumericShape(NormalizeText(s))
    ensures r ==> HasDigit(s)
  {
    var t := NormalizeText(s);
    var r := t != "" && HasDigit(t) && NumericShape(t);
    assert NumericShape(t) ==> HasDigit(t) by {
      if NumericShape(t) {
        if IsDigit(t[0]) { assert IsDigit(t[0]); } else { assert IsDigit(t[1]); }
      }
    }
    assert r ==> HasDigit(s) by {
      if r {
        DigitsOfNormalized(s);
        HasDigitIffDigits(t);
        HasDigitIffDigits(s);
      }
    }
    r
  }

  // ---------------------------------------------------------------------------
  // cleanNumberText

  /** `[.,](?=\d{3}(?:\D|$))` matches at `i`: a dot or comma followed by exactly
      three digits and then a non-digit or the end. */
  predicate IsThousandsSep(t: string, i: nat) {
    i < |t| && (t[i] == '.' || t[i] == ',') && i + 4 <= |t|
    && IsDigit(t[i + 1]) && IsDigit(t[i + 2]) && IsDigit(t[i + 3])
    && (i + 4 == |t| || !IsDigit(t[i + 4]))
  }

  /** The replacement of every thousands separator by a space, from index `i`
      on. The look-ahead consumes nothing, so each position is decided alone. */
  function SepsToSpaces(t: string, i: nat): (r: string)
    requires i <= |t|
    ensures |r| == |t| - i
    decreases |t| - i
  {
    if i == |t| then [] else [if IsThousandsSep(t, i) then ' ' else t[i]] + SepsToSpaces(t, i + 1)
  }

  /** `cleanNumberText`: normalise, turn thousands separators into spaces and
      squeeze runs of spaces. */
  function CleanNumberText(s: string): string {
    SqueezeSpaces(SepsToSpaces(NormalizeText(s), 0))
  }

  lemma {:induction false} SepsKeepDigits(t: string, i: nat)
    requires i <= |t|
    ensures Digits(SepsToSpaces(t, i)) == Digits(t[i..])
    decreases |t| - i
  {
    if i < |t| {
      SepsKeepDigits(t, i + 1);
      var c := if IsThousandsSep(t, i) then ' ' else t[i];
      DigitsAppend([c], SepsToSpaces(t, i + 1));
      assert t[i..] == [t[i]] + t[i + 1..];
      DigitsAppend([t[i]], t[i + 1..]);
    }
  }

  /** The separator rule: each position of the normalised text keeps its
      character unless it is a thousands separator, which becomes a space. */
  lemma {:induction false} SepsAt(t: string, i: nat, k: nat)
    requires i <= k < |t|
    ensures SepsToSpaces(t, i)[k - i] == if IsThousandsSep(t, k) then ' ' else t[k]
    decreases k - i
  {
    if i < k { SepsAt(t, i + 1, k); }
  }

  lemma {:induction false} SqueezeKeepsDigits(s: string)
    ensures Digits(SqueezeSpaces(s)) == Digits(s)
  {
    SqueezeKeepsNonWs(s);
    DigitsOfNonWs(s);
    DigitsOfNonWs(SqueezeSpaces(s));
  }

  /** Cleaning never loses, invents or reorders a digit. */
  lemma {:induction false} CleanKeepsDigits(s: string)
    ensures Digits(CleanNumberText(s)) == Digits(s)
  {
    var t := NormalizeText(s);
    DigitsOfNormalized(s);
    SepsKeepDigits(t, 0);
    assert t[0..] == t;
    SqueezeKeepsDigits(SepsToSpaces(t, 0));
  }

  // ---------------------------------------------------------------------------
  // The doubled-label collapse

  predicate NoLineTerminator(s: string) { forall i | 0 <= i < |s| :: !IsLineTerminator(s[i]) }

  /** `s.match(/^(.{4,}?)\1$/u)` and then `dup[1].trim()`: a text that is some
      piece of at least four characters written twice is cut to that piece,
      trimmed; anything else is kept. With both anchors the group can only be
      the first half, and `.` does not match a line terminator. */
  function CollapseDoubled(s: string): (r: string)
    ensures r == s || (|s| >= 8 && |s| % 2 == 0 && s[..|s| / 2] == s[|s| / 2..] && r == Trim(s[..|s| / 2]))
  {
    var h := |s| / 2;
    if |s| >= 8 && |s| % 2 == 0 && s[..h] == s[h..] && NoLineTerminator(s) then Trim(s[..h]) else s
  }

  /** A piece of four or more characters written twice collapses to the piece. */
  lemma CollapseTwice(x: string)
    requires |x| >= 4 && NoLineTerminator(x)
    ensures CollapseDoubled(x + x) == Trim(x)
  {
    var s := x + x;
    assert s[..|x|] == x && s[|x|..] == x;
    assert NoLineTerminator(s) by {
      forall i | 0 <= i < |s| ensures !IsLineTerminator(s[i]) {
        if i < |x| { assert s[i] == x[i]; } else { assert s[i] == x[i - |x|]; }
      }
    }
  }

  /** Collapsing a normalised text keeps it normalised. */
  lemma CollapseNormalized(s: string)
    requires Normalized(s)
    ensures Normalized(CollapseDoubled(s))
  {
    var h := |s| / 2;
    if CollapseDoubled(s) != s {
      SliceKeepsShape(s, 0, h);
      var r := Trim(s[..h]);
      assert OnlySpaceWs(r) && NoDoubleSpace(r);
      assert |r| > 0 ==> r[0] != ' ' && r[|r| - 1] != ' ';
    }
  }
}
