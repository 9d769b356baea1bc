/**
 * Reading the values out of a line: `extractNumbersFromText`
 * (src/pdfXYExtract.js), `extractNumbersFromLine` (src/scraper.js and
 * scripts/backfill_matched_lines.js), `stripNumbersFromLine` (both) and
 * `normalizeTableValues` (src/scraper.js). All of them scan the line for
 * numeric runs, split each run into values and tidy the values.
 */
module Numbers {
  import opened Strs
  import opened Segmenter
  import opened SegmenterFacts
  import opened Lexer
  import opened Scanner
  import opened SegmenterClean

  // ---------------------------------------------------------------------------
  // Preparing the line

  /** `s.replace(/[c]+/g, " ")`: each maximal run of `c` becomes one space. */
  function SquashRuns(s: string, c: char): (r: string)
    decreases |s|
  {
    if s == [] then []
    else if s[0] == c then (if |s| > 1 && s[1] == c then SquashRuns(s[1..], c) else " " + SquashRuns(s[1..], c))
    else [s[0]] + SquashRuns(s[1..], c)
  }

  /** The minus sign, en dash and em dash that `[−–—]` matches. */
  predicate IsDash(c: char) { c == '\U{2212}' || c == '\U{2013}' || c == '\U{2014}' }

  /** `s.replace(/[−–—]/g, "-")`. */
  function MapDashes(s: string): (r: string)
    ensures |r| == |s|
  {
    if s == [] then [] else [if IsDash(s[0]) then '-' else s[0]] + MapDashes(s[1..])
  }

  /** The line preparation of `extractNumbersFromLine`: runs of non-breaking
      spaces become one space, dashes become "-", runs of tabs become one space. */
  function PrepLine(line: string): string {
    SquashRuns(MapDashes(SquashRuns(line, '\U{00A0}')), '\t')
  }

  lemma {:induction false} SquashKeepsDigits(s: string, c: char)
    requires !IsDigit(c)
    ensures Digits(SquashRuns(s, c)) == Digits(s)
    decreases |s|
  {
    if s != [] {
      SquashKeepsDigits(s[1..], c);
      if s[0] == c {
        if !(|s| > 1 && s[1] == c) { DigitsAppend(" ", SquashRuns(s[1..], c)); }
      } else {
        DigitsAppend([s[0]], SquashRuns(s[1..], c));
      }
    }
  }

  lemma {:induction false} MapDashesKeepsDigits(s: string)
    ensures Digits(MapDashes(s)) == Digits(s)
  {
    if s != [] {
      MapDashesKeepsDigits(s[1..]);
      DigitsAppend([if IsDash(s[0]) then '-' else s[0]], MapDashes(s[1..]));
    }
  }

  lemma {:induction false} PrepKeepsDigits(line: string)
    ensures Digits(PrepLine(line)) == Digits(line)
  {
    SquashKeepsDigits(line, '\U{00A0}');
    MapDashesKeepsDigits(SquashRuns(line, '\U{00A0}'));
    SquashKeepsDigits(MapDashes(SquashRuns(line, '\U{00A0}')), '\t');
  }

  // ---------------------------------------------------------------------------
  // From runs to values

  /** The tidied form of one part (`replace(/[ ]+/g, " ").trim()`, which on
      run text is `normalizeText`): nothing when it is blank. */
  function TidyOne(p: string): seq<string> {
    var v := NormalizeText(p);
    if v == "" then [] else [v]
  }

  /** Each part mapped through `f`, the results concatenated in order. */
  function FlatParts(ps: seq<string>, f: string -> seq<string>): seq<string>
  {
    if ps == [] then [] else FlatParts(ps[..|ps| - 1], f) + f(ps[|ps| - 1])
  }

  /** The parts of one run, each tidied, blank ones dropped, in order. */
  function Tidy(ps: seq<string>): seq<string>
  {
    FlatParts(ps, TidyOne)
  }

  /** A map that leaves every part as it is leaves the parts as they are. */
  lemma {:induction false} FlatPartsFixed(ps: seq<string>, f: string -> seq<string>)
    requires forall i | 0 <= i < |ps| :: f(ps[i]) == [ps[i]]
    ensures FlatParts(ps, f) == ps
  {
    if ps != [] {
      var init := ps[..|ps| - 1];
      FlatPartsFixed(init, f);
      assert init + [ps[|ps| - 1]] == ps;
    }
  }

  /** A map that keeps each part's digits keeps the digits of all the parts. */
  lemma {:induction false} FlatPartsKeepDigits(ps: seq<string>, f: string -> seq<string>)
    requires forall p :: Digits(Concat(f(p))) == Digits(p)
    ensures Digits(Concat(FlatParts(ps, f))) == Digits(Concat(ps))
  {
    if ps != [] {
      var init := ps[..|ps| - 1];
      var last := ps[|ps| - 1];
      FlatPartsKeepDigits(init, f);
      ConcatAppend(FlatParts(init, f), f(last));
      DigitsAppend(Concat(FlatParts(init, f)), Concat(f(last)));
      assert init + [last] == ps;
      ConcatAppend(init, [last]);
      ConcatSingle(last);
      DigitsAppend(Concat(init), last);
    }
  }

  lemma TidyOneClean(p: string)
    requires Clean(p)
    ensures TidyOne(p) == [p]
  {
    NormalizedFixpoint(p);
  }

  /** Tidying leaves clean parts alone: `splitGroupedNumberRun` only returns
      clean parts, so the callers' tidy step never changes or drops one. */
  lemma TidyOfClean(ps: seq<string>)
    requires AllClean(ps)
    ensures Tidy(ps) == ps
  {
    forall i | 0 <= i < |ps| ensures TidyOne(ps[i]) == [ps[i]] {
      assert ps[i] in ps;
      TidyOneClean(ps[i]);
    }
    FlatPartsFixed(ps, TidyOne);
  }

  /** The values one run contributes: the run is tidied, skipped when blank,
      split by `splitGroupedNumberRun` and its parts tidied. */
  function RunValues(run: string, pc: nat, repairs: bool): seq<string> {
    var cleaned := NormalizeText(run);
    if cleaned == "" then [] else Tidy(SplitRun(cleaned, pc, repairs))
  }

  /** The per-part tidy is the identity: a run's values are exactly what
      `splitGroupedNumberRun` returns for its normalised text. */
  lemma RunValuesAreSplit(run: string, pc: nat, repairs: bool)
    ensures RunValues(run, pc, repairs) == if NormalizeText(run) == "" then [] else SplitRun(NormalizeText(run), pc, repairs)
  {
    var cleaned := NormalizeText(run);
    if cleaned != "" {
      SplitClean(cleaned, pc, repairs);
      TidyOfClean(SplitRun(cleaned, pc, repairs));
    }
  }

  /** The values of a sequence of runs, in order. */
  function FlatValues(runs: seq<string>, pc: nat, repairs: bool): seq<string>
  {
    if runs == [] then [] else RunValues(runs[0], pc, repairs) + FlatValues(runs[1..], pc, repairs)
  }

  /** `extractNumbersFromLine(line, { preferredCount })`; `repairs` selects the
      scraper copy, which is the one whose splitter has the footnote repairs. */
  function NumbersFromLine(line: string, pc: nat, repairs: bool): seq<string>
  {
    if line == "" then [] else FlatValues(Runs(PrepLine(line), 0), pc, repairs)
  }

  /** `extractNumbersFromText(text, preferredCount)` of src/pdfXYExtract.js. */
  function NumbersFromText(text: string, pc: nat): seq<string>
  {
    FlatValues(Runs(MapDashes(CleanNumberText(text)), 0), pc, false)
  }

  lemma {:induction false} TidyClean(ps: seq<string>)
    ensures forall v | v in Tidy(ps) :: v != "" && Normalized(v)
  {
    if ps != [] { TidyClean(ps[..|ps| - 1]); }
  }


  lemma RunValuesClean(run: string, pc: nat, repairs: bool)
    ensures forall v | v in RunValues(run, pc, repairs) :: v != "" && Normalized(v)
  {
    var cleaned := NormalizeText(run);
    if cleaned != "" { TidyClean(SplitRun(cleaned, pc, repairs)); }
  }

  lemma {:induction false} FlatValuesClean(runs: seq<string>, pc: nat, repairs: bool)
    ensures forall v | v in FlatValues(runs, pc, repairs) :: v != "" && Normalized(v)
  {
    if runs != [] {
      FlatValuesClean(runs[1..], pc, repairs);
      RunValuesClean(runs[0], pc, repairs);
      assert FlatValues(runs, pc, repairs) == RunValues(runs[0], pc, repairs) + FlatValues(runs[1..], pc, repairs);
    }
  }

  /** Every value read from a line is non-empty normalised text. */
  lemma LineValuesClean(line: string, pc: nat, repairs: bool)
    ensures forall v | v in NumbersFromLine(line, pc, repairs) :: v != "" && Normalized(v)
  {
    if line != "" { FlatValuesClean(Runs(PrepLine(line), 0), pc, repairs); }
  }

  // ---------------------------------------------------------------------------
  // No digit lost or invented (the copies without footnote repairs)

  lemma {:induction false} TidyOneKeepsDigits(p: string)
    ensures Digits(Concat(TidyOne(p))) == Digits(p)
  {
    var v := NormalizeText(p);
    DigitsOfNormalized(p);
    if v != "" {
      assert TidyOne(p) == [v];
      ConcatSingle(v);
    }
  }

  lemma TidyKeepsDigits(ps: seq<string>)
    ensures Digits(Concat(Tidy(ps))) == Digits(Concat(ps))
  {
    forall p ensures Digits(Concat(TidyOne(p))) == Digits(p) { TidyOneKeepsDigits(p); }
    FlatPartsKeepDigits(ps, TidyOne);
  }


  lemma {:induction false} RunValuesKeepDigits(run: string, pc: nat)
    ensures Digits(Concat(RunValues(run, pc, false))) == Digits(run)
  {
    var cleaned := NormalizeText(run);
    DigitsOfNormalized(run);
    if cleaned != "" {
      TidyKeepsDigits(SplitRun(cleaned, pc, false));
      SplitKeepsDigits(cleaned, pc);
    }
  }

  lemma {:induction false} FlatValuesKeepDigits(runs: seq<string>, pc: nat)
    ensures Digits(Concat(FlatValues(runs, pc, false))) == Digits(Concat(runs))
  {
    if runs != [] {
      FlatValuesKeepDigits(runs[1..], pc);
      RunValuesKeepDigits(runs[0], pc);
      ConcatAppend(RunValues(runs[0], pc, false), FlatValues(runs[1..], pc, false));
      DigitsAppend(Concat(RunValues(runs[0], pc, false)), Concat(FlatValues(runs[1..], pc, false)));
      DigitsAppend(runs[0], Concat(runs[1..]));
    }
  }

  /** The values the backfill copy reads from a line hold exactly the line's
      digits, in order. */
  lemma {:induction false} LineValuesKeepDigits(line: string, pc: nat)
    ensures Digits(Concat(NumbersFromLine(line, pc, false))) == Digits(line)
  {
    if line != "" {
      var s := PrepLine(line);
      FlatValuesKeepDigits(Runs(s, 0), pc);
      RunsCoverDigits(s, 0);
      assert s[0..] == s;
      PrepKeepsDigits(line);
    }
  }

  /** The values `extractNumbersFromText` reads hold exactly the text's digits,
      in order. */
  lemma {:induction false} TextValuesKeepDigits(text: string, pc: nat)
    ensures Digits(Concat(NumbersFromText(text, pc))) == Digits(text)
  {
    var s := MapDashes(CleanNumberText(text));
    FlatValuesKeepDigits(Runs(s, 0), pc);
    RunsCoverDigits(s, 0);
    assert s[0..] == s;
    MapDashesKeepsDigits(CleanNumberText(text));
    CleanKeepsDigits(text);
  }

  // ---------------------------------------------------------------------------
  // The exec loops

  /** One step of the loop over a run's parts. */
  lemma PushStep(out: seq<string>, parts: seq<string>, k: nat, r: seq<string>)
    requires k < |parts| && r == out + Tidy(parts[..k])
    ensures r + TidyOne(parts[k]) == out + Tidy(parts[..k + 1])
  {
    assert parts[..k + 1][..k] == parts[..k];
  }

  /** The parts of one run, tidied and appended one at a time. */
  method PushParts(out: seq<string>, parts: seq<string>) returns (r: seq<string>)
    ensures r == out + Tidy(parts)
  {
    r := out;
    var k := 0;
    assert parts[..0] == [];
    assert r == out + [];
    while k < |parts|
      invariant k <= |parts|
      invariant r == out + Tidy(parts[..k])
    {
      var v := NormalizeText(parts[k]);
      PushStep(out, parts, k, r);
      if v != "" {
        assert TidyOne(parts[k]) == [v];
        r := r + [v];
      } else {
        assert TidyOne(parts[k]) == [];
        assert r + [] == r;
      }
      k := k + 1;
    }
    assert parts[..k] == parts;
  }

  /** One step of the loop over a line's runs. */
  lemma {:induction false} CollectStep(s: string, pos: nat, start: nat, end: nat, pc: nat, repairs: bool, out: seq<string>)
    requires start <= end <= |s| && Runs(s, pos) == [s[start..end]] + Runs(s, end)
    ensures out + FlatValues(Runs(s, pos), pc, repairs)
         == (out + RunValues(s[start..end], pc, repairs)) + FlatValues(Runs(s, end), pc, repairs)
  {
    var rs := Runs(s, pos);
    assert rs[0] == s[start..end] && rs[1..] == Runs(s, end);
  }

  /** `while ((m = re.exec(s)) !== null)`: every run is split and its parts
      pushed. */
  method CollectValues(s: string, pc: nat, repairs: bool) returns (out: seq<string>)
    ensures out == FlatValues(Runs(s, 0), pc, repairs)
  {
    out := [];
    var pos := 0;
    var more := true;
    while more
      invariant pos <= |s|
      invariant more ==> FlatValues(Runs(s, 0), pc, repairs) == out + FlatValues(Runs(s, pos), pc, repairs)
      invariant !more ==> out == FlatValues(Runs(s, 0), pc, repairs)
      decreases |s| - pos, more
    {
      var found, start, end := Exec(s, pos);
      if !found {
        assert FlatValues(Runs(s, pos), pc, repairs) == [];
        assert out + [] == out;
        more := false;
      } else {
        CollectStep(s, pos, start, end, pc, repairs, out);
        var run := NormalizeText(s[start..end]);
        if run != "" {
          var parts := SplitGroupedNumberRun(run, pc, repairs);
          assert RunValues(s[start..end], pc, repairs) == Tidy(parts);
          out := PushParts(out, parts);
        } else {
          assert RunValues(s[start..end], pc, repairs) == [];
          assert out + [] == out;
        }
        pos := end;
      }
    }
  }

  /** `extractNumbersFromLine` (src/scraper.js with `repairs`, and
      scripts/backfill_matched_lines.js without). */
  method ExtractNumbersFromLine(line: string, pc: nat, repairs: bool) returns (values: seq<string>)
    ensures values == NumbersFromLine(line, pc, repairs)
  {
    if line == "" {
      return [];
    }
    values := CollectValues(PrepLine(line), pc, repairs);
  }

  /** `extractNumbersFromText` of src/pdfXYExtract.js. */
  method ExtractNumbersFromText(text: string, pc: nat) returns (values: seq<string>)
    ensures values == NumbersFromText(text, pc)
  {
    values := CollectValues(MapDashes(CleanNumberText(text)), pc, false);
  }

  // ---------------------------------------------------------------------------
  // stripNumbersFromLine

  predicate IsTrailingPunct(c: char) { c == ',' || c == ':' || c == ';' || c == '-' }

  /** `s.replace(/[,:;\-]+$/g, "")`. */
  function DropTrailingPunct(s: string): (r: string)
    ensures |r| <= |s|
    ensures |r| > 0 ==> !IsTrailingPunct(r[|r| - 1])
  {
    if |s| > 0 && IsTrailingPunct(s[|s| - 1]) then DropTrailingPunct(s[..|s| - 1]) else s
  }

  /** Dropping trailing punctuation leaves a prefix of the text. */
  lemma {:induction false} DropTrailingPunctPrefix(s: string)
    ensures DropTrailingPunct(s) == s[..|DropTrailingPunct(s)|]
  {
    if |s| > 0 && IsTrailingPunct(s[|s| - 1]) { DropTrailingPunctPrefix(s[..|s| - 1]); }
  }

  /** `stripNumbersFromLine` (src/scraper.js and scripts/backfill_matched_lines.js):
      every numeric run becomes a space, whitespace is normalised, trailing
      `,:;-` are dropped and a doubled label collapsed. */
  function StripNumbersFromLine(line: string): string {
    if line == "" then ""
    else
      var s := NormalizeText(ReplaceRuns(MapDashes(SquashRuns(line, '\U{00A0}')), 0, " "));
      CollapseDoubled(Trim(DropTrailingPunct(s)))
  }

  lemma {:induction false} NoDigitsPrefix(s: string, k: nat)
    requires Digits(s) == [] && k <= |s|
    ensures Digits(s[..k]) == []
  {
    assert s == s[..k] + s[k..];
    DigitsAppend(s[..k], s[k..]);
  }

  lemma {:induction false} TrimKeepsDigits(s: string)
    ensures Digits(Trim(s)) == Digits(s)
  {
    DigitsOfNonWs(s);
    DigitsOfNonWs(Trim(s));
    TrimKeepsNonWs(s);
  }

  /** The label left over has no digit at all and is normalised text. */
  lemma StripLeavesLabel(line: string)
    ensures Digits(StripNumbersFromLine(line)) == []
    ensures Normalized(StripNumbersFromLine(line))
  {
    if line != "" {
      var u := ReplaceRuns(MapDashes(SquashRuns(line, '\U{00A0}')), 0, " ");
      ReplaceRunsNoDigits(MapDashes(SquashRuns(line, '\U{00A0}')), 0, " ");
      var s := NormalizeText(u);
      DigitsOfNormalized(u);
      var d := DropTrailingPunct(s);
      DropTrailingPunctPrefix(s);
      NoDigitsPrefix(s, |d|);
      var c := Trim(d);
      TrimKeepsDigits(d);
      SliceKeepsShape(s, 0, |d|);
      assert Normalized(c);
      CollapseNormalized(c);
      var h := |c| / 2;
      NoDigitsPrefix(c, h);
      TrimKeepsDigits(c[..h]);
    }
  }

  // ---------------------------------------------------------------------------
  // normalizeTableValues

  /** Each value tidied with `replace(/\s+/g, " ").trim()`. */
  function TidyEach(vs: seq<string>): (r: seq<string>)
    ensures |r| == |vs|
  {
    if vs == [] then [] else [NormalizeText(vs[0])] + TidyEach(vs[1..])
  }

  /** The re-split cells: an item splitting into more than one value gives
      its values, any other item is kept. */
  function Flattened(items: seq<string>, ec: nat): seq<string> {
    if items == [] then []
    else
      var split := NumbersFromLine(items[|items| - 1], ec, true);
      Flattened(items[..|items| - 1], ec) + (if |split| > 1 then split else [items[|items| - 1]])
  }

  /** `normalizeTableValues(values, expectedCount)`: the tidied values, or,
      when there are fewer than expected, their re-split form if that has
      exactly the expected count. */
  function TableValues(values: seq<string>, ec: nat): (r: seq<string>)
    ensures values == [] ==> r == []
    ensures ec == 0 || |values| >= ec ==> r == TidyEach(values)
    ensures r == TidyEach(values) || (|values| < ec && |r| == ec)
  {
    var arr := TidyEach(values);
    if arr == [] then []
    else if ec == 0 || |arr| >= ec then arr
    else
      var flat := Flattened(arr, ec);
      if |flat| == ec then flat else arr
  }

  /** One cell of the re-split loop. */
  method FlattenCell(arr: seq<string>, k: nat, ec: nat, flattened: seq<string>) returns (r: seq<string>)
    requires k < |arr| && flattened == Flattened(arr[..k], ec)
    ensures r == Flattened(arr[..k + 1], ec)
  {
    var split := ExtractNumbersFromLine(arr[k], ec, true);
    assert arr[..k + 1][..k] == arr[..k];
    if |split| > 1 {
      r := flattened + split;
    } else {
      r := flattened + [arr[k]];
    }
  }

  /** The source's loop over the tidied cells. */
  method NormalizeTableValues(values: seq<string>, ec: nat) returns (r: seq<string>)
    ensures r == TableValues(values, ec)
  {
    var arr := TidyEach(values);
    if arr == [] {
      return [];
    }
    if ec == 0 || |arr| >= ec {
      return arr;
    }
    var flattened: seq<string> := [];
    var k := 0;
    while k < |arr|
      invariant k <= |arr|
      invariant flattened == Flattened(arr[..k], ec)
    {
      flattened := FlattenCell(arr, k, ec, flattened);
      k := k + 1;
    }
    assert arr[..k] == arr;
    if |flattened| == ec {
      return flattened;
    }
    return arr;
  }
}
