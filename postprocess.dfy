/**
 * The post-normalisation of a lender's matched lines in src/scraper.js
 * (`normalizeMatched`, the Kreditinstitut debt filter and
 * `dedupeKreditinstitutValueVariants`) and its batch copy
 * `normalizeMatchedArray` in scripts/backfill_matched_lines.js.
 *
 * A line that contains digits gets its values re-extracted from the line.
 * A line without digits keeps a clean pair of values as it is; any other
 * list is replaced only by a re-split into exactly two values. The label is
 * the line with its numbers stripped, or the raw line when nothing is left.
 */
module PostProcess {
  import opened Strs
  import opened Segmenter
  import opened Numbers
  import opened Selection
  import opened Lists

  // ---------------------------------------------------------------------------
  // The values of one item

  /** `values.map(v => v.replace(/\s+/g, " ").trim()).filter(v => v.length > 0)`. */
  function Existing(vs: seq<string>): (r: seq<string>)
    ensures |r| <= |vs|
  {
    if vs == [] then []
    else
      var t := NormalizeText(vs[|vs| - 1]);
      Existing(vs[..|vs| - 1]) + (if t == "" then [] else [t])
  }

  /** Every kept value is non-empty and whitespace-normalised. */
  lemma {:induction false} ExistingClean(vs: seq<string>)
    ensures forall v | v in Existing(vs) :: v != "" && Normalized(v)
  {
    if vs != [] { ExistingClean(vs[..|vs| - 1]); }
  }

  /** Values that are already non-empty and normalised pass unchanged. */
  lemma {:induction false} ExistingOfClean(vs: seq<string>)
    requires forall v | v in vs :: v != "" && Normalized(v)
    ensures Existing(vs) == vs
  {
    if vs != [] {
      var init := vs[..|vs| - 1];
      assert forall v | v in init :: v in vs;
      ExistingOfClean(init);
      NormalizedFixpoint(vs[|vs| - 1]);
      SnocSplit(vs);
    }
  }

  /** `/^\d+(?: \d{3})*$/`: a digit run followed by space-separated groups of
      three. */
  predicate DigitGroups(d: string)
    decreases |d|
  {
    || (d != "" && AllDigits(d))
    || (|d| >= 5 && d[|d| - 4] == ' ' && IsGroup3(d[|d| - 3..]) && DigitGroups(d[..|d| - 4]))
  }

  /** `/^[-+]?\d+(?: \d{3})*$/`. */
  predicate CleanNumber(v: string) {
    DigitGroups(StripSign(v))
  }

  lemma {:induction false} DigitGroupsShape(d: string)
    requires DigitGroups(d)
    ensures d != "" && d[0] != ' ' && d[|d| - 1] != ' '
    ensures OnlySpaceWs(d) && NoDoubleSpace(d)
    decreases |d|
  {
    if !(d != "" && AllDigits(d)) {
      var p := d[..|d| - 4];
      DigitGroupsShape(p);
      assert d == p + [' '] + d[|d| - 3..];
      forall i | 0 <= i < |d| ensures IsWs(d[i]) ==> d[i] == ' ' {
        if i < |p| { assert d[i] == p[i]; }
      }
      forall i | 0 <= i < |d| - 1 ensures !SpacePair(d, i) {
        if i < |p| - 1 { assert d[i] == p[i] && d[i + 1] == p[i + 1]; assert !SpacePair(p, i); }
      }
    }
  }

  /** A clean number is a normalised, non-empty string: the pair test only
      ever accepts values that normalisation leaves alone. */
  lemma CleanNumberNormalized(v: string)
    requires CleanNumber(v)
    ensures v != "" && Normalized(v)
  {
    var d := StripSign(v);
    DigitGroupsShape(d);
    if |v| > 0 && IsSign(v[0]) {
      assert v == [v[0]] + d;
      forall i | 0 <= i < |v| ensures IsWs(v[i]) ==> v[i] == ' ' {
        if i > 0 { assert v[i] == d[i - 1]; }
      }
      forall i | 0 <= i < |v| - 1 ensures !SpacePair(v, i) {
        if i > 0 { assert v[i] == d[i - 1] && v[i + 1] == d[i]; assert !SpacePair(d, i - 1); }
      }
    }
  }

  /** Space-grouped and signed integers are clean numbers. */
  lemma CleanExamples()
    ensures CleanNumber("22 875 000")
    ensures CleanNumber("-4990")
  {
    var v := "22 875 000";
    assert v[..6] == "22 875" && v[7..] == "000";
    assert "22 875"[..2] == "22" && "22 875"[3..] == "875";
    assert StripSign("-4990") == "4990";
  }

  /** A short trailing group and the empty string are not clean numbers. */
  lemma RejectExamples()
    ensures !CleanNumber("22 87")
    ensures !CleanNumber("")
  {
    var v := "22 87";
    assert StripSign(v) == v;
    assert !AllDigits(v) by { assert v[2] == ' '; }
    assert v[|v| - 4] == '2';
  }

  /** A list that is exactly two clean numbers. */
  predicate CleanPair(ex: seq<string>) {
    |ex| == 2 && CleanNumber(ex[0]) && CleanNumber(ex[1])
  }

  /** The values of a normalised item (`values` in `normalizeMatched` and
      `normalizeMatchedArray`); `repairs` selects the footnote-repairing
      number splitter of src/scraper.js. */
  function ValuesFor(rawLine: string, vs: seq<string>, repairs: bool): seq<string> {
    if HasDigit(rawLine) then NumbersFromLine(rawLine, 2, repairs)
    else
      var ex := Existing(vs);
      if CleanPair(ex) then ex
      else
        var repaired := NumbersFromLine(Join(" ", ex), 2, repairs);
        if |repaired| == 2 then repaired else ex
  }

  /** A line with digits decides the values on its own; without digits a
      clean pair is kept, and any other list is replaced only by a re-split
      into exactly two values. Every value is non-empty and normalised. */
  lemma ValuesForFacts(rawLine: string, vs: seq<string>, repairs: bool)
    ensures var r := ValuesFor(rawLine, vs, repairs);
      && (forall v | v in r :: v != "" && Normalized(v))
      && (HasDigit(rawLine) ==> r == NumbersFromLine(rawLine, 2, repairs))
      && (!HasDigit(rawLine) && CleanPair(Existing(vs)) ==> r == Existing(vs))
      && (!HasDigit(rawLine) ==> r == Existing(vs) || |r| == 2)
  {
    ExistingClean(vs);
    if HasDigit(rawLine) {
      LineValuesClean(rawLine, 2, repairs);
    } else {
      LineValuesClean(Join(" ", Existing(vs)), 2, repairs);
    }
  }

  /** With the splitter that has no footnote repairs (the backfill copy), a
      line with digits loses none of them and gains none. */
  lemma ValuesKeepDigits(rawLine: string, vs: seq<string>)
    requires HasDigit(rawLine)
    ensures Digits(Concat(ValuesFor(rawLine, vs, false))) == Digits(rawLine)
  {
    LineValuesKeepDigits(rawLine, 2);
  }

  // ---------------------------------------------------------------------------
  // The Kreditinstitut debt filter

  /** The key is "kreditinstitut" (any case) and the line mentions "skuld". */
  predicate KreditSkuld(key: string, line: string) {
    Lower(key) == "kreditinstitut" && ContainsCI(line, "skuld")
  }

  predicate IsZero(s: string) { s == "0" || s == "+0" || s == "-0" }

  /** A value the filter keeps: zero, or more than two digits (one- and
      two-digit tokens are almost always note references). */
  predicate Substantial(v: string) {
    var s := NormalizeText(v);
    s != "" && (IsZero(s) || |Digits(s)| > 2)
  }

  /** `vs.filter(Substantial)`. */
  function Substantials(vs: seq<string>): (r: seq<string>)
    ensures |r| <= |vs|
  {
    KeepIf(vs, Substantial)
  }

  /** The filter applied to the values of one item. */
  function KreditValues(key: string, rawLine: string, vs: seq<string>): seq<string> {
    var f := Substantials(vs);
    if KreditSkuld(key, rawLine) && |vs| > 2 && |f| >= 2 then f[|f| - 2..] else vs
  }

  /** For a Kreditinstitut debt line with more than two values, the filter
      keeps exactly the last two values that are zero or have more than two
      digits, provided at least two survive; in every other case the values
      pass unchanged. */
  lemma KreditValuesFacts(key: string, rawLine: string, vs: seq<string>)
    ensures var r := KreditValues(key, rawLine, vs);
      var fires := KreditSkuld(key, rawLine) && |vs| > 2 && |Substantials(vs)| >= 2;
      && (!fires ==> r == vs)
      && (fires ==>
            (&& |r| == 2 && r != vs && r[0] in vs && r[1] in vs
             && exists i, j | 0 <= i < j < |vs| ::
                  (vs[i] == r[0] && vs[j] == r[1] && Substantial(vs[i]) && Substantial(vs[j])
                   && forall k | i < k < |vs| && k != j :: !Substantial(vs[k]))))
  {
    var f := Substantials(vs);
    if KreditSkuld(key, rawLine) && |vs| > 2 && |f| >= 2 {
      KeepLastTwo(vs, Substantial);
      var r := KreditValues(key, rawLine, vs);
      assert r[0] == f[|f| - 2] && r[1] == f[|f| - 1];
    }
  }

  // ---------------------------------------------------------------------------
  // One item

  /** `stripNumbersFromLine(rawLine) || rawLine`. */
  function LabelOf(rawLine: string): string {
    var s := StripNumbersFromLine(rawLine);
    if s == "" then rawLine else s
  }

  /** The label is the raw line itself or a non-empty, digit-free, normalised
      text, and it is empty only for an empty line. */
  lemma LabelFacts(rawLine: string)
    ensures var l := LabelOf(rawLine);
      && (l == "" <==> rawLine == "")
      && (l == rawLine || (Digits(l) == [] && Normalized(l)))
  {
    StripLeavesLabel(rawLine);
  }

  /** `normalizeMatched(item)` of src/scraper.js. */
  function NormalizeMatched(h: Hit): Hit {
    h.(line := LabelOf(h.line), values := KreditValues(h.key, h.line, ValuesFor(h.line, h.values, true)))
  }

  /** One item of `normalizeMatchedArray` (scripts/backfill_matched_lines.js):
      the same normalisation, with the splitter that has no footnote repairs
      and without the Kreditinstitut filter. */
  function NormalizeBackfill(h: Hit): Hit {
    h.(line := LabelOf(h.line), values := ValuesFor(h.line, h.values, false))
  }

  /** The filter keeps clean values clean and either leaves the list alone
      or cuts it to two. */
  lemma KreditKeepsClean(key: string, rawLine: string, vs: seq<string>)
    requires forall v | v in vs :: v != "" && Normalized(v)
    ensures var r := KreditValues(key, rawLine, vs);
      && (forall v | v in r :: v != "" && Normalized(v))
      && (r == vs || |r| == 2)
  {
    var f := Substantials(vs);
    if KreditSkuld(key, rawLine) && |vs| > 2 && |f| >= 2 {
      KeepIfWithin(vs, Substantial);
      forall v | v in f[|f| - 2..] ensures v in vs { assert v in f; }
    }
  }

  /** The key, index and origin of a hit survive normalisation; the new values
      are non-empty normalised strings and, unless the Kreditinstitut filter
      cut them down to two, exactly the values chosen for the line. */
  lemma NormalizeMatchedFacts(h: Hit)
    ensures var r := NormalizeMatched(h);
      && r.key == h.key && r.lineIndex == h.lineIndex && r.source == h.source
      && r.line == LabelOf(h.line)
      && (forall v | v in r.values :: v != "" && Normalized(v))
      && (r.values == ValuesFor(h.line, h.values, true) || |r.values| == 2)
  {
    ValuesForFacts(h.line, h.values, true);
    KreditKeepsClean(h.key, h.line, ValuesFor(h.line, h.values, true));
  }

  /** For a line without digits whose values are already a clean pair, the
      scraper's normalisation and the backfill copy agree. */
  lemma CopiesAgreeOnCleanPairs(h: Hit)
    requires !HasDigit(h.line) && CleanPair(Existing(h.values))
    ensures NormalizeMatched(h) == NormalizeBackfill(h)
    ensures NormalizeMatched(h).values == Existing(h.values)
  {
  }

  /** `normalizeMatchedArray(arr)`: every item normalised. */
  function NormalizeMatchedArray(hs: seq<Hit>): (r: seq<Hit>)
    ensures |r| == |hs|
  {
    MapEach(hs, NormalizeBackfill)
  }

  /** The batch copy keeps the length and order: item `i` of the result is
      item `i` of the input, normalised, with its key and index. */
  lemma NormalizeMatchedArrayAt(hs: seq<Hit>, i: nat)
    requires i < |hs|
    ensures NormalizeMatchedArray(hs)[i] == NormalizeBackfill(hs[i])
    ensures NormalizeMatchedArray(hs)[i].key == hs[i].key
    ensures NormalizeMatchedArray(hs)[i].lineIndex == hs[i].lineIndex
  {
    MapEachAt(hs, NormalizeBackfill, i);
  }

  // ---------------------------------------------------------------------------
  // Kreditinstitut debt lines

  predicate IsKreditSkuld(h: Hit) { KreditSkuld(h.key, h.line) }

  /** `kreditinstitutSkulderLines`: the normalised hits whose key is
      "kreditinstitut" and whose line mentions "skuld". */
  function SkulderLines(hs: seq<Hit>): seq<Hit> {
    KeepIf(hs, IsKreditSkuld)
  }

  /** The filter keeps exactly the Kreditinstitut debt lines, in order. */
  lemma SkulderLinesFacts(hs: seq<Hit>)
    ensures IsSubseqOf(SkulderLines(hs), hs)
    ensures forall x | x in hs :: IsKreditSkuld(x) <==> x in SkulderLines(hs)
    ensures forall x | x in SkulderLines(hs) :: IsKreditSkuld(x)
  {
    KeepIfFacts(hs, IsKreditSkuld);
  }

  // ---------------------------------------------------------------------------
  // Variant dedupe

  /** `keyOf(it)`: key, trimmed line and the values, joined with "|". */
  function KeyOf(h: Hit): string {
    h.key + "|" + Trim(h.line) + "|" + Join("|", h.values)
  }

  /** `/^(\d)\1 \d{3} \d{3}$/`: a first value whose leading digit is
      doubled, such as "44 990 429". */
  predicate DoubledLead(s: string) {
    |s| == 10 && IsDigit(s[0]) && s[1] == s[0] && s[2] == ' '
    && IsGroup3(s[3..6]) && s[6] == ' ' && IsGroup3(s[7..])
  }

  /** `hasCleanVariant(bad, second, all)`: `bad` has a doubled leading digit
      and some hit's values are the clean first value (`bad` without its
      first digit) and `second`. */
  predicate HasCleanVariant(bad: string, second: string, all: seq<Hit>) {
    DoubledLead(bad) && exists j | 0 <= j < |all| :: all[j].values == [bad[1..], second]
  }

  /** A hit the dedupe drops as the doubled-digit variant of a clean one. */
  predicate Shadowed(h: Hit, all: seq<Hit>) {
    |h.values| == 2 && HasCleanVariant(h.values[0], h.values[1], all)
  }

  /** The output after the first `n` hits of `all`. */
  function DedupeUpTo(all: seq<Hit>, n: nat): seq<Hit>
    requires n <= |all|
  {
    FirstByKey(all, n, KeyOf, (h: Hit) => Shadowed(h, all))
  }

  /** `dedupeKreditinstitutValueVariants(lines)`. */
  function DedupeVariants(lines: seq<Hit>): seq<Hit> {
    if |lines| < 2 then lines else DedupeUpTo(lines, |lines|)
  }

  /** A shadowed hit is dropped only in favour of a clean variant that the
      dedupe itself keeps: some hit whose values are the clean first value
      and the same second value has its key in the output. */
  lemma CleanVariantKept(all: seq<Hit>, x: Hit)
    requires x in all && Shadowed(x, all)
    ensures exists c | c in all ::
      (c.values == [x.values[0][1..], x.values[1]] && KeyOf(c) in KeysSeen(DedupeUpTo(all, |all|), KeyOf))
  {
    var j :| 0 <= j < |all| && all[j].values == [x.values[0][1..], x.values[1]];
    var c := all[j];
    assert !DoubledLead(c.values[0]);
    FirstByKeyFacts(all, |all|, KeyOf, (h: Hit) => Shadowed(h, all));
  }

  /** The `lines.length < 2` shortcut changes nothing: a single hit is never
      a shadowed variant of itself. */
  lemma ShortcutAgrees(lines: seq<Hit>)
    ensures DedupeVariants(lines) == DedupeUpTo(lines, |lines|)
  {
    if |lines| == 1 {
      var h := lines[0];
      assert !Shadowed(h, lines);
      assert KeysSeen([], KeyOf) == {};
      assert DedupeUpTo(lines, 0) == [];
      assert !((h: Hit) => Shadowed(h, lines))(h);
    }
  }

  /** The dedupe keeps the order of its input, never emits two hits with the
      same key|line|values, emits no shadowed variant, and drops a hit that
      is not shadowed only when its key was already emitted. */
  lemma DedupeVariantsFacts(lines: seq<Hit>)
    ensures var r := DedupeVariants(lines);
      && IsSubseqOf(r, lines)
      && (forall a, b | 0 <= a < b < |r| :: KeyOf(r[a]) != KeyOf(r[b]))
      && (forall x | x in r :: !Shadowed(x, lines))
      && (forall x | x in lines && !Shadowed(x, lines) :: KeyOf(x) in KeysSeen(r, KeyOf))
  {
    ShortcutAgrees(lines);
    FirstByKeyFacts(lines, |lines|, KeyOf, (h: Hit) => Shadowed(h, lines));
    assert lines[..|lines|] == lines;
  }

  /** One hit of the dedupe loop. */
  method DedupeStep(lines: seq<Hit>, i: nat, out: seq<Hit>, seen: set<string>) returns (out': seq<Hit>, seen': set<string>)
    requires i < |lines| && out == DedupeUpTo(lines, i) && seen == KeysSeen(out, KeyOf)
    ensures out' == DedupeUpTo(lines, i + 1) && seen' == KeysSeen(out', KeyOf)
  {
    out', seen' := out, seen;
    var it := lines[i];
    var v := it.values;
    var skip := false;
    if |v| == 2 && HasCleanVariant(v[0], v[1], lines) && DoubledLead(v[0]) {
      skip := true;
    }
    if !skip {
      var k := KeyOf(it);
      if k !in seen {
        KeysSeenSnoc(out, it, KeyOf);
        seen' := seen + {k};
        out' := out + [it];
      }
    }
  }

  /** The dedupe loop of src/scraper.js, with its `seen` set. */
  method DedupeKreditinstitutValueVariants(lines: seq<Hit>) returns (out: seq<Hit>)
    ensures out == DedupeVariants(lines)
  {
    if |lines| < 2 { return lines; }
    out := [];
    var seen: set<string> := {};
    var i := 0;
    while i < |lines|
      invariant i <= |lines|
      invariant out == DedupeUpTo(lines, i)
      invariant seen == KeysSeen(out, KeyOf)
    {
      out, seen := DedupeStep(lines, i, out, seen);
      i := i + 1;
    }
  }
}
