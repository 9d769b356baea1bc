/**
 * Money and label parsing of src/utils.js: whole-number amounts with a
 * sanity limit, header years, the label map, grouped money values in a line
 * and the pairing of a line's values with the header years.
 *
 * `normalizeSpaces` is `Strs.NormalizeText`: the non-breaking space is
 * itself in `\s`, so mapping it to a space first changes nothing.
 */
module Money {
  import opened Wrappers
  import opened Strs
  import opened Lists

  /** `config.sanityLimit` (src/config.js). */
  const SanityLimit: int := 5_000_000_000

  function Abs(v: int): nat { if v < 0 then -v else v }

  // ---------------------------------------------------------------------------
  // Decimal digits

  function DigitVal(c: char): nat
    requires IsDigit(c)
  {
    c as int - '0' as int
  }

  function DigitChar(d: nat): (c: char)
    requires d < 10
    ensures IsDigit(c) && DigitVal(c) == d
  {
    ('0' as int + d) as char
  }

  /** The value of a decimal digit string. */
  function Value(d: string): nat
    requires AllDigits(d)
  {
    if d == [] then 0 else Value(d[..|d| - 1]) * 10 + DigitVal(d[|d| - 1])
  }

  function Pow10(k: nat): (r: nat)
    ensures r >= 1
  {
    if k == 0 then 1 else 10 * Pow10(k - 1)
  }

  lemma AllDigitsAppend(a: string, b: string)
    requires AllDigits(a) && AllDigits(b)
    ensures AllDigits(a + b)
  {
    forall i | 0 <= i < |a + b| ensures IsDigit((a + b)[i]) {
      if i < |a| { assert (a + b)[i] == a[i]; } else { assert (a + b)[i] == b[i - |a|]; }
    }
  }

  lemma ShiftDigit(x: int, p: int, v: int, d: int)
    ensures (x * p + v) * 10 + d == x * (p * 10) + (v * 10 + d)
  {
  }

  lemma {:induction false} ValueAppend(a: string, b: string)
    requires AllDigits(a) && AllDigits(b)
    ensures AllDigits(a + b)
    ensures Value(a + b) == Value(a) * Pow10(|b|) + Value(b)
    decreases |b|
  {
    AllDigitsAppend(a, b);
    if b == [] {
      assert a + b == a;
    } else {
      var b0 := b[..|b| - 1];
      var d := DigitVal(b[|b| - 1]);
      assert (a + b)[..|a + b| - 1] == a + b0;
      assert (a + b)[|a + b| - 1] == b[|b| - 1];
      ValueAppend(a, b0);
      assert Value(a + b) == Value(a + b0) * 10 + d;
      ShiftDigit(Value(a), Pow10(|b0|), Value(b0), d);
    }
  }

  /** `String(n)` for a natural number. */
  function Dec(n: nat): (r: string)
    ensures r != [] && AllDigits(r)
  {
    if n < 10 then [DigitChar(n)] else Dec(n / 10) + [DigitChar(n % 10)]
  }

  /** The decimal string of `n` reads back as `n`. */
  lemma {:induction false} DecValue(n: nat)
    ensures Value(Dec(n)) == n
  {
    if n >= 10 {
      DecValue(n / 10);
      var d := Dec(n);
      assert d[..|d| - 1] == Dec(n / 10);
    }
  }

  /** Three digits with leading zeros. */
  function Pad3(x: nat): (r: string)
    requires x < 1000
    ensures |r| == 3 && AllDigits(r)
  {
    [DigitChar(x / 100), DigitChar(x / 10 % 10), DigitChar(x % 10)]
  }

  lemma Pad3Value(x: nat)
    requires x < 1000
    ensures Value(Pad3(x)) == x
  {
    var p := Pad3(x);
    assert p[..2][..1] == p[..1];
    assert Value(p[..1]) == x / 100;
    assert Value(p[..2]) == (x / 100) * 10 + x / 10 % 10;
  }

  /** `n` written with a space between groups of three, as the annual
      reports print it ("22 875 000"). */
  function Grouped(n: nat): (r: string)
    ensures r != []
  {
    if n < 1000 then Dec(n) else Grouped(n / 1000) + " " + Pad3(n % 1000)
  }

  // ---------------------------------------------------------------------------
  // parseMoneyStringToInt

  /** A character `replace(/[^\d\s-]/g, "")` keeps. */
  predicate IsMoneyChar(c: char) { IsDigit(c) || IsWs(c) || c == '-' }

  function KeepMoneyChars(s: string): (r: string)
  {
    if s == [] then [] else (if IsMoneyChar(s[0]) then [s[0]] else []) + KeepMoneyChars(s[1..])
  }

  /** The digits and minus signs of `s`, in order. */
  function DigitsAndDashes(s: string): (r: string)
  {
    if s == [] then [] else (if IsDigit(s[0]) || s[0] == '-' then [s[0]] else []) + DigitsAndDashes(s[1..])
  }

  /** The longest all-digit prefix. */
  function LeadingDigits(s: string): (r: string)
    ensures AllDigits(r) && |r| <= |s| && r == s[..|r|]
  {
    if s != [] && IsDigit(s[0]) then [s[0]] + LeadingDigits(s[1..]) else []
  }

  /** `parseInt(t, 10)` on a string without leading whitespace: an optional
      sign, then the leading digits; no digit gives NaN (`None`). */
  function ParseInt(t: string): Option<int> {
    var neg := t != [] && t[0] == '-';
    var rest := if t != [] && (t[0] == '-' || t[0] == '+') then t[1..] else t;
    var d := LeadingDigits(rest);
    if d == [] then None else Some(if neg then -(Value(d) as int) else Value(d))
  }

  /** `parseMoneyStringToInt(raw)`. */
  function ParseMoney(raw: string): Option<int> {
    if raw == "" then None
    else
      var s := KeepMoneyChars(NormalizeText(raw));
      if s == "" then None
      else
        match ParseInt(NonWs(s))
        case None => None
        case Some(v) => if Abs(v) > SanityLimit then None else Some(v)
  }

  lemma {:induction false} DigitsAndDashesAppend(a: string, b: string)
    ensures DigitsAndDashes(a + b) == DigitsAndDashes(a) + DigitsAndDashes(b)
  {
    if a != [] {
      assert (a + b)[1..] == a[1..] + b;
      DigitsAndDashesAppend(a[1..], b);
    } else {
      assert a + b == b;
    }
  }

  lemma {:induction false} DigitsAndDashesOfNonWs(s: string)
    ensures DigitsAndDashes(NonWs(s)) == DigitsAndDashes(s)
  {
    if s != [] {
      DigitsAndDashesOfNonWs(s[1..]);
      var h := if IsWs(s[0]) then [] else [s[0]];
      DigitsAndDashesAppend(h, NonWs(s[1..]));
    }
  }

  /** Dropping the whitespace of the kept characters leaves the digits and
      minus signs. */
  lemma {:induction false} CompactOfKept(s: string)
    ensures NonWs(KeepMoneyChars(s)) == DigitsAndDashes(s)
  {
    if s != [] {
      CompactOfKept(s[1..]);
      var h := if IsMoneyChar(s[0]) then [s[0]] else [];
      NonWsAppend(h, KeepMoneyChars(s[1..]));
    }
  }

  /** What `parseMoneyStringToInt` reads: the digits and minus signs of the
      input, in order, with everything else (spaces, currency, letters)
      ignored; the value is kept only within the sanity limit. */
  lemma ParseMoneyCompact(raw: string)
    ensures ParseMoney(raw) ==
      match ParseInt(DigitsAndDashes(raw))
      case None => None
      case Some(v) => if Abs(v) > SanityLimit then None else Some(v)
  {
    var n := NormalizeText(raw);
    CompactOfKept(n);
    NormalizeKeepsNonWs(raw);
    DigitsAndDashesOfNonWs(n);
    DigitsAndDashesOfNonWs(raw);
    if KeepMoneyChars(n) == "" {
      assert NonWs(KeepMoneyChars(n)) == "";
    }
  }

  lemma {:induction false} NoDigitNoDigitsAndDashesDigit(s: string)
    requires !HasDigit(s)
    ensures forall i | 0 <= i < |DigitsAndDashes(s)| :: DigitsAndDashes(s)[i] == '-'
  {
    if s != [] {
      assert !HasDigit(s[1..]) by {
        forall i | 0 <= i < |s[1..]| ensures !IsDigit(s[1..][i]) { assert s[1..][i] == s[i + 1]; }
      }
      NoDigitNoDigitsAndDashesDigit(s[1..]);
      assert !IsDigit(s[0]);
    }
  }

  /** A parsed amount comes from an input with a digit and lies within the
      sanity limit. */
  lemma ParseMoneyBounds(raw: string)
    ensures ParseMoney(raw).Some? ==> HasDigit(raw) && Abs(ParseMoney(raw).value) <= SanityLimit
  {
    ParseMoneyCompact(raw);
    if !HasDigit(raw) {
      var t := DigitsAndDashes(raw);
      NoDigitNoDigitsAndDashesDigit(raw);
      assert ParseInt(t) == None by {
        if |t| > 1 { assert t[1] == '-'; }
      }
    }
  }

  lemma {:induction false} DigitsAndDashesOfDigits(d: string)
    requires AllDigits(d)
    ensures DigitsAndDashes(d) == d
  {
    if d != [] { DigitsAndDashesOfDigits(d[1..]); }
  }

  /** The digits and minus signs of a grouped amount are its decimal digits,
      whose value is the amount. */
  lemma {:induction false} GroupedDigits(n: nat)
    ensures AllDigits(DigitsAndDashes(Grouped(n)))
    ensures DigitsAndDashes(Grouped(n)) != []
    ensures Value(DigitsAndDashes(Grouped(n))) == n
  {
    if n < 1000 {
      DigitsAndDashesOfDigits(Dec(n));
      DecValue(n);
    } else {
      var g := Grouped(n / 1000);
      var p := Pad3(n % 1000);
      var dg := DigitsAndDashes(g);
      GroupedDigits(n / 1000);
      assert DigitsAndDashes(Grouped(n)) == dg + p by {
        DigitsAndDashesAppend(g + " ", p);
        DigitsAndDashesAppend(g, " ");
        DigitsAndDashesOfDigits(p);
        assert DigitsAndDashes(" ") == "";
      }
      assert Value(dg + p) == Value(dg) * 1000 + n % 1000 by {
        ValueAppend(dg, p);
        Pad3Value(n % 1000);
        assert Pow10(3) == 1000;
      }
    }
  }

  lemma {:induction false} LeadingDigitsOfDigits(d: string)
    requires AllDigits(d)
    ensures LeadingDigits(d) == d
  {
    if d != [] { LeadingDigitsOfDigits(d[1..]); }
  }

  /** `parseInt` reads a digit string, with or without a minus sign, as its
      value. */
  lemma ParseDigits(d: string)
    requires AllDigits(d) && d != []
    ensures ParseInt(d) == Some(Value(d))
    ensures ParseInt("-" + d) == Some(-(Value(d) as int))
  {
    LeadingDigitsOfDigits(d);
    assert IsDigit(d[0]);
    assert ("-" + d)[1..] == d;
  }

  /** The minus sign survives in front of the digits. */
  lemma DashDigitsAndDashes(g: string)
    ensures DigitsAndDashes("-" + g) == "-" + DigitsAndDashes(g)
  {
    DigitsAndDashesAppend("-", g);
    assert DigitsAndDashes("-") == "-";
  }

  /** Round trip: an amount written in groups of three, with or without a
      minus sign, parses back to itself exactly when it is within the sanity
      limit. */
  lemma ParseGrouped(n: nat)
    ensures ParseMoney(Grouped(n)) == if n <= SanityLimit then Some(n) else None
    ensures ParseMoney("-" + Grouped(n)) == if n <= SanityLimit then Some(-(n as int)) else None
  {
    var g := Grouped(n);
    var d := DigitsAndDashes(g);
    GroupedDigits(n);
    ParseDigits(d);
    assert ParseMoney(g) == if n <= SanityLimit then Some(n) else None by {
      ParseMoneyCompact(g);
    }
    assert ParseMoney("-" + g) == if n <= SanityLimit then Some(-(n as int)) else None by {
      ParseMoneyCompact("-" + g);
      DashDigitsAndDashes(g);
    }
  }

  /** "22 875 000" reads as 22875000. */
  lemma ParseExample()
    ensures ParseMoney("22 875 000") == Some(22875000)
  {
    assert Pad3(0) == "000";
    assert Pad3(875) == "875";
    assert Dec(22) == "22" by { assert Dec(2) == "2"; }
    assert Grouped(22875) == "22 875";
    assert Grouped(22875000) == "22 875 000";
    ParseGrouped(22875000);
  }

  // ---------------------------------------------------------------------------
  // extractYearsFromHeaderText

  /** JavaScript's `\w`. */
  predicate IsWordChar(c: char) {
    ('a' <= c <= 'z') || ('A' <= c <= 'Z') || IsDigit(c) || c == '_'
  }

  /** `/\b(20[0-3]\d)\b/` matches at `i`. */
  predicate YearAt(s: string, i: nat) {
    && i + 4 <= |s|
    && s[i] == '2' && s[i + 1] == '0' && '0' <= s[i + 2] <= '3' && IsDigit(s[i + 3])
    && (i == 0 || !IsWordChar(s[i - 1]))
    && (i + 4 == |s| || !IsWordChar(s[i + 4]))
  }

  function YearValue(s: string, i: nat): int
    requires YearAt(s, i)
  {
    2000 + 10 * DigitVal(s[i + 2]) + DigitVal(s[i + 3])
  }

  /** The `matchAll` scan from `i`: after a match it resumes behind it. */
  function YearsFrom(s: string, i: nat): seq<int>
    decreases |s| - i
  {
    if i + 4 > |s| then []
    else if YearAt(s, i) then [YearValue(s, i)] + YearsFrom(s, i + 4)
    else YearsFrom(s, i + 1)
  }

  /** `extractYearsFromHeaderText(text)`. */
  function ExtractYears(text: string): Option<seq<int>> {
    var u := Unique(YearsFrom(NormalizeText(text), 0));
    if |u| >= 2 then Some(u) else None
  }

  /** Two matches never overlap: the character before a match is not a
      digit. */
  lemma YearsApart(s: string, i: nat, k: nat)
    requires YearAt(s, i) && i < k < i + 4
    ensures !YearAt(s, k)
  {
    assert IsDigit(s[k - 1]);
  }

  /** The scan from `i` finds exactly the years that occur as whole words at
      or after `i`. */
  lemma {:induction false} YearsFromFacts(s: string, i: nat)
    ensures forall y | y in YearsFrom(s, i) :: 2000 <= y <= 2039
    ensures forall y :: y in YearsFrom(s, i) <==> exists k | i <= k && YearAt(s, k) :: YearValue(s, k) == y
    decreases |s| - i
  {
    if i + 4 <= |s| {
      if YearAt(s, i) {
        YearsFromFacts(s, i + 4);
        forall k | i < k < i + 4 ensures !YearAt(s, k) { YearsApart(s, i, k); }
      } else {
        YearsFromFacts(s, i + 1);
      }
      forall y ensures y in YearsFrom(s, i) <== exists k | i <= k && YearAt(s, k) :: YearValue(s, k) == y {
        if exists k | i <= k && YearAt(s, k) :: YearValue(s, k) == y {
          var k :| i <= k && YearAt(s, k) && YearValue(s, k) == y;
          if k == i { assert YearAt(s, i); }
        }
      }
    } else {
      forall k | i <= k ensures !YearAt(s, k) { }
    }
  }

  /** The header years are the distinct whole-word years 2000–2039 of the
      normalised text, each once in first-seen order; fewer than two give
      `None`. */
  lemma ExtractYearsFacts(text: string)
    ensures var s := NormalizeText(text);
      match ExtractYears(text)
      case None => |Unique(YearsFrom(s, 0))| < 2
      case Some(ys) =>
        && |ys| >= 2
        && (forall a, b | 0 <= a < b < |ys| :: ys[a] != ys[b])
        && (forall y | y in ys :: 2000 <= y <= 2039)
        && (forall y :: y in ys <==> exists k | YearAt(s, k) :: YearValue(s, k) == y)
  {
    var s := NormalizeText(text);
    YearsFromFacts(s, 0);
    UniqueFacts(YearsFrom(s, 0));
  }

  // ---------------------------------------------------------------------------
  // normalizeLabel

  /** One entry of `config.labelMap`: a case-insensitive prefix pattern and
      its label. */
  datatype LabelRule = LabelRule(prefix: string, name: string)

  /** `config.labelMap` (src/config.js). */
  function LabelMap(): seq<LabelRule> {
    [ LabelRule("kortfristiga skulder", "Summa Kortfristiga Skulder"),
      LabelRule("långfristiga skulder", "Summa Långfristiga Skulder") ]
  }

  predicate RuleMatches(s: string, rule: LabelRule) { MatchesAtCI(s, rule.prefix, 0) }

  /** The label of the first rule whose pattern matches. */
  function FirstLabel(s: string, rules: seq<LabelRule>): Option<string> {
    if rules == [] then None
    else if RuleMatches(s, rules[0]) then Some(rules[0].name)
    else FirstLabel(s, rules[1..])
  }

  /** `normalizeLabel(rawLabel)`, over a given label map. */
  function NormalizeLabel(raw: string, rules: seq<LabelRule>): Option<string> {
    FirstLabel(Lower(NormalizeText(raw)), rules)
  }

  /** The result is the label of the first matching rule, and `None` exactly
      when no rule matches. */
  lemma {:induction false} FirstLabelFacts(s: string, rules: seq<LabelRule>)
    ensures FirstLabel(s, rules).None? <==> forall i | 0 <= i < |rules| :: !RuleMatches(s, rules[i])
    ensures FirstLabel(s, rules).Some? ==>
      exists i | 0 <= i < |rules| :: rules[i].name == FirstLabel(s, rules).value && RuleMatches(s, rules[i])
        && forall j | 0 <= j < i :: !RuleMatches(s, rules[j])
  {
    if rules != [] && !RuleMatches(s, rules[0]) {
      FirstLabelFacts(s, rules[1..]);
      if FirstLabel(s, rules).Some? {
        var i :| 0 <= i < |rules[1..]| && rules[1..][i].name == FirstLabel(s, rules).value
          && RuleMatches(s, rules[1..][i]) && forall j | 0 <= j < i :: !RuleMatches(s, rules[1..][j]);
        assert rules[i + 1] == rules[1..][i];
        forall j | 0 <= j < i + 1 ensures !RuleMatches(s, rules[j]) {
          if j > 0 { assert rules[j] == rules[1..][j - 1]; }
        }
      } else {
        forall i | 0 <= i < |rules| ensures !RuleMatches(s, rules[i]) {
          if i > 0 { assert rules[i] == rules[1..][i - 1]; }
        }
      }
    }
  }

  /** The label does not depend on letter case or spacing: it is the first
      rule whose prefix starts the normalised text, ignoring case. */
  lemma NormalizeLabelIgnoresCase(raw: string, rules: seq<LabelRule>)
    ensures NormalizeLabel(raw, rules) == FirstLabel(NormalizeText(raw), rules)
    decreases |rules|
  {
    var s := NormalizeText(raw);
    if rules != [] {
      LowerMatches(s, rules[0].prefix, 0);
      NormalizeLabelIgnoresCase(raw, rules[1..]);
    }
  }

  // ---------------------------------------------------------------------------
  // extractMoneyGroups

  /** Where `\d{1,3}` ends when it starts at `p` (greedy). */
  function LeadEnd(s: string, p: nat): (q: nat)
    ensures p <= q <= p + 3 && (q == p || q <= |s|)
  {
    if p < |s| && IsDigit(s[p]) then
      if p + 1 < |s| && IsDigit(s[p + 1]) then
        if p + 2 < |s| && IsDigit(s[p + 2]) then p + 3 else p + 2
      else p + 1
    else p
  }

  /** `\s\d{3}` at `q`. */
  predicate GroupAt(s: string, q: nat) {
    q + 4 <= |s| && IsWs(s[q]) && IsDigit(s[q + 1]) && IsDigit(s[q + 2]) && IsDigit(s[q + 3])
  }

  /** Where `(?:\s\d{3})*` ends when it starts at `q` (greedy). */
  function GroupsEnd(s: string, q: nat): (e: nat)
    ensures q <= e && (e == q || e <= |s|)
    decreases |s| - q
  {
    if GroupAt(s, q) then GroupsEnd(s, q + 4) else q
  }

  /** `/-?\d{1,3}(?:\s\d{3})+/` tried at `i`: the end of the match. Taking
      fewer lead digits never helps, since a digit then follows them. */
  function MoneyMatchAt(s: string, i: nat): Option<nat> {
    var p := if i < |s| && s[i] == '-' then i + 1 else i;
    var q := LeadEnd(s, p);
    if q > p && GroupAt(s, q) then Some(GroupsEnd(s, q)) else None
  }

  lemma MoneyMatchAfter(s: string, i: nat)
    requires MoneyMatchAt(s, i).Some?
    ensures i < MoneyMatchAt(s, i).value <= |s|
  {
    var p := if i < |s| && s[i] == '-' then i + 1 else i;
    var q := LeadEnd(s, p);
    GroupsEndBound(s, q);
  }

  lemma {:induction false} GroupsEndBound(s: string, q: nat)
    requires GroupAt(s, q)
    ensures q + 4 <= GroupsEnd(s, q) <= |s|
    decreases |s| - q
  {
    if GroupAt(s, q + 4) { GroupsEndBound(s, q + 4); }
  }

  /** The `matchAll` scan from `i`. */
  function MoneyRuns(s: string, i: nat): seq<string>
    decreases |s| - i
  {
    if i >= |s| then []
    else
      match MoneyMatchAt(s, i)
      case Some(e) =>
        MoneyMatchAfter(s, i);
        [s[i..e]] + MoneyRuns(s, e)
      case None => MoneyRuns(s, i + 1)
  }

  /** The values of the runs that `parseMoneyStringToInt` accepts. */
  function ParsedValues(ms: seq<string>): seq<int> {
    if ms == [] then []
    else
      ParsedValues(ms[..|ms| - 1]) +
        match ParseMoney(ms[|ms| - 1])
        case Some(v) => [v]
        case None => []
  }

  /** `extractMoneyGroups(line)`. */
  function MoneyGroups(line: string): seq<int> {
    ParsedValues(MoneyRuns(NormalizeText(line), 0))
  }

  /** The shape the regular expression accepts: an optional minus, one to
      three digits, then one or more groups of a whitespace character and
      three digits. */
  predicate GroupedShape(g: string)
    decreases |g|
  {
    && |g| >= 5 && IsWs(g[|g| - 4]) && AllDigits(g[|g| - 3..])
    && (var h := g[..|g| - 4]; (1 <= |h| <= 3 && AllDigits(h)) || GroupedShape(h))
  }

  predicate MoneyShape(m: string) {
    GroupedShape(m) || (m != [] && m[0] == '-' && GroupedShape(m[1..]))
  }

  lemma {:induction false} GroupsShape(s: string, start: nat, q: nat)
    requires start < q <= |s| && GroupAt(s, q)
    requires (1 <= q - start <= 3 && AllDigits(s[start..q])) || GroupedShape(s[start..q])
    ensures GroupedShape(s[start..GroupsEnd(s, q)])
    decreases |s| - q
  {
    var g := s[start..q + 4];
    assert g[..|g| - 4] == s[start..q];
    assert g[|g| - 3..] == s[q + 1..q + 4];
    assert GroupedShape(g);
    if GroupAt(s, q + 4) {
      GroupsShape(s, start, q + 4);
    }
  }

  /** Every run the scan reads has the money shape. */
  lemma {:induction false} MoneyRunsShape(s: string, i: nat)
    ensures forall m | m in MoneyRuns(s, i) :: MoneyShape(m)
    decreases |s| - i
  {
    if i < |s| {
      match MoneyMatchAt(s, i)
      case Some(e) =>
        MoneyMatchAfter(s, i);
        MoneyRunsShape(s, e);
        var p := if s[i] == '-' then i + 1 else i;
        var q := LeadEnd(s, p);
        assert AllDigits(s[p..q]);
        GroupsShape(s, p, q);
        if s[i] == '-' {
          assert s[i..e][1..] == s[p..e];
        }
      case None =>
        MoneyRunsShape(s, i + 1);
    }
  }

  lemma {:induction false} DigitsAndDashesOfGrouped(g: string)
    requires GroupedShape(g)
    ensures DigitsAndDashes(g) == Digits(g) && Digits(g) != [] && AllDigits(Digits(g))
    decreases |g|
  {
    var h := g[..|g| - 4];
    var t := g[|g| - 4..];
    assert g == h + t;
    DigitsAndDashesAppend(h, t);
    DigitsAppend(h, t);
    assert t == [g[|g| - 4]] + g[|g| - 3..];
    DigitsAndDashesAppend([g[|g| - 4]], g[|g| - 3..]);
    DigitsAppend([g[|g| - 4]], g[|g| - 3..]);
    DigitsAndDashesOfDigits(g[|g| - 3..]);
    DigitsOfDigitString(g[|g| - 3..]);
    assert !IsDigit(g[|g| - 4]) && g[|g| - 4] != '-';
    if 1 <= |h| <= 3 && AllDigits(h) {
      DigitsAndDashesOfDigits(h);
      DigitsOfDigitString(h);
    } else {
      DigitsAndDashesOfGrouped(h);
    }
  }

  /** The signed value of a money-shaped run: its digits, negated after a
      minus sign. */
  function RunValue(m: string): int
    requires MoneyShape(m)
  {
    var neg := !GroupedShape(m);
    var d := Digits(m);
    if neg then -(Value(Digits(m[1..])) as int) else Value(d)
  }

  /** A run is parsed to its signed value when that lies within the sanity
      limit, and dropped otherwise. */
  lemma ParseRun(m: string)
    requires MoneyShape(m)
    ensures ParseMoney(m) == if Abs(RunValue(m)) <= SanityLimit then Some(RunValue(m)) else None
  {
    ParseMoneyCompact(m);
    RunDigitsParse(m);
  }

  /** The digits and minus signs of a money-shaped run read as its value. */
  lemma RunDigitsParse(m: string)
    requires MoneyShape(m)
    ensures ParseInt(DigitsAndDashes(m)) == Some(RunValue(m))
  {
    if GroupedShape(m) {
      DigitsAndDashesOfGrouped(m);
      ParseDigits(Digits(m));
    } else {
      var g := m[1..];
      DigitsAndDashesOfGrouped(g);
      assert m == "-" + g;
      DashDigitsAndDashes(g);
      ParseDigits(Digits(g));
    }
  }

  /** Every extracted value lies within the sanity limit. */
  lemma {:induction false} ParsedValuesBound(ms: seq<string>)
    ensures forall v | v in ParsedValues(ms) :: Abs(v) <= SanityLimit
  {
    if ms != [] {
      ParsedValuesBound(ms[..|ms| - 1]);
      ParseMoneyBounds(ms[|ms| - 1]);
    }
  }

  /** The values of a line are those of its grouped runs, each read as its
      signed digits, dropping any beyond the sanity limit. */
  lemma {:induction false} ParsedRuns(ms: seq<string>)
    requires forall m | m in ms :: MoneyShape(m)
    ensures ParsedValues(ms) == RunValues(ms)
  {
    if ms != [] {
      ParsedRuns(ms[..|ms| - 1]);
      ParseRun(ms[|ms| - 1]);
    }
  }

  /** The signed values of money-shaped runs within the sanity limit. */
  function RunValues(ms: seq<string>): seq<int>
    requires forall m | m in ms :: MoneyShape(m)
  {
    if ms == [] then []
    else
      var m := ms[|ms| - 1];
      RunValues(ms[..|ms| - 1]) + (if Abs(RunValue(m)) <= SanityLimit then [RunValue(m)] else [])
  }

  /** `extractMoneyGroups` reads only runs of one to three digits followed
      by groups of three, and yields their signed values within the sanity
      limit. */
  lemma MoneyGroupsFacts(line: string)
    ensures var ms := MoneyRuns(NormalizeText(line), 0);
      && (forall m | m in ms :: MoneyShape(m))
      && MoneyGroups(line) == RunValues(ms)
      && (forall v | v in MoneyGroups(line) :: Abs(v) <= SanityLimit)
  {
    var ms := MoneyRuns(NormalizeText(line), 0);
    MoneyRunsShape(NormalizeText(line), 0);
    ParsedRuns(ms);
    ParsedValuesBound(ms);
  }

  // ---------------------------------------------------------------------------
  // parseLineFromText

  datatype YearAmount = YearAmount(year: int, value: int)

  /** `{ label, raw_line, data }`. */
  datatype ParsedLine = ParsedLine(name: string, rawLine: string, data: seq<YearAmount>)

  /** `/avskrivningar|resultat före skatt/i`. */
  predicate Excluded(raw: string) {
    ContainsCI(raw, "avskrivningar") || ContainsCI(raw, "resultat före skatt")
  }

  /** `parseLineFromText(line, yearContext)`; an absent year context is the
      empty one. */
  function ParseLineFromText(line: string, years: seq<int>): Option<ParsedLine> {
    var raw := NormalizeText(line);
    if raw == "" then None
    else
      match NormalizeLabel(raw, LabelMap())
      case None => None
      case Some(name) =>
        if Excluded(raw) || |years| < 2 then None
        else
          var values := MoneyGroups(raw);
          if values == [] then None
          else
            var mapped := if |values| > |years| then values[|values| - |years|..] else values;
            if |mapped| != |years| then None
            else Some(ParsedLine(name, raw, seq(|years|, i requires 0 <= i < |years| => YearAmount(years[i], mapped[i]))))
  }

  /** A line is parsed exactly when it has a mapped label, is not a
      depreciation or pre-tax-result line, there are at least two years and
      at least as many values; year `i` is then paired with the `i`-th of the
      last `|years|` values. */
  lemma ParseLineFacts(line: string, years: seq<int>)
    ensures var raw := NormalizeText(line);
      var vs := MoneyGroups(raw);
      var r := ParseLineFromText(line, years);
      && (r.Some? <==>
            raw != "" && NormalizeLabel(raw, LabelMap()).Some? && !Excluded(raw)
            && |years| >= 2 && |vs| >= |years|)
      && (r.Some? ==>
            && r.value.name == NormalizeLabel(raw, LabelMap()).value
            && r.value.rawLine == raw
            && |r.value.data| == |years|
            && forall i | 0 <= i < |years| ::
                 r.value.data[i] == YearAmount(years[i], vs[|vs| - |years| + i]))
  {
    var raw := NormalizeText(line);
    var vs := MoneyGroups(raw);
    if raw != "" && NormalizeLabel(raw, LabelMap()).Some? && !Excluded(raw) && |years| >= 2 && vs != [] {
      var mapped := if |vs| > |years| then vs[|vs| - |years|..] else vs;
      assert |mapped| == |years| <==> |vs| >= |years|;
    }
  }

  /** The label of a parsed line is one of the label map's labels, and every
      paired value lies within the sanity limit. */
  lemma ParseLineLabelAndBounds(line: string, years: seq<int>)
    ensures var r := ParseLineFromText(line, years);
      r.Some? ==>
        && (exists i | 0 <= i < |LabelMap()| :: LabelMap()[i].name == r.value.name)
        && forall i | 0 <= i < |r.value.data| :: Abs(r.value.data[i].value) <= SanityLimit
  {
    ParsedLabelKnown(line, years);
    ParsedValuesBounded(line, years);
  }

  lemma ParsedLabelKnown(line: string, years: seq<int>)
    ensures var r := ParseLineFromText(line, years);
      r.Some? ==> exists i | 0 <= i < |LabelMap()| :: LabelMap()[i].name == r.value.name
  {
    var raw := NormalizeText(line);
    if ParseLineFromText(line, years).Some? {
      ParseLineFacts(line, years);
      FirstLabelFacts(Lower(NormalizeText(raw)), LabelMap());
    }
  }

  lemma ParsedValuesBounded(line: string, years: seq<int>)
    ensures var r := ParseLineFromText(line, years);
      r.Some? ==> forall i | 0 <= i < |r.value.data| :: Abs(r.value.data[i].value) <= SanityLimit
  {
    var raw := NormalizeText(line);
    var r := ParseLineFromText(line, years);
    if r.Some? {
      ParseLineFacts(line, years);
      MoneyGroupsFacts(raw);
      var vs := MoneyGroups(raw);
      forall i | 0 <= i < |r.value.data| ensures Abs(r.value.data[i].value) <= SanityLimit {
        assert vs[|vs| - |years| + i] in vs;
      }
    }
  }
}
