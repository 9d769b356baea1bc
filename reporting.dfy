/**
 * The reporting helpers of src/processor.js: `canonicalKey`, which turns a
 * keyword into a column-name fragment, and `extractNumericTokens`, which
 * pulls the numbers out of a matched line (src/wide_report.js has the same
 * two, character for character), the two join helpers that flatten
 * keyword and line arrays into CSV cells, `pickLatestNonNull`, and the
 * winner-takes-all table `upsertBest`.
 */
module Reporting {
  import opened Wrappers
  import opened Strs
  import opened Lists
  import opened Sorting
  import Selection
  import Money

  // ---------------------------------------------------------------------------
  // canonicalKey

  /** `[0-9A-Za-zÅÄÖåäö]`. */
  predicate IsKeyChar(c: char) {
    IsDigit(c) || ('A' <= c <= 'Z') || ('a' <= c <= 'z')
    || c == 'Å' || c == 'Ä' || c == 'Ö' || c == 'å' || c == 'ä' || c == 'ö'
  }

  /** `replace(/[^0-9A-Za-zÅÄÖåäö]/g, "")`. */
  function KeepKeyChars(s: string): (r: string)
    ensures |r| <= |s|
  {
    if s == [] then [] else (if IsKeyChar(s[0]) then [s[0]] else []) + KeepKeyChars(s[1..])
  }

  /** `canonicalKey`: trim, delete whitespace, delete every character outside
      the key alphabet. */
  function CanonicalKey(s: string): string {
    KeepKeyChars(NonWs(Trim(s)))
  }

  predicate KeyChars(s: string) { forall j | 0 <= j < |s| :: IsKeyChar(s[j]) }

  lemma {:induction false} KeepKeyCharsFacts(s: string)
    ensures KeyChars(KeepKeyChars(s))
    ensures KeyChars(s) ==> KeepKeyChars(s) == s
  {
    if s != [] { KeepKeyCharsFacts(s[1..]); }
  }

  /** Deleting whitespace first changes nothing: no key character is
      whitespace. */
  lemma {:induction false} KeepKeyCharsOfNonWs(s: string)
    ensures KeepKeyChars(NonWs(s)) == KeepKeyChars(s)
  {
    if s != [] {
      KeepKeyCharsOfNonWs(s[1..]);
      var head := if IsWs(s[0]) then [] else [s[0]];
      assert NonWs(s) == head + NonWs(s[1..]);
      KeepKeyCharsAppend(head, NonWs(s[1..]));
    }
  }

  lemma {:induction false} KeepKeyCharsAppend(a: string, b: string)
    ensures KeepKeyChars(a + b) == KeepKeyChars(a) + KeepKeyChars(b)
  {
    if a != [] {
      assert (a + b)[1..] == a[1..] + b;
      KeepKeyCharsAppend(a[1..], b);
    } else {
      assert a + b == b;
    }
  }

  /** The canonical key is exactly the key characters of the input, in order:
      trimming and deleting whitespace are subsumed. It therefore consists of
      key characters only, and canonicalising twice gives the same key. */
  lemma CanonicalKeyFacts(s: string)
    ensures CanonicalKey(s) == KeepKeyChars(s)
    ensures KeyChars(CanonicalKey(s))
    ensures CanonicalKey(CanonicalKey(s)) == CanonicalKey(s)
  {
    KeepKeyCharsOfNonWs(Trim(s));
    KeepKeyCharsOfNonWs(s);
    TrimKeepsNonWs(s);
    KeepKeyCharsFacts(s);
    KeepKeyCharsFacts(KeepKeyChars(s));
    var k := KeepKeyChars(s);
    KeepKeyCharsOfNonWs(Trim(k));
    KeepKeyCharsOfNonWs(k);
    TrimKeepsNonWs(k);
  }

  // ---------------------------------------------------------------------------
  // extractNumericTokens

  /** `replace(/\u00A0/g, " ")`. */
  function NbspToSpace(s: string): (r: string)
    ensures |r| == |s|
    ensures forall j {:trigger r[j]} | 0 <= j < |s| :: r[j] == (if s[j] == '\U{00A0}' then ' ' else s[j])
  {
    if s == [] then [] else [if s[0] == '\U{00A0}' then ' ' else s[0]] + NbspToSpace(s[1..])
  }

  /** The end of the digit run starting at `p`. */
  function DigitRunEnd(s: string, p: nat): (e: nat)
    requires p <= |s|
    ensures p <= e <= |s|
    ensures forall j | p <= j < e :: IsDigit(s[j])
    ensures e == |s| || !IsDigit(s[e])
    decreases |s| - p
  {
    if p < |s| && IsDigit(s[p]) then DigitRunEnd(s, p + 1) else p
  }

  /** `[ \u00A0.]`. */
  predicate IsGroupSep(c: char) { c == ' ' || c == '\U{00A0}' || c == '.' }

  /** `[ \u00A0.]\d{3}` at `q`. */
  predicate GroupAt(s: string, q: nat) {
    q + 4 <= |s| && IsGroupSep(s[q]) && IsDigit(s[q + 1]) && IsDigit(s[q + 2]) && IsDigit(s[q + 3])
  }

  /** The greedy `(?:[ \u00A0.]\d{3})*` from `q`. */
  function GroupsEnd(s: string, q: nat): (e: nat)
    requires q <= |s|
    ensures q <= e <= |s|
    decreases |s| - q
  {
    if GroupAt(s, q) then GroupsEnd(s, q + 4) else q
  }

  /** The optional, greedy `(?:[.,]\d+)?` from `q`. */
  function FractionEnd(s: string, q: nat): (e: nat)
    requires q <= |s|
    ensures q <= e <= |s|
  {
    if q + 1 < |s| && (s[q] == '.' || s[q] == ',') && IsDigit(s[q + 1]) then DigitRunEnd(s, q + 1) else q
  }

  /** After the optional `-`. */
  function SignEnd(s: string, i: nat): (p: nat)
    requires i <= |s|
    ensures i <= p <= |s|
  {
    if i < |s| && s[i] == '-' then i + 1 else i
  }

  /** The end of the match of
      `-?\d{1,4}(?:[ \u00A0.]\d{3})+(?:[.,]\d+)?|-?\d+(?:[.,]\d+)?` that
      starts at `i`, if there is one. The grouped alternative needs the whole
      leading digit run to be one to four digits long: a shorter lead would
      leave a digit where a separator must follow. When it fails, the plain
      alternative takes the digit run and an optional fraction. */
  function NumberMatchAt(s: string, i: nat): (e: Option<nat>)
    requires i <= |s|
    ensures e.Some? ==> SignEnd(s, i) < e.value <= |s|
  {
    var p := SignEnd(s, i);
    var d := DigitRunEnd(s, p);
    if d == p then None
    else if d - p <= 4 && GroupAt(s, d) then Some(FractionEnd(s, GroupsEnd(s, d)))
    else Some(FractionEnd(s, d))
  }

  /** `text.match(re)` with the global flag: the matches from `i` on, left to
      right, each search resuming where the previous match ended. */
  function NumberMatches(s: string, i: nat): seq<string>
    requires i <= |s|
    decreases |s| - i
  {
    if i == |s| then []
    else
      match NumberMatchAt(s, i)
      case Some(e) => [s[i..e]] + NumberMatches(s, e)
      case None => NumberMatches(s, i + 1)
  }

  predicate IsStripped(c: char) { IsWs(c) || c == '.' || c == ',' }

  /** `replace(/\s+/g, "").replace(/\./g, "").replace(/,/g, "")`. */
  function StripSeparators(m: string): (r: string)
    ensures |r| <= |m|
  {
    if m == [] then [] else (if IsStripped(m[0]) then [] else [m[0]]) + StripSeparators(m[1..])
  }

  /** `t.replace(/^-/, "")`. */
  function Unsigned(t: string): string {
    if |t| > 0 && t[0] == '-' then t[1..] else t
  }

  /** The tokens the loop pushes: not empty, not a lone sign, at most 18
      characters after a leading minus. */
  predicate Acceptable(t: string) {
    t != "" && t != "-" && t != "+" && |Unsigned(t)| <= 18
  }

  /** The cleaned matches the loop would push, in order. */
  function Accepted(text: string): seq<string> {
    KeepIf(MapEach(NumberMatches(text, 0), StripSeparators), Acceptable)
  }

  /** `extractNumericTokens(line, max)`. `max == 0` stands for a missing
      option and selects the default 4. The loop stops once `limit` tokens
      are out, so the result is the first `limit` accepted tokens. */
  function ExtractNumericTokens(line: string, max: nat): seq<string> {
    var limit := if max == 0 then 4 else max;
    var accepted := Accepted(NbspToSpace(line));
    if |accepted| <= limit then accepted else accepted[..limit]
  }

  /** An optional minus followed by one or more digits. */
  predicate SignedDigits(t: string) {
    && |t| > 0
    && (IsDigit(t[0]) || (t[0] == '-' && |t| > 1))
    && forall j | 0 < j < |t| :: IsDigit(t[j])
  }

  lemma {:induction false} GroupsEndChars(s: string, q: nat)
    requires q <= |s|
    ensures forall j | q <= j < GroupsEnd(s, q) :: IsDigit(s[j]) || IsGroupSep(s[j])
    decreases |s| - q
  {
    if GroupAt(s, q) { GroupsEndChars(s, q + 4); }
  }

  lemma FractionEndChars(s: string, q: nat)
    requires q <= |s|
    ensures forall j | q <= j < FractionEnd(s, q) :: IsDigit(s[j]) || s[j] == '.' || s[j] == ','
  {
  }

  /** Digits and separators only. */
  predicate DigitsOrSeps(m: string) {
    forall j | 0 <= j < |m| :: IsDigit(m[j]) || IsGroupSep(m[j]) || m[j] == ','
  }

  lemma {:induction false} StripDigitsAndSeps(m: string)
    requires DigitsOrSeps(m)
    ensures AllDigits(StripSeparators(m))
  {
    if m != [] {
      assert DigitsOrSeps(m[1..]) by {
        forall j | 0 <= j < |m| - 1 ensures IsDigit(m[1..][j]) || IsGroupSep(m[1..][j]) || m[1..][j] == ',' {
          assert m[1..][j] == m[j + 1];
        }
      }
      StripDigitsAndSeps(m[1..]);
    }
  }

  /** A digit followed by digits and separators strips to a digit string. */
  lemma StripDigitLed(m: string)
    requires |m| > 0 && IsDigit(m[0]) && DigitsOrSeps(m)
    ensures StripSeparators(m) != [] && AllDigits(StripSeparators(m))
  {
    StripDigitsAndSeps(m);
    assert !IsStripped(m[0]);
  }

  /** Stripping a match leaves an optional minus and at least one digit. */
  lemma StripMatch(m: string)
    requires |m| > 0 && DigitsOrSeps(m[1..])
    requires IsDigit(m[0]) || (m[0] == '-' && |m| > 1 && IsDigit(m[1]))
    ensures SignedDigits(StripSeparators(m))
  {
    assert !IsStripped(m[0]);
    assert StripSeparators(m) == [m[0]] + StripSeparators(m[1..]);
    if IsDigit(m[0]) {
      StripDigitsAndSeps(m[1..]);
    } else {
      StripDigitLed(m[1..]);
    }
  }

  /** Every match is a minus-led or digit-led run of digits and separators. */
  lemma NumberMatchShape(s: string, i: nat)
    requires i <= |s| && NumberMatchAt(s, i).Some?
    ensures var m := s[i..NumberMatchAt(s, i).value];
      && DigitsOrSeps(m[1..])
      && (IsDigit(m[0]) || (m[0] == '-' && |m| > 1 && IsDigit(m[1])))
  {
    var p := SignEnd(s, i);
    var d := DigitRunEnd(s, p);
    var e := NumberMatchAt(s, i).value;
    if d - p <= 4 && GroupAt(s, d) {
      GroupsEndChars(s, d);
      FractionEndChars(s, GroupsEnd(s, d));
    } else {
      FractionEndChars(s, d);
    }
    var m := s[i..e];
    forall j | 0 <= j < |m| - 1
      ensures IsDigit(m[1..][j]) || IsGroupSep(m[1..][j]) || m[1..][j] == ','
    {
      assert m[1..][j] == s[i + 1 + j];
    }
    assert m[p - i] == s[p];
  }

  /** Every element of `NumberMatches(s, i)` is a match's text. */
  lemma {:induction false} NumberMatchesShape(s: string, i: nat)
    requires i <= |s|
    ensures forall m | m in NumberMatches(s, i) :: SignedDigits(StripSeparators(m))
    decreases |s| - i
  {
    if i < |s| {
      match NumberMatchAt(s, i)
      case Some(e) =>
        NumberMatchShape(s, i);
        StripMatch(s[i..e]);
        NumberMatchesShape(s, e);
      case None =>
        NumberMatchesShape(s, i + 1);
    }
  }

  /** Every accepted token is a signed digit string. */
  lemma AcceptedShape(text: string)
    ensures forall t | t in Accepted(text) :: SignedDigits(t) && Acceptable(t)
  {
    var ms := NumberMatches(text, 0);
    NumberMatchesShape(text, 0);
    MapEachAll(ms, StripSeparators, SignedDigits);
    KeepIfAll(MapEach(ms, StripSeparators), Acceptable, SignedDigits);
  }

  /** At most `max` tokens (4 when the option is missing), each an optional
      minus followed by at most 18 digits: spaces, dots and commas are gone. */
  lemma ExtractNumericTokensFacts(line: string, max: nat)
    ensures var r := ExtractNumericTokens(line, max);
      && |r| <= (if max == 0 then 4 else max)
      && forall t | t in r :: SignedDigits(t) && AllDigits(Unsigned(t)) && |Unsigned(t)| <= 18
  {
    var accepted := Accepted(NbspToSpace(line));
    AcceptedShape(NbspToSpace(line));
    var r := ExtractNumericTokens(line, max);
    assert forall t | t in r :: t in accepted;
  }

  // ---------------------------------------------------------------------------
  // Line items and the join helpers

  /** An element of a `lenderKeywordLines` array: a bare string (older
      records) or a matched-line object. */
  datatype LineItem = Text(text: string) | Keyed(hit: Selection.Hit)

  predicate NonEmpty(s: string) { s != "" }

  /** The parts `keywordsArrayToJoinedString` sorts: `new Set(arr)`, then
      trimmed, then without blanks, then ordered by the collation `le`
      (Swedish `localeCompare`, kept abstract). */
  function KeywordParts(arr: seq<string>, le: (string, string) -> bool): seq<string> {
    SortBy(KeepIf(MapEach(Unique(arr), Trim), NonEmpty), le)
  }

  /** `keywordsArrayToJoinedString`. */
  function KeywordsJoined(arr: seq<string>, le: (string, string) -> bool): string {
    if arr == [] then "" else Join(";", KeywordParts(arr, le))
  }

  /** The trimmed non-blank keywords, before sorting. */
  lemma KeptKeywordsFacts(arr: seq<string>)
    ensures var kept := KeepIf(MapEach(Unique(arr), Trim), NonEmpty);
      && |kept| <= |Unique(arr)|
      && (forall p | p in kept :: p != "" && Trim(p) == p)
      && (forall p :: p in kept <==> p != "" && exists a | a in arr :: Trim(a) == p)
  {
    var u := Unique(arr);
    var trimmed := MapEach(u, Trim);
    var kept := KeepIf(trimmed, NonEmpty);
    UniqueFacts(arr);
    KeepIfFacts(trimmed, NonEmpty);
    SubseqMembers(kept, trimmed);
    forall p | p in kept ensures Trim(p) == p && exists a | a in arr :: Trim(a) == p {
      assert p in trimmed;
      var k :| 0 <= k < |trimmed| && trimmed[k] == p;
      MapEachAt(u, Trim, k);
      TrimTwice(u[k]);
      assert u[k] in arr;
    }
    forall p | p != "" && exists a | a in arr :: Trim(a) == p ensures p in kept {
      var a :| a in arr && Trim(a) == p;
      var k :| 0 <= k < |u| && u[k] == a;
      MapEachAt(u, Trim, k);
      assert trimmed[k] in trimmed;
    }
  }

  /** Sorting keeps the members. */
  lemma SortByMembers<T>(s: seq<T>, le: (T, T) -> bool)
    ensures forall x :: x in SortBy(s, le) <==> x in s
  {
    var r := SortBy(s, le);
    forall x ensures x in r <==> x in s {
      assert x in r <==> x in multiset(r);
      assert x in s <==> x in multiset(s);
    }
  }

  /** The parts are sorted, non-blank and trimmed, and they are exactly the
      trimmed non-blank keywords, each distinct raw keyword contributing at
      most one. */
  lemma KeywordPartsFacts(arr: seq<string>, le: (string, string) -> bool)
    requires TotalPreorder(le)
    ensures var parts := KeywordParts(arr, le);
      && SortedBy(parts, le)
      && |parts| <= |Unique(arr)|
      && (forall p | p in parts :: p != "" && Trim(p) == p)
      && (forall p :: p in parts <==> p != "" && exists a | a in arr :: Trim(a) == p)
  {
    var kept := KeepIf(MapEach(Unique(arr), Trim), NonEmpty);
    KeptKeywordsFacts(arr);
    SortBySorted(kept, le);
    SortByMembers(kept, le);
  }

  /** Deduplication happens before trimming: " Qred" and "Qred" both survive
      as "Qred". */
  lemma KeywordPartsExample(le: (string, string) -> bool)
    requires TotalPreorder(le)
    ensures KeywordParts([" Qred", "Qred"], le) == ["Qred", "Qred"]
  {
    var arr := [" Qred", "Qred"];
    assert Unique(arr) == arr by { UniqueOfTwo(" Qred", "Qred"); }
    assert Trim(" Qred") == "Qred";
    assert Trim("Qred") == "Qred";
    var trimmed := MapEach(arr, Trim);
    assert trimmed == ["Qred", "Qred"] by {
      MapEachAt(arr, Trim, 0);
      MapEachAt(arr, Trim, 1);
    }
    var kept := KeepIf(trimmed, NonEmpty);
    assert trimmed[..1] == ["Qred"];
    assert [] + ["Qred"] == ["Qred"];
    assert KeepIf(["Qred"], NonEmpty) == ["Qred"];
    assert kept == ["Qred", "Qred"];
    assert le("Qred", "Qred");
    assert kept[..1] == ["Qred"];
    assert SortBy(["Qred"], le) == ["Qred"];
    assert Insert("Qred", ["Qred"], le) == ["Qred", "Qred"];
  }

  lemma UniqueOfTwo(a: string, b: string)
    requires a != b
    ensures Unique([a, b]) == [a, b]
  {
    assert [a, b][..1] == [a];
    assert [a][..0] == [];
  }

  /** The text `linesArrayToJoinedString` contributes for one item, if any:
      a trimmed string, or "key: line" from the trimmed key and line (just
      the line when the key is blank). Blank lines contribute nothing. */
  function LinePart(it: LineItem): Option<string> {
    match it
    case Text(s) => var t := Trim(s); if t == "" then None else Some(t)
    case Keyed(h) =>
      var key := Trim(h.key);
      var line := Trim(h.line);
      if line == "" then None else Some(if key != "" then key + ": " + line else line)
  }

  /** The `parts` the loop pushes. */
  function LineParts(arr: seq<LineItem>): seq<string> {
    if arr == [] then []
    else
      LineParts(arr[..|arr| - 1])
        + (match LinePart(arr[|arr| - 1]) case Some(p) => [p] case None => [])
  }

  /** `linesArrayToJoinedString`: the distinct parts in first-seen order,
      joined with " || ". */
  function LinesJoined(arr: seq<LineItem>): string {
    if arr == [] then "" else Join(" || ", Unique(LineParts(arr)))
  }

  /** Every part is non-empty and trimmed. */
  lemma LinePartClean(it: LineItem)
    requires LinePart(it).Some?
    ensures var p := LinePart(it).value; p != "" && Trim(p) == p
  {
    match it
    case Text(s) =>
      TrimTwice(s);
    case Keyed(h) =>
      var key := Trim(h.key);
      var line := Trim(h.line);
      TrimTwice(h.line);
      if key != "" {
        var p := key + ": " + line;
        assert p[0] == key[0] && p[|p| - 1] == line[|line| - 1];
        TrimNoop(p);
      }
  }

  /** The parts are exactly the contributions of the items, in order. */
  lemma {:induction false} LinePartsMembers(arr: seq<LineItem>)
    ensures forall p :: p in LineParts(arr) <==> exists it | it in arr :: LinePart(it) == Some(p)
  {
    if arr != [] {
      var init := arr[..|arr| - 1];
      LinePartsMembers(init);
      assert forall it | it in arr :: it in init || it == arr[|arr| - 1];
      assert forall it | it in init :: it in arr;
    }
  }

  /** The joined parts are distinct, non-empty and trimmed, and a text is
      among them exactly when some item contributes it. */
  lemma LinesJoinedFacts(arr: seq<LineItem>)
    ensures var parts := Unique(LineParts(arr));
      && (forall a, b | 0 <= a < b < |parts| :: parts[a] != parts[b])
      && (forall p | p in parts :: p != "" && Trim(p) == p)
      && (forall p :: p in parts <==> exists it | it in arr :: LinePart(it) == Some(p))
  {
    UniqueFacts(LineParts(arr));
    LinePartsMembers(arr);
    forall p | p in Unique(LineParts(arr)) ensures p != "" && Trim(p) == p {
      var it :| it in arr && LinePart(it) == Some(p);
      LinePartClean(it);
    }
  }

  // ---------------------------------------------------------------------------
  // pickLatestNonNull

  /** The year a value was picked for, the value, and the raw values joined
      for the audit column. */
  datatype Picked = Picked(year: int, value: int, rawJoined: string)

  /** `parseMoneyStringToInt(v) !== null`. */
  predicate Parses(v: string) { Money.ParseMoney(v).Some? }

  /** `pickLatestNonNull`: years run newest first, so the first value that
      parses is the most recent one. */
  function PickLatestNonNull(years: seq<int>, raw: seq<string>): Option<Picked> {
    if |years| < 1 || |raw| != |years| then None
    else
      match FirstIndex(raw, Parses, 0)
      case None => None
      case Some(i) => Some(Picked(years[i], Money.ParseMoney(raw[i]).value, Join(" | ", raw)))
  }

  /** No pick for empty years, mismatched lengths or when nothing parses.
      Otherwise the pick is the first parsable value with its year, and the
      value is within the sanity limit. */
  lemma PickLatestNonNullFacts(years: seq<int>, raw: seq<string>)
    ensures var r := PickLatestNonNull(years, raw);
      && (r.None? <==>
            (|years| < 1 || |raw| != |years| || forall k | 0 <= k < |raw| :: Money.ParseMoney(raw[k]).None?))
      && (r.Some? ==>
            && r.value.rawJoined == Join(" | ", raw)
            && Money.Abs(r.value.value) <= Money.SanityLimit
            && exists i | 0 <= i < |years| ::
                 (&& r.value.year == years[i]
                  && Money.ParseMoney(raw[i]) == Some(r.value.value)
                  && forall k | 0 <= k < i :: Money.ParseMoney(raw[k]).None?))
  {
    FirstIndexFacts(raw, Parses, 0);
    var r := PickLatestNonNull(years, raw);
    if r.Some? {
      var i := FirstIndex(raw, Parses, 0).value;
      Money.ParseMoneyBounds(raw[i]);
    }
  }

  // ---------------------------------------------------------------------------
  // upsertBest

  /** One row of the atomic finance table. */
  datatype Atomic = Atomic(
    orgNr: string, name: string, email: string, phone: string, keywords: string,
    sourceType: string, labelName: string, year: int, value: int, rawLine: string)

  /** A stored row with the score of its source (`{ ...rec, score }`). */
  datatype Scored = Scored(rec: Atomic, score: int)

  /** `${rec.OrgNr}|${rec.Label}`. */
  function RecordKey(rec: Atomic): string {
    rec.orgNr + "|" + rec.labelName
  }

  /** The contact fields of a kept winner, filled from a losing record where
      they are blank (the name also where it is "Unknown"). */
  function Enrich(ex: Atomic, rec: Atomic): Atomic {
    ex.(name := if (ex.name == "" || ex.name == "Unknown") && rec.name != "" then rec.name else ex.name,
        email := if ex.email == "" && rec.email != "" then rec.email else ex.email,
        phone := if ex.phone == "" && rec.phone != "" then rec.phone else ex.phone,
        keywords := if ex.keywords == "" && rec.keywords != "" then rec.keywords else ex.keywords)
  }

  /** The entry for a key after offering `rec` with `score`. */
  function Upserted(ex: Option<Scored>, rec: Atomic, score: int): Scored {
    match ex
    case None => Scored(rec, score)
    case Some(e) =>
      if score > e.score then Scored(rec, score)
      else if score == e.score && rec.year > e.rec.year then Scored(rec, score)
      else Scored(Enrich(e.rec, rec), e.score)
  }

  /** The figures of a row: everything but the contact fields. */
  predicate SameFigures(a: Atomic, b: Atomic) {
    && a.orgNr == b.orgNr && a.sourceType == b.sourceType && a.labelName == b.labelName
    && a.year == b.year && a.value == b.value && a.rawLine == b.rawLine
  }

  /** A higher score, or an equal score with a newer year, replaces the
      stored row. Otherwise its figures and score stay, and a contact field
      changes only if it was blank ("Unknown" for the name), and then to the
      new record's value. */
  lemma UpsertedFacts(ex: Option<Scored>, rec: Atomic, score: int)
    ensures var r := Upserted(ex, rec, score);
      match ex
      case None => r == Scored(rec, score)
      case Some(e) =>
        if score > e.score || (score == e.score && rec.year > e.rec.year) then r == Scored(rec, score)
        else
          && r.score == e.score
          && SameFigures(r.rec, e.rec)
          && (r.rec.name == e.rec.name || ((e.rec.name == "" || e.rec.name == "Unknown") && r.rec.name == rec.name))
          && (r.rec.email == e.rec.email || (e.rec.email == "" && r.rec.email == rec.email))
          && (r.rec.phone == e.rec.phone || (e.rec.phone == "" && r.rec.phone == rec.phone))
          && (r.rec.keywords == e.rec.keywords || (e.rec.keywords == "" && r.rec.keywords == rec.keywords))
  {
  }

  function Lookup(db: map<string, Scored>, k: string): Option<Scored> {
    if k in db then Some(db[k]) else None
  }

  /** A whole sequence of offers, in order. */
  function UpsertAll(db: map<string, Scored>, offers: seq<(Atomic, int)>): map<string, Scored> {
    if offers == [] then db
    else
      var prev := UpsertAll(db, offers[..|offers| - 1]);
      var (rec, score) := offers[|offers| - 1];
      prev[RecordKey(rec) := Upserted(Lookup(prev, RecordKey(rec)), rec, score)]
  }

  /** `(score, year)` of `a` is not above that of the winner `w`. */
  predicate Dominated(score: int, year: int, w: Scored) {
    score < w.score || (score == w.score && year <= w.rec.year)
  }

  /** Winner takes all: after any sequence of offers, the row stored for a
      key has a score and year that no offer for that key beats, and its
      figures and score are those of one of the offers. */
  lemma {:induction false} UpsertAllWinner(offers: seq<(Atomic, int)>, k: string)
    ensures var db := UpsertAll(map[], offers);
      && (k in db <==> exists o | o in offers :: RecordKey(o.0) == k)
      && (k in db ==>
            && (forall o | o in offers && RecordKey(o.0) == k :: Dominated(o.1, o.0.year, db[k]))
            && exists o | o in offers :: RecordKey(o.0) == k && SameFigures(db[k].rec, o.0) && db[k].score == o.1)
  {
    if offers != [] {
      var init := offers[..|offers| - 1];
      var (rec, score) := offers[|offers| - 1];
      UpsertAllWinner(init, k);
      var prev := UpsertAll(map[], init);
      var db := UpsertAll(map[], offers);
      assert forall o | o in offers :: o in init || o == (rec, score);
      assert forall o | o in init :: o in offers;
      if RecordKey(rec) == k {
        UpsertedFacts(Lookup(prev, k), rec, score);
        assert (rec, score) in offers;
      }
    }
  }

  /** The `db` Map of `upsertBest`. */
  class BestTable {
    var best: map<string, Scored>

    constructor()
      ensures best == map[]
    {
      best := map[];
    }

    /** `upsertBest(db, rec, score)`: only the entry for the record's key
        changes. */
    method UpsertBest(rec: Atomic, score: int)
      modifies this
      ensures best == old(best)[RecordKey(rec) := Upserted(Lookup(old(best), RecordKey(rec)), rec, score)]
    {
      var key := RecordKey(rec);
      if key !in best {
        best := best[key := Scored(rec, score)];
        return;
      }
      var ex := best[key];
      if score > ex.score {
        best := best[key := Scored(rec, score)];
        return;
      }
      if score == ex.score && rec.year > ex.rec.year {
        best := best[key := Scored(rec, score)];
        return;
      }
      var r := ex.rec;
      if (r.name == "" || r.name == "Unknown") && rec.name != "" { r := r.(name := rec.name); }
      if r.email == "" && rec.email != "" { r := r.(email := rec.email); }
      if r.phone == "" && rec.phone != "" { r := r.(phone := rec.phone); }
      if r.keywords == "" && rec.keywords != "" { r := r.(keywords := rec.keywords); }
      best := best[key := Scored(r, ex.score)];
    }
  }
}
