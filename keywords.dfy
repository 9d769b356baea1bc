/**
 * Keyword matchers and the per-organisation keyword scan of
 * src/pdfKeywordScan.js (and the identical `buildKeywordMatchers` of
 * src/scraper.js): a keyword is trimmed, its regular-expression
 * metacharacters are escaped, and the case-insensitive pattern then matches
 * the keyword literally.
 */
module Keywords {
  import opened Wrappers
  import opened Strs

  /** A matcher: a key and, when it has one, the test of its pattern. */
  datatype Matcher = Matcher(key: string, re: Option<string -> bool>)

  // ---------------------------------------------------------------------------
  // Escaping

  /** The class `[.*+?^${}()|[\]\\]`. */
  predicate IsMeta(c: char) {
    || c == '.' || c == '*' || c == '+' || c == '?' || c == '^' || c == '$' || c == '{'
    || c == '}' || c == '(' || c == ')' || c == '|' || c == '[' || c == ']' || c == '\\'
  }

  /** `k.replace(/[.*+?^${}()|[\]\\]/g, "\\$&")`: every metacharacter gets a
      backslash in front. */
  function Escape(k: string): (p: string)
    ensures |p| >= |k|
  {
    if k == [] then [] else (if IsMeta(k[0]) then ['\\', k[0]] else [k[0]]) + Escape(k[1..])
  }

  /** A pattern of literal atoms only: a character that is not a
      metacharacter, or a backslash and a metacharacter. */
  predicate Literal(p: string)
    decreases |p|
  {
    || p == []
    || (!IsMeta(p[0]) && Literal(p[1..]))
    || (|p| >= 2 && p[0] == '\\' && IsMeta(p[1]) && Literal(p[2..]))
  }

  /** The text a literal pattern stands for: each escape is read as the
      character it escapes. */
  function Unescape(p: string): string
    decreases |p|
  {
    if p == [] then []
    else if p[0] == '\\' && |p| >= 2 then [p[1]] + Unescape(p[2..])
    else [p[0]] + Unescape(p[1..])
  }

  /** The escaped keyword is a literal pattern, and reading it back gives the
      keyword. */
  lemma {:induction false} EscapeRoundTrip(k: string)
    ensures Literal(Escape(k)) && Unescape(Escape(k)) == k
  {
    if k != [] {
      EscapeRoundTrip(k[1..]);
      var rest := Escape(k[1..]);
      if IsMeta(k[0]) {
        var p := ['\\', k[0]] + rest;
        assert p[2..] == rest;
      } else {
        var p := [k[0]] + rest;
        assert p[1..] == rest;
      }
      assert k == [k[0]] + k[1..];
    }
  }

  /** `new RegExp(p, "i").test(s)` for a literal pattern: the text it stands
      for occurs in `s`, ignoring case. */
  function LiteralTest(p: string): string -> bool {
    s => ContainsCI(s, Unescape(p))
  }

  function KeywordMatcher(k: string): Matcher {
    Matcher(k, Some(LiteralTest(Escape(k))))
  }

  /** `buildKeywordMatchers(keywords)`. */
  function BuildKeywordMatchers(keywords: seq<string>): (r: seq<Matcher>)
    ensures |r| <= |keywords|
    ensures forall i | 0 <= i < |r| :: r[i].key != "" && r[i].re.Some?
  {
    if keywords == [] then []
    else
      var k := Trim(keywords[0]);
      (if k == "" then [] else [KeywordMatcher(k)]) + BuildKeywordMatchers(keywords[1..])
  }

  /** A keyword matcher matches a text exactly when the keyword occurs in it,
      ignoring case. */
  lemma KeywordMatcherTest(k: string, s: string)
    ensures KeywordMatcher(k).re.value(s) <==> ContainsCI(s, k)
  {
    EscapeRoundTrip(k);
  }

  function Keys(ms: seq<Matcher>): (r: seq<string>)
    ensures |r| == |ms| && forall i {:trigger r[i]} | 0 <= i < |ms| :: r[i] == ms[i].key
  {
    if ms == [] then [] else [ms[0].key] + Keys(ms[1..])
  }

  /** Each key is trimmed and non-empty, and each matcher matches a text
      exactly when its key occurs in it, ignoring case. */
  ghost predicate KeywordsMatchers(r: seq<Matcher>) {
    && (forall i | 0 <= i < |r| :: r[i].key != "" && Trim(r[i].key) == r[i].key)
    && (forall i, text | 0 <= i < |r| :: Tests(r[i], text) <==> ContainsCI(text, r[i].key))
  }

  /** Every key is trimmed and non-empty, and each matcher matches a text
      exactly when its key occurs in it, ignoring case. */
  lemma {:induction false} BuildKeywordMatchersKeys(keywords: seq<string>)
    ensures KeywordsMatchers(BuildKeywordMatchers(keywords))
  {
    if keywords != [] {
      BuildKeywordMatchersKeys(keywords[1..]);
      var k := Trim(keywords[0]);
      TrimTwice(keywords[0]);
      var head: seq<Matcher> := if k == "" then [] else [KeywordMatcher(k)];
      var tail := BuildKeywordMatchers(keywords[1..]);
      assert BuildKeywordMatchers(keywords) == head + tail;
      if k != "" {
        OneKeywordMatcher(k);
      }
      MatchersAppend(head, tail);
    }
  }

  lemma OneKeywordMatcher(k: string)
    requires k != "" && Trim(k) == k
    ensures KeywordsMatchers([KeywordMatcher(k)])
  {
    forall text ensures Tests(KeywordMatcher(k), text) <==> ContainsCI(text, k) {
      KeywordMatcherTest(k, text);
    }
  }

  lemma MatchersAppend(a: seq<Matcher>, b: seq<Matcher>)
    requires KeywordsMatchers(a) && KeywordsMatchers(b)
    ensures KeywordsMatchers(a + b)
  {
    var r := a + b;
    forall i, text | 0 <= i < |r|
      ensures Tests(r[i], text) <==> ContainsCI(text, r[i].key)
    {
      if i < |a| {
        assert r[i] == a[i];
      } else {
        assert r[i] == b[i - |a|];
      }
    }
  }

  /** Keywords that are already trimmed and non-empty are kept, in order. */
  lemma {:induction false} BuildKeepsCleanKeywords(keywords: seq<string>)
    requires forall i | 0 <= i < |keywords| :: keywords[i] != "" && Trim(keywords[i]) == keywords[i]
    ensures Keys(BuildKeywordMatchers(keywords)) == keywords
  {
    if keywords != [] {
      var tail := keywords[1..];
      assert forall i | 0 <= i < |tail| :: tail[i] == keywords[i + 1];
      BuildKeepsCleanKeywords(tail);
      var ms := BuildKeywordMatchers(tail);
      assert BuildKeywordMatchers(keywords) == [KeywordMatcher(keywords[0])] + ms;
      assert Keys([KeywordMatcher(keywords[0])] + ms) == [keywords[0]] + Keys(ms);
    }
  }

  // ---------------------------------------------------------------------------
  // Organisation number from a file name

  function DropTrailingSlashes(p: string): (r: string)
    ensures |r| <= |p|
  {
    if p != [] && p[|p| - 1] == '/' then DropTrailingSlashes(p[..|p| - 1]) else p
  }

  function AfterLastSlash(p: string): (r: string)
    ensures '/' !in r
  {
    if p == [] || p[|p| - 1] == '/' then [] else AfterLastSlash(p[..|p| - 1]) + [p[|p| - 1]]
  }

  /** `path.basename` (POSIX): the part after the last slash, trailing
      slashes ignored. */
  function Basename(p: string): (r: string)
    ensures '/' !in r
  {
    AfterLastSlash(DropTrailingSlashes(p))
  }

  lemma {:induction false} BasenameOfPlain(p: string)
    requires '/' !in p
    ensures Basename(p) == p
  {
    if p != [] {
      assert p[|p| - 1] in p;
      var init := p[..|p| - 1];
      assert '/' !in init by { assert forall c | c in init :: c in p; }
      BasenameOfPlain(init);
      assert DropTrailingSlashes(init) == init by {
        if init != [] { assert init[|init| - 1] in p; }
      }
      assert p == init + [p[|p| - 1]];
    }
  }

  /** `normalizeOrgFromPdfFilename`: the ten leading digits of the base name
      when an underscore follows them. */
  function OrgFromFilename(name: string): (r: Option<string>)
    ensures r.Some? ==> |r.value| == 10 && AllDigits(r.value)
  {
    var b := Basename(name);
    if |b| >= 11 && AllDigits(b[..10]) && b[10] == '_' then Some(b[..10]) else None
  }

  /** A file named `<ten digits>_<rest>` belongs to that organisation. */
  lemma OrgFromFilenameOf(org: string, rest: string)
    requires |org| == 10 && AllDigits(org) && '/' !in rest
    ensures OrgFromFilename(org + "_" + rest) == Some(org)
  {
    var name := org + "_" + rest;
    assert '/' !in name by {
      forall i | 0 <= i < |name| ensures name[i] != '/' {
        if i < 10 { assert IsDigit(org[i]); } else if i > 10 { assert name[i] == rest[i - 11]; }
      }
    }
    BasenameOfPlain(name);
    assert name[..10] == org;
  }

  /** A base name without ten leading digits and an underscore has no
      organisation. */
  lemma OrgFromFilenameNone(name: string)
    requires '/' !in name && (|name| < 11 || name[10] != '_' || exists i | 0 <= i < 10 :: !IsDigit(name[i]))
    ensures OrgFromFilename(name) == None
  {
    BasenameOfPlain(name);
  }

  // ---------------------------------------------------------------------------
  // Keyword scan

  /** A file of the PDF directory: its name and its parsed text, `None` when
      reading or parsing it failed. */
  datatype PdfFile = PdfFile(name: string, text: Option<string>)

  /** `f.toLowerCase().endsWith(".pdf")`. */
  predicate IsPdfName(name: string) { EndsWith(Lower(name), ".pdf") }

  /** The file is scanned: a PDF with an organisation and a non-empty text. */
  predicate Scanned(f: PdfFile) {
    IsPdfName(f.name) && OrgFromFilename(f.name).Some? && f.text.Some? && f.text.value != ""
  }

  predicate Tests(m: Matcher, text: string) { m.re.Some? && m.re.value(text) }

  function AddKeyword(out: map<string, set<string>>, org: string, k: string): map<string, set<string>> {
    out[org := (if org in out then out[org] else {}) + {k}]
  }

  /** The matchers' keywords that match `text` are added to `org`'s set. */
  function AddMatches(out: map<string, set<string>>, org: string, text: string, ms: seq<Matcher>): map<string, set<string>> {
    if ms == [] then out
    else
      var o := AddMatches(out, org, text, ms[..|ms| - 1]);
      var m := ms[|ms| - 1];
      if Tests(m, text) then AddKeyword(o, org, m.key) else o
  }

  /** The scan over the files, in order. */
  function ScanFiles(files: seq<PdfFile>, ms: seq<Matcher>): map<string, set<string>> {
    if files == [] then map[]
    else
      var o := ScanFiles(files[..|files| - 1], ms);
      var f := files[|files| - 1];
      if Scanned(f) then AddMatches(o, OrgFromFilename(f.name).value, f.text.value, ms) else o
  }

  /** `scanPdfLenderKeywords` with the directory listing and the parsed texts
      given: no matcher, no scan. */
  function ScanLenderKeywords(files: seq<PdfFile>, keywords: seq<string>): map<string, set<string>> {
    var ms := BuildKeywordMatchers(keywords);
    if ms == [] then map[] else ScanFiles(files, ms)
  }

  /** `org`'s set holds `k`. */
  predicate Has(out: map<string, set<string>>, org: string, k: string) {
    org in out && k in out[org]
  }

  /** Some matcher with key `k` matches `text`. */
  predicate Matched(ms: seq<Matcher>, text: string, k: string) {
    exists j | 0 <= j < |ms| :: ms[j].key == k && Tests(ms[j], text)
  }

  /** Every organisation's set is non-empty. */
  predicate NoEmptySet(out: map<string, set<string>>) {
    forall o | o in out :: exists k :: k in out[o]
  }

  /** `org` gets keyword `k` from file `f`. */
  predicate Contributes(f: PdfFile, ms: seq<Matcher>, org: string, k: string) {
    Scanned(f) && OrgFromFilename(f.name).value == org && Matched(ms, f.text.value, k)
  }

  /** Adding a keyword adds it to `org` and changes nothing else. */
  lemma AddKeywordFacts(out: map<string, set<string>>, org: string, k: string)
    ensures forall o, k' :: Has(AddKeyword(out, org, k), o, k') <==> Has(out, o, k') || (o == org && k' == k)
    ensures NoEmptySet(out) ==> NoEmptySet(AddKeyword(out, org, k))
  {
    var r := AddKeyword(out, org, k);
    if NoEmptySet(out) {
      forall o | o in r ensures exists k' :: k' in r[o] {
        if o == org {
          assert k in r[o];
        } else {
          var k' :| k' in out[o];
          assert k' in r[o];
        }
      }
    }
  }

  /** The keywords of `org` after one file are those it had and those of the
      matchers that match the text. */
  lemma {:induction false} AddMatchesExact(out: map<string, set<string>>, org: string, text: string, ms: seq<Matcher>)
    ensures forall o, k :: Has(AddMatches(out, org, text, ms), o, k) <==>
              Has(out, o, k) || (o == org && Matched(ms, text, k))
    ensures NoEmptySet(out) ==> NoEmptySet(AddMatches(out, org, text, ms))
  {
    if ms != [] {
      var init := ms[..|ms| - 1];
      var m := ms[|ms| - 1];
      AddMatchesExact(out, org, text, init);
      var o := AddMatches(out, org, text, init);
      var r := AddMatches(out, org, text, ms);
      if Tests(m, text) {
        AddKeywordFacts(o, org, m.key);
      }
      forall o', k ensures Has(r, o', k) <==> Has(out, o', k) || (o' == org && Matched(ms, text, k)) {
        if Matched(init, text, k) {
          var j :| 0 <= j < |init| && init[j].key == k && Tests(init[j], text);
          assert ms[j] == init[j];
        }
        if Tests(m, text) && k == m.key {
          assert ms[|ms| - 1] == m;
        }
      }
    }
  }

  /** The scan gives an organisation keyword `k` exactly when some scanned
      file of that organisation has a text that `k`'s matcher matches. */
  lemma {:induction false} ScanFilesExact(files: seq<PdfFile>, ms: seq<Matcher>, org: string, k: string)
    ensures Has(ScanFiles(files, ms), org, k) <==> exists f | f in files :: Contributes(f, ms, org, k)
  {
    if files != [] {
      var init := files[..|files| - 1];
      var f := files[|files| - 1];
      ScanFilesExact(init, ms, org, k);
      var o0 := ScanFiles(init, ms);
      assert (exists g | g in files :: Contributes(g, ms, org, k)) <==>
             (exists g | g in init :: Contributes(g, ms, org, k)) || Contributes(f, ms, org, k) by {
        assert forall g | g in init :: g in files;
        assert forall g | g in files :: g in init || g == f;
      }
      if Scanned(f) {
        var fo := OrgFromFilename(f.name).value;
        AddMatchesExact(o0, fo, f.text.value, ms);
        assert Has(ScanFiles(files, ms), org, k) <==> Has(o0, org, k) || (org == fo && Matched(ms, f.text.value, k));
      }
    }
  }

  /** Every organisation in the scan has at least one keyword. */
  lemma {:induction false} ScanFilesNonEmpty(files: seq<PdfFile>, ms: seq<Matcher>)
    ensures NoEmptySet(ScanFiles(files, ms))
  {
    if files != [] {
      var init := files[..|files| - 1];
      var f := files[|files| - 1];
      ScanFilesNonEmpty(init, ms);
      if Scanned(f) {
        AddMatchesExact(ScanFiles(init, ms), OrgFromFilename(f.name).value, f.text.value, ms);
      }
    }
  }

  /** A built matcher list matches `k` in a text exactly when `k` is one of
      its keys and occurs in the text, ignoring case. */
  lemma BuiltMatched(keywords: seq<string>, text: string, k: string)
    ensures var ms := BuildKeywordMatchers(keywords);
            Matched(ms, text, k) <==> k in Keys(ms) && ContainsCI(text, k)
  {
    var ms := BuildKeywordMatchers(keywords);
    BuildKeywordMatchersKeys(keywords);
    if k in Keys(ms) {
      var j :| 0 <= j < |ms| && Keys(ms)[j] == k;
      assert Tests(ms[j], text) <==> ContainsCI(text, k);
    }
    if Matched(ms, text, k) {
      var j :| 0 <= j < |ms| && ms[j].key == k && Tests(ms[j], text);
      assert Keys(ms)[j] == k;
    }
  }

  /** The text of a scanned file contains keyword `k` of the list, ignoring case. */
  predicate FileHasKeyword(f: PdfFile, keywords: seq<string>, org: string, k: string) {
    Scanned(f) && OrgFromFilename(f.name).value == org
    && k in Keys(BuildKeywordMatchers(keywords)) && ContainsCI(f.text.value, k)
  }

  /** The scan in the keywords' own terms: an organisation has keyword `k`
      exactly when `k` is a trimmed keyword that occurs, ignoring case, in
      the text of one of its scanned files. */
  lemma ScanLenderKeywordsExact(files: seq<PdfFile>, keywords: seq<string>, org: string, k: string)
    ensures Has(ScanLenderKeywords(files, keywords), org, k) <==>
              exists f | f in files :: FileHasKeyword(f, keywords, org, k)
  {
    var ms := BuildKeywordMatchers(keywords);
    if ms != [] {
      ScanFilesExact(files, ms, org, k);
    }
    forall f | f in files && Scanned(f)
      ensures Contributes(f, ms, org, k) <==> FileHasKeyword(f, keywords, org, k)
    {
      BuiltMatched(keywords, f.text.value, k);
    }
    if exists f | f in files :: FileHasKeyword(f, keywords, org, k) {
      var f :| f in files && FileHasKeyword(f, keywords, org, k);
      assert Contributes(f, ms, org, k);
    }
  }

  /** The inner loop over the matchers for one file. */
  method AddFileMatches(out0: map<string, set<string>>, org: string, text: string, ms: seq<Matcher>)
    returns (out: map<string, set<string>>)
    ensures out == AddMatches(out0, org, text, ms)
  {
    out := out0;
    var j := 0;
    while j < |ms|
      invariant j <= |ms|
      invariant out == AddMatches(out0, org, text, ms[..j])
    {
      assert ms[..j + 1][..j] == ms[..j];
      var m := ms[j];
      if m.re.Some? && m.re.value(text) {
        if org !in out {
          out := out[org := {}];
        }
        out := out[org := out[org] + {m.key}];
      }
      j := j + 1;
    }
    assert ms[..j] == ms;
  }

  /** `scanPdfLenderKeywords`: the loop over the files. */
  method ScanPdfLenderKeywords(files: seq<PdfFile>, keywords: seq<string>)
    returns (out: map<string, set<string>>)
    ensures out == ScanLenderKeywords(files, keywords)
  {
    out := map[];
    var ms := BuildKeywordMatchers(keywords);
    if |ms| == 0 {
      return;
    }
    var i := 0;
    while i < |files|
      invariant i <= |files|
      invariant out == ScanFiles(files[..i], ms)
    {
      assert files[..i + 1][..i] == files[..i];
      var f := files[i];
      var org := OrgFromFilename(f.name);
      if IsPdfName(f.name) && org.Some? && f.text.Some? && f.text.value != "" {
        out := AddFileMatches(out, org.value, f.text.value, ms);
      }
      i := i + 1;
    }
    assert files[..i] == files;
  }
}
