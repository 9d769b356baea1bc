/**
 * The text pipeline of src/scraper.js: `normalizeScanText`, the split of the
 * text into normalised non-empty lines, and `extractMatchedLines`, which
 * offers every (line, matcher) pair in order to the shared selection.
 */
module TextLines {
  import opened Strs
  import opened Keywords
  import opened Selection

  // ---------------------------------------------------------------------------
  // Scan text and lines

  /** `normalizeScanText`: NUL becomes a space, CRLF and a lone CR become LF. */
  function ScanText(s: string): (r: string)
    ensures '\r' !in r && '\0' !in r
  {
    if s == [] then []
    else if s[0] == '\0' then " " + ScanText(s[1..])
    else if s[0] == '\r' && |s| >= 2 && s[1] == '\n' then "\n" + ScanText(s[2..])
    else if s[0] == '\r' then "\n" + ScanText(s[1..])
    else [s[0]] + ScanText(s[1..])
  }

  /** A text with no CR and no NUL is left as it is; so the normalisation is
      idempotent. */
  lemma {:induction false} ScanTextNoop(s: string)
    requires '\r' !in s && '\0' !in s
    ensures ScanText(s) == s
  {
    if s != [] {
      assert s[0] != '\r' && s[0] != '\0';
      assert '\r' !in s[1..] && '\0' !in s[1..] by { assert forall c | c in s[1..] :: c in s; }
      ScanTextNoop(s[1..]);
      assert s == [s[0]] + s[1..];
    }
  }

  lemma ScanTextIdempotent(s: string)
    ensures ScanText(ScanText(s)) == ScanText(s)
  {
    ScanTextNoop(ScanText(s));
  }

  /** `s.split("\n")`. */
  function SplitLines(s: string): (r: seq<string>)
    ensures |r| >= 1 && forall p | p in r :: '\n' !in p
  {
    if s == [] then [""]
    else
      var rest := SplitLines(s[1..]);
      if s[0] == '\n' then [""] + rest
      else
        assert rest[0] in rest;
        [[s[0]] + rest[0]] + rest[1..]
  }

  /** Joining the pieces with LF gives the text back. */
  lemma {:induction false} SplitLinesJoin(s: string)
    ensures Join("\n", SplitLines(s)) == s
  {
    if s != [] {
      var rest := SplitLines(s[1..]);
      SplitLinesJoin(s[1..]);
      if s[0] == '\n' {
        assert ([""] + rest)[1..] == rest;
      } else {
        var r := [[s[0]] + rest[0]] + rest[1..];
        if |rest| > 1 {
          assert r[1..] == rest[1..];
          assert Join("\n", rest) == rest[0] + "\n" + Join("\n", rest[1..]);
        }
      }
      assert s == [s[0]] + s[1..];
    }
  }

  /** Splitting a join of LF-free pieces gives the pieces back. */
  lemma {:induction false} SplitLinesOfJoin(ps: seq<string>)
    requires |ps| >= 1 && forall p | p in ps :: '\n' !in p
    ensures SplitLines(Join("\n", ps)) == ps
    decreases |Join("\n", ps)|, |ps|
  {
    if |ps| == 1 {
      FirstPieceSplit(ps[0], "");
      assert ps[0] + "" == ps[0];
    } else {
      var tail := ps[1..];
      assert forall p | p in tail :: p in ps;
      assert ps[0] in ps;
      var t := Join("\n", tail);
      SplitLinesOfJoin(tail);
      assert Join("\n", ps) == ps[0] + ("\n" + t);
      FirstPieceSplit(ps[0], "\n" + t);
      assert ("\n" + t)[1..] == t;
      assert SplitLines("\n" + t) == [""] + SplitLines(t);
      assert ps[0] + "" == ps[0];
      assert ps == [ps[0]] + tail;
    }
  }

  /** A LF-free prefix extends the first piece. */
  lemma {:induction false} FirstPieceSplit(a: string, b: string)
    requires '\n' !in a
    ensures SplitLines(a + b) == [a + SplitLines(b)[0]] + SplitLines(b)[1..]
  {
    if a != [] {
      assert a[0] in a;
      assert '\n' !in a[1..] by { assert forall c | c in a[1..] :: c in a; }
      FirstPieceSplit(a[1..], b);
      assert (a + b)[1..] == a[1..] + b;
      assert [a[0]] + (a[1..] + SplitLines(b)[0]) == a + SplitLines(b)[0];
    } else {
      assert a + b == b;
      var r := SplitLines(b);
      assert a + r[0] == r[0];
      assert r == [r[0]] + r[1..];
    }
  }

  /** The pieces normalised, empty ones dropped. */
  function CleanLines(ps: seq<string>): (r: seq<string>)
    ensures |r| <= |ps|
    ensures forall l | l in r :: l != "" && Normalized(l)
  {
    if ps == [] then []
    else
      var l := NormalizeText(ps[0]);
      (if l == "" then [] else [l]) + CleanLines(ps[1..])
  }

  /** `normalizeScanText(text).split("\n").map(l => l.replace(/\s+/g, " ").trim()).filter(Boolean)`. */
  function Lines(text: string): seq<string> {
    CleanLines(SplitLines(ScanText(text)))
  }

  /** A text without line breaks is one line, its normalised form, unless it
      is blank. */
  lemma OneLine(text: string)
    requires '\n' !in text && '\r' !in text && '\0' !in text
    ensures Lines(text) == if NormalizeText(text) == "" then [] else [NormalizeText(text)]
  {
    ScanTextNoop(text);
    SplitLinesOfJoin([text]);
  }

  /** Lines that are already clean and LF-free come back from their join. */
  lemma {:induction false} CleanLinesOfClean(ls: seq<string>)
    requires forall l | l in ls :: l != "" && Normalized(l)
    ensures CleanLines(ls) == ls
  {
    if ls != [] {
      assert ls[0] in ls;
      NormalizedFixpoint(ls[0]);
      assert forall l | l in ls[1..] :: l in ls;
      CleanLinesOfClean(ls[1..]);
      assert ls == [ls[0]] + ls[1..];
    }
  }

  /** Joining clean lines with LF and splitting again gives the lines back. */
  lemma LinesOfJoin(ls: seq<string>)
    requires |ls| >= 1 && forall l | l in ls :: l != "" && Normalized(l) && '\0' !in l
    ensures Lines(Join("\n", ls)) == ls
  {
    forall l | l in ls ensures '\n' !in l && '\r' !in l {
      NoBreakInNormalized(l);
    }
    JoinNoCrNul(ls);
    ScanTextNoop(Join("\n", ls));
    SplitLinesOfJoin(ls);
    CleanLinesOfClean(ls);
  }

  lemma NoBreakInNormalized(l: string)
    requires Normalized(l)
    ensures '\n' !in l && '\r' !in l
  {
    if '\n' in l || '\r' in l {
      var i :| 0 <= i < |l| && (l[i] == '\n' || l[i] == '\r');
      assert IsWs(l[i]);
    }
  }

  lemma {:induction false} JoinNoCrNul(ls: seq<string>)
    requires forall l | l in ls :: '\r' !in l && '\0' !in l
    ensures '\r' !in Join("\n", ls) && '\0' !in Join("\n", ls)
  {
    if |ls| > 1 {
      assert ls[0] in ls;
      assert forall l | l in ls[1..] :: l in ls;
      JoinNoCrNul(ls[1..]);
    } else if |ls| == 1 {
      assert ls[0] in ls;
    }
  }

  // ---------------------------------------------------------------------------
  // Candidates

  /** `!m.re || m.re.test(line)`: a matcher without a pattern takes every line. */
  predicate Applies(m: Matcher, line: string) {
    m.re.None? || m.re.value(line)
  }

  function TextCand(key: string, line: string, index: nat): Cand {
    Cand(Hit(key, line, index, [], TextScan), key + "|" + line)
  }

  /** The candidates of one line: each matcher with a key whose pattern
      matches, in matcher order. */
  function LineCands(line: string, index: nat, ms: seq<Matcher>): seq<Cand> {
    if ms == [] then []
    else
      var m := ms[|ms| - 1];
      LineCands(line, index, ms[..|ms| - 1]) + (if m.key != "" && Applies(m, line) then [TextCand(m.key, line, index)] else [])
  }

  /** The candidates of all lines, numbered from 1. */
  function TextCands(lines: seq<string>, ms: seq<Matcher>): seq<Cand> {
    if lines == [] then []
    else TextCands(lines[..|lines| - 1], ms) + LineCands(lines[|lines| - 1], |lines|, ms)
  }

  /** `extractMatchedLines(text, matchers, { maxLinesPerKey, maxTotalLines })`;
      an option given as 0 is absent. */
  function ExtractMatchedLines(text: string, ms: seq<Matcher>, maxPerKey: int, maxTotal: int): seq<Hit> {
    Hits(Select(TextCands(Lines(text), ms), Quota(maxPerKey, 10), Quota(maxTotal, 60)).out)
  }

  lemma {:induction false} LineCandsPrefix(line: string, index: nat, ms: seq<Matcher>, j: nat)
    requires j <= |ms|
    ensures LineCands(line, index, ms[..j]) <= LineCands(line, index, ms)
  {
    if j < |ms| {
      assert ms[..|ms| - 1][..j] == ms[..j];
      LineCandsPrefix(line, index, ms[..|ms| - 1], j);
    } else {
      assert ms[..j] == ms;
    }
  }

  lemma {:induction false} TextCandsPrefix(lines: seq<string>, ms: seq<Matcher>, i: nat)
    requires i <= |lines|
    ensures TextCands(lines[..i], ms) <= TextCands(lines, ms)
  {
    if i < |lines| {
      assert lines[..|lines| - 1][..i] == lines[..i];
      TextCandsPrefix(lines[..|lines| - 1], ms, i);
    } else {
      assert lines[..i] == lines;
    }
  }

  /** The candidates offered by the time line `i`, matcher `j` is reached are
      a prefix of all candidates. */
  lemma ScanPointPrefix(lines: seq<string>, ms: seq<Matcher>, i: nat, j: nat)
    requires i < |lines| && j <= |ms|
    ensures TextCands(lines[..i], ms) + LineCands(lines[i], i + 1, ms[..j]) <= TextCands(lines, ms)
  {
    assert lines[..i + 1][..i] == lines[..i];
    LineCandsPrefix(lines[i], i + 1, ms, j);
    TextCandsPrefix(lines, ms, i + 1);
  }

  // ---------------------------------------------------------------------------
  // The loops

  lemma OfferLineStep(before: seq<Cand>, line: string, index: nat, ms: seq<Matcher>, j: nat, perKey: int, total: int)
    requires j < |ms|
    ensures var s := Select(before + LineCands(line, index, ms[..j]), perKey, total);
            var m := ms[j];
            Select(before + LineCands(line, index, ms[..j + 1]), perKey, total)
              == if m.key != "" && Applies(m, line) then Offer(s, TextCand(m.key, line, index), perKey, total) else s
  {
    var m := ms[j];
    var prefix := before + LineCands(line, index, ms[..j]);
    assert ms[..j + 1][..j] == ms[..j];
    if m.key != "" && Applies(m, line) {
      var c := TextCand(m.key, line, index);
      assert before + LineCands(line, index, ms[..j + 1]) == prefix + [c];
      assert (prefix + [c])[..|prefix|] == prefix;
    } else {
      assert before + LineCands(line, index, ms[..j + 1]) == prefix;
    }
  }

  /** The inner loop of `extractMatchedLines`: the matchers offered one line.
      It stops after `k` matchers when the total is reached. */
  method OfferLine(line: string, index: nat, ms: seq<Matcher>, perKey: int, total: int,
                   out0: seq<Hit>, counts0: map<string, int>, seen0: set<string>,
                   ghost before: seq<Cand>, ghost s0: Sel)
    returns (out: seq<Hit>, counts: map<string, int>, seen: set<string>, done: bool, ghost k: nat, ghost s: Sel)
    requires s0 == Select(before, perKey, total) && !s0.done
    requires out0 == Hits(s0.out) && counts0 == s0.counts && seen0 == s0.seen
    ensures k <= |ms| && s == Select(before + LineCands(line, index, ms[..k]), perKey, total)
    ensures out == Hits(s.out) && counts == s.counts && seen == s.seen && done == s.done
    ensures !done ==> k == |ms|
  {
    out, counts, seen, done, s := out0, counts0, seen0, false, s0;
    var j := 0;
    assert before + LineCands(line, index, ms[..0]) == before;
    while j < |ms|
      invariant j <= |ms|
      invariant s == Select(before + LineCands(line, index, ms[..j]), perKey, total) && !s.done
      invariant out == Hits(s.out) && counts == s.counts && seen == s.seen
    {
      var m := ms[j];
      OfferLineStep(before, line, index, ms, j, perKey, total);
      if m.key != "" && (m.re.None? || m.re.value(line)) {
        var c := TextCand(m.key, line, index);
        out, counts, seen, done, s := OfferStep(out, counts, seen, c, perKey, total, s);
        if done {
          return out, counts, seen, done, j + 1, s;
        }
      }
      j := j + 1;
    }
    k := j;
  }

  /** Stopping at line `i`, matcher `k` gives the whole selection. */
  lemma StopEarly(lines: seq<string>, ms: seq<Matcher>, i: nat, k: nat, perKey: int, total: int)
    requires i < |lines| && k <= |ms|
    requires Select(TextCands(lines[..i], ms) + LineCands(lines[i], i + 1, ms[..k]), perKey, total).done
    ensures Select(TextCands(lines, ms), perKey, total)
         == Select(TextCands(lines[..i], ms) + LineCands(lines[i], i + 1, ms[..k]), perKey, total)
  {
    ScanPointPrefix(lines, ms, i, k);
    var prefix := TextCands(lines[..i], ms) + LineCands(lines[i], i + 1, ms[..k]);
    var all := TextCands(lines, ms);
    assert all == prefix + all[|prefix|..];
    SelectAfterDone(prefix, all[|prefix|..], perKey, total);
  }

  lemma NextLine(lines: seq<string>, ms: seq<Matcher>, i: nat)
    requires i < |lines|
    ensures TextCands(lines[..i + 1], ms) == TextCands(lines[..i], ms) + LineCands(lines[i], i + 1, ms[..|ms|])
  {
    assert ms[..|ms|] == ms;
    assert lines[..i + 1][..i] == lines[..i];
  }

  /** `extractMatchedLines`: the loop over the lines, with the early return at
      the total. */
  method ExtractMatchedLinesLoop(text: string, ms: seq<Matcher>, maxPerKey: int, maxTotal: int)
    returns (out: seq<Hit>)
    ensures out == ExtractMatchedLines(text, ms, maxPerKey, maxTotal)
  {
    var perKey := Quota(maxPerKey, 10);
    var total := Quota(maxTotal, 60);
    var lines := Lines(text);
    var counts: map<string, int> := map[];
    var seen: set<string> := {};
    out := [];
    ghost var s := Start;
    var i := 0;
    while i < |lines|
      invariant i <= |lines|
      invariant s == Select(TextCands(lines[..i], ms), perKey, total) && !s.done
      invariant out == Hits(s.out) && counts == s.counts && seen == s.seen
    {
      var done;
      ghost var k;
      out, counts, seen, done, k, s := OfferLine(lines[i], i + 1, ms, perKey, total, out, counts, seen, TextCands(lines[..i], ms), s);
      if done {
        StopEarly(lines, ms, i, k, perKey, total);
        return;
      }
      NextLine(lines, ms, i);
      i := i + 1;
    }
    assert lines[..i] == lines;
  }

  // ---------------------------------------------------------------------------
  // What the text pipeline returns

  /** What every text candidate is: a non-empty key of a matcher that applies
      to the line, the line at its 1-based index, no values, and the dedupe
      key `key|line`. */
  predicate TextCandOk(c: Cand, lines: seq<string>, ms: seq<Matcher>) {
    && c.hit.key != "" && c.hit.values == [] && c.hit.source == TextScan
    && 1 <= c.hit.lineIndex <= |lines| && lines[c.hit.lineIndex - 1] == c.hit.line
    && c.dedupe == c.hit.key + "|" + c.hit.line
    && exists j | 0 <= j < |ms| :: ms[j].key == c.hit.key && Applies(ms[j], c.hit.line)
  }

  lemma {:induction false} LineCandsOk(lines: seq<string>, i: nat, ms: seq<Matcher>, k: nat)
    requires i < |lines| && k <= |ms|
    ensures forall c | c in LineCands(lines[i], i + 1, ms[..k]) :: TextCandOk(c, lines, ms)
  {
    if k > 0 {
      assert ms[..k][..k - 1] == ms[..k - 1];
      LineCandsOk(lines, i, ms, k - 1);
    }
  }

  lemma {:induction false} TextCandsOk(lines: seq<string>, n: nat, ms: seq<Matcher>)
    requires n <= |lines|
    ensures forall c | c in TextCands(lines[..n], ms) :: TextCandOk(c, lines, ms)
  {
    if n > 0 {
      assert lines[..n][..n - 1] == lines[..n - 1];
      TextCandsOk(lines, n - 1, ms);
      LineCandsOk(lines, n - 1, ms, |ms|);
      assert ms[..|ms|] == ms;
    }
  }

  /** Every pair of a line and an applying matcher with a key is a candidate. */
  lemma {:induction false} TextCandsComplete(lines: seq<string>, ms: seq<Matcher>, i: nat, j: nat)
    requires i < |lines| && j < |ms| && ms[j].key != "" && Applies(ms[j], lines[i])
    ensures TextCand(ms[j].key, lines[i], i + 1) in TextCands(lines, ms)
  {
    var c := TextCand(ms[j].key, lines[i], i + 1);
    assert c in LineCands(lines[i], i + 1, ms[..j + 1]) by {
      assert ms[..j + 1][..j] == ms[..j];
    }
    LineCandsPrefix(lines[i], i + 1, ms, j + 1);
    assert c in LineCands(lines[i], i + 1, ms);
    assert lines[..i + 1][..i] == lines[..i];
    assert TextCands(lines[..i + 1], ms) == TextCands(lines[..i], ms) + LineCands(lines[i], i + 1, ms);
    assert c in TextCands(lines[..i + 1], ms);
    TextCandsPrefix(lines, ms, i + 1);
  }

  /** The text pipeline's result: at most `maxLinesPerKey` (default 10) hits
      per key and `maxTotalLines` (default 60) in all; every hit is a line of
      the text at its 1-based index with the key of a matcher that applies to
      it; no two hits have the same key and line; and the hits are in scan
      order. */
  lemma ExtractMatchedLinesFacts(text: string, ms: seq<Matcher>, maxPerKey: int, maxTotal: int, k: string)
    ensures var r := ExtractMatchedLines(text, ms, maxPerKey, maxTotal);
            var lines := Lines(text);
            && |r| <= Max(Quota(maxTotal, 60), 1)
            && KeyHits(r, k) <= Max(Quota(maxPerKey, 10), 0)
            && (forall h | h in r ::
                  && h.key != "" && h.values == [] && h.source == TextScan
                  && 1 <= h.lineIndex <= |lines| && lines[h.lineIndex - 1] == h.line
                  && exists j | 0 <= j < |ms| :: ms[j].key == h.key && Applies(ms[j], h.line))
            && (forall a, b | 0 <= a < b < |r| :: r[a].key != r[b].key || r[a].line != r[b].line)
            && (forall a, b | 0 <= a < b < |r| :: r[a].lineIndex <= r[b].lineIndex)
  {
    var lines := Lines(text);
    var perKey := Quota(maxPerKey, 10);
    var total := Quota(maxTotal, 60);
    var cands := TextCands(lines, ms);
    var s := Select(cands, perKey, total);
    var r := Hits(s.out);
    SelectInv(cands, perKey, total);
    KeyHitsOfHits(s.out, k);
    SelectSubseq(cands, perKey, total);
    SubseqMembers(s.out, cands);
    assert lines[..|lines|] == lines;
    TextCandsOk(lines, |lines|, ms);
    forall h | h in r
      ensures && h.key != "" && h.values == [] && h.source == TextScan
              && 1 <= h.lineIndex <= |lines| && lines[h.lineIndex - 1] == h.line
              && exists j | 0 <= j < |ms| :: ms[j].key == h.key && Applies(ms[j], h.line)
    {
      var a :| 0 <= a < |r| && r[a] == h;
      assert s.out[a] in cands;
    }
    forall a, b | 0 <= a < b < |r| ensures r[a].key != r[b].key || r[a].line != r[b].line {
      assert s.out[a] in cands && s.out[b] in cands;
    }
    TextCandsOrdered(lines, ms);
    SubseqOrdered(s.out, cands);
  }

  lemma {:induction false} LineCandsIndex(line: string, index: nat, ms: seq<Matcher>)
    ensures forall c | c in LineCands(line, index, ms) :: c.hit.lineIndex == index
  {
    if ms != [] {
      LineCandsIndex(line, index, ms[..|ms| - 1]);
    }
  }

  lemma {:induction false} TextCandsIndexBound(lines: seq<string>, ms: seq<Matcher>)
    ensures forall c | c in TextCands(lines, ms) :: c.hit.lineIndex <= |lines|
  {
    if lines != [] {
      TextCandsIndexBound(lines[..|lines| - 1], ms);
      LineCandsIndex(lines[|lines| - 1], |lines|, ms);
    }
  }

  lemma {:induction false} TextCandsOrdered(lines: seq<string>, ms: seq<Matcher>)
    ensures Ordered(TextCands(lines, ms))
  {
    if lines != [] {
      var init := lines[..|lines| - 1];
      TextCandsOrdered(init, ms);
      TextCandsIndexBound(init, ms);
      LineCandsIndex(lines[|lines| - 1], |lines|, ms);
      var a := TextCands(init, ms);
      var b := LineCands(lines[|lines| - 1], |lines|, ms);
      var all := a + b;
      forall x, y | 0 <= x < y < |all| ensures all[x].hit.lineIndex <= all[y].hit.lineIndex {
        if y < |a| {
          assert all[x] == a[x] && all[y] == a[y];
        } else if x < |a| {
          assert all[x] in a && all[y] in b;
        } else {
          assert all[x] in b && all[y] in b;
        }
      }
    }
  }

  /** Nothing is left out without a reason: for every line and applying
      matcher with a key, the result has a hit with the same dedupe key, or
      the key has its quota, or the result has reached the total. */
  lemma ExtractMatchedLinesMaximal(text: string, ms: seq<Matcher>, maxPerKey: int, maxTotal: int, i: nat, j: nat)
    requires i < |Lines(text)| && j < |ms| && ms[j].key != "" && Applies(ms[j], Lines(text)[i])
    ensures var r := ExtractMatchedLines(text, ms, maxPerKey, maxTotal);
            var key := ms[j].key;
            || (exists h | h in r :: h.key + "|" + h.line == key + "|" + Lines(text)[i])
            || KeyHits(r, key) >= Quota(maxPerKey, 10)
            || |r| >= Quota(maxTotal, 60)
  {
    var lines := Lines(text);
    var perKey := Quota(maxPerKey, 10);
    var total := Quota(maxTotal, 60);
    var cands := TextCands(lines, ms);
    var s := Select(cands, perKey, total);
    var r := Hits(s.out);
    var c := TextCand(ms[j].key, lines[i], i + 1);
    TextCandsComplete(lines, ms, i, j);
    var n :| 0 <= n < |cands| && cands[n] == c;
    SelectMaximal(cands, n, perKey, total);
    SelectInv(cands, perKey, total);
    KeyHitsOfHits(s.out, ms[j].key);
    SelectSubseq(cands, perKey, total);
    SubseqMembers(s.out, cands);
    assert lines[..|lines|] == lines;
    TextCandsOk(lines, |lines|, ms);
    if c.dedupe in s.seen {
      DedupesMember(s.out, c.dedupe);
      var a :| 0 <= a < |s.out| && s.out[a].dedupe == c.dedupe;
      assert s.out[a] in cands;
      assert r[a] in r;
    }
  }

  /** The position of the first `|`, or the length. */
  function FirstBar(s: string): (n: nat)
    ensures n <= |s|
  {
    if s == [] || s[0] == '|' then 0 else 1 + FirstBar(s[1..])
  }

  lemma {:induction false} FirstBarOf(k: string, l: string)
    requires '|' !in k
    ensures FirstBar(k + "|" + l) == |k|
  {
    if k != [] {
      assert k[0] in k;
      assert '|' !in k[1..] by { assert forall c | c in k[1..] :: c in k; }
      FirstBarOf(k[1..], l);
      assert (k + "|" + l)[1..] == k[1..] + "|" + l;
    }
  }

  /** With keys free of `|`, the dedupe key `key|line` identifies the key and
      the line. */
  lemma DedupeKeyInjective(k1: string, l1: string, k2: string, l2: string)
    requires '|' !in k1 && '|' !in k2
    ensures k1 + "|" + l1 == k2 + "|" + l2 <==> k1 == k2 && l1 == l2
  {
    if k1 + "|" + l1 == k2 + "|" + l2 {
      var s := k1 + "|" + l1;
      FirstBarOf(k1, l1);
      FirstBarOf(k2, l2);
      assert k1 == s[..|k1|] && k2 == s[..|k2|];
      assert l1 == s[|k1| + 1..] && l2 == s[|k2| + 1..];
    }
  }
}
