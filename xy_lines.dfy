/**
 * The XY pipeline of src/pdfXYExtract.js, `extractMatchedLinesFromPdfBufferXY`:
 * the text items of the first pages become tokens, the tokens of each page
 * are clustered into rows, and every row whose text a matcher's pattern
 * matches offers a hit with the row's label and its values by x position to
 * the shared selection. Rows are numbered across pages from 1.
 */
module XyLines {
  import opened Wrappers
  import opened Strs
  import opened Keywords
  import opened Selection
  import opened Layout
  import opened Columns
  import opened XyCandidates

  /** A text item of pdf.js: its string, its transform when it has one, its
      width and its height. */
  datatype Item = Item(str: string, transform: Option<seq<real>>, width: real, height: real)

  /** `tr[i] || 0`. */
  function At(tr: seq<real>, i: nat): real {
    if i < |tr| then tr[i] else 0.0
  }

  /** The token of an item, none when its normalised text is empty; a missing
      transform is the identity, a zero height falls back to the vertical
      scale and then to 8. */
  function ItemToken(it: Item): (r: Option<Token>)
    ensures r.Some? <==> NormalizeText(it.str) != ""
    ensures r.Some? ==> r.value.text == NormalizeText(it.str) && r.value.h != 0.0
  {
    var text := NormalizeText(it.str);
    if text == "" then None
    else
      var tr := if it.transform.Some? then it.transform.value else [1.0, 0.0, 0.0, 1.0, 0.0, 0.0];
      var h := if it.height != 0.0 then it.height else if Abs(At(tr, 3)) != 0.0 then Abs(At(tr, 3)) else 8.0;
      Some(Token(text, At(tr, 4), At(tr, 5), it.width, h))
  }

  /** The tokens of a page's items, in item order. */
  function PageTokens(items: seq<Item>): (r: seq<Token>)
    ensures |r| <= |items|
    ensures forall t | t in r :: t.text != "" && Normalized(t.text)
  {
    if items == [] then []
    else
      var t := ItemToken(items[|items| - 1]);
      PageTokens(items[..|items| - 1]) + (if t.Some? then [t.value] else [])
  }

  /** The token loop of one page. */
  method CollectTokens(items: seq<Item>) returns (tokens: seq<Token>)
    ensures tokens == PageTokens(items)
  {
    tokens := [];
    var i := 0;
    while i < |items|
      invariant i <= |items|
      invariant tokens == PageTokens(items[..i])
    {
      assert items[..i + 1][..i] == items[..i];
      var t := ItemToken(items[i]);
      if t.Some? {
        tokens := tokens + [t.value];
      }
      i := i + 1;
    }
    assert items[..i] == items;
  }

  /** The rows of one page: its tokens clustered into rows. */
  function PageRows(page: seq<Item>): seq<Row> {
    ClusterRows(PageTokens(page))
  }

  /** The rows of the pages, page after page, `rowsOf` giving a page's rows. */
  function Concat<P>(pages: seq<P>, rowsOf: P -> seq<Row>): seq<Row> {
    if pages == [] then [] else Concat(pages[..|pages| - 1], rowsOf) + rowsOf(pages[|pages| - 1])
  }

  /** The rows of the pages, page after page. */
  function AllRows(pages: seq<seq<Item>>): seq<Row> {
    Concat(pages, PageRows)
  }

  /** `Math.min(doc.numPages, Math.max(1, Number(maxPages || 12)))`. */
  function PageCount(numPages: nat, maxPages: int): (n: nat)
    ensures n <= numPages && (numPages > 0 ==> n >= 1)
  {
    var m := Max(1, Quota(maxPages, 12));
    if numPages <= m then numPages else m
  }

  // ---------------------------------------------------------------------------
  // Labels

  /** `lineWithoutNumbers(row.tokens) || rowText`. */
  function XyLine(row: Row): (r: string)
    ensures r == "" ==> row.text == ""
  {
    var l := LineWithoutNumbers(row.tokens);
    if l == "" then row.text else l
  }

  /** How the matcher loop sees a row, with `preferredCount` `pc`: its text,
      its label and its values by x position. */
  function XyLabel(pc: nat): Row -> LRow {
    (row: Row) => LRow(row.text, XyLine(row), ValuesByX(row.tokens, pc))
  }

  /** `extractMatchedLinesFromPdfBufferXY(pdf, matchers, opts)` with the
      document given as its pages' text items; an option given as 0 is
      absent. */
  function ExtractXy(pages: seq<seq<Item>>, ms: seq<Matcher>, maxPerKey: int, maxTotal: int, maxPages: int,
                     preferredCount: nat): seq<Hit>
  {
    if ms == [] then []
    else
      var rows := AllRows(pages[..PageCount(|pages|, maxPages)]);
      Hits(Select(XyCands(Labelled(rows, XyLabel(Quota(preferredCount, 2))), ms), Quota(maxPerKey, 10), Quota(maxTotal, 60)).out)
  }

  lemma {:induction false} ConcatPrefix<P>(pages: seq<P>, rowsOf: P -> seq<Row>, p: nat)
    requires p <= |pages|
    ensures Concat(pages[..p], rowsOf) <= Concat(pages, rowsOf)
  {
    if p < |pages| {
      assert pages[..|pages| - 1][..p] == pages[..p];
      ConcatPrefix(pages[..|pages| - 1], rowsOf, p);
    } else {
      assert pages[..p] == pages;
    }
  }

  // ---------------------------------------------------------------------------
  // The loops

  /** One matcher on one row: the row's label is computed and offered only
      when the matcher fires; the selection then holds the row's candidates
      of the first `j + 1` matchers. */
  method OfferMatcher(row: Row, index: nat, ms: seq<Matcher>, j: nat, labelOf: Row -> LRow, perKey: int, total: int,
                      out0: seq<Hit>, counts0: map<string, int>, seen0: set<string>,
                      ghost before: seq<Cand>, ghost s0: Sel)
    returns (out: seq<Hit>, counts: map<string, int>, seen: set<string>, done: bool, ghost s: Sel)
    requires j < |ms| && row.text != "" && labelOf(row).text == row.text
    requires s0 == Select(before + RowCands(labelOf(row), index, ms[..j]), perKey, total)
    requires !s0.done && out0 == Hits(s0.out) && counts0 == s0.counts && seen0 == s0.seen
    ensures s == Select(before + RowCands(labelOf(row), index, ms[..j + 1]), perKey, total)
    ensures out == Hits(s.out) && counts == s.counts && seen == s.seen && done == s.done
  {
    OfferRowStep(before, labelOf(row), index, ms, j, perKey, total);
    var m := ms[j];
    out, counts, seen, done, s := out0, counts0, seen0, false, s0;
    if m.key != "" && m.re.Some? && m.re.value(row.text) {
      var l := labelOf(row);
      var c := Cand(Hit(m.key, l.line, index, l.values, PdfXy), m.key + "|" + l.line + "|" + Join("|", l.values));
      out, counts, seen, done, s := OfferStep(out, counts, seen, c, perKey, total, s);
    }
  }

  /** The matcher loop of one row; it stops after `k` matchers when the total
      is reached. `labelOf` computes the row's line and values, which the loop
      does only for a matcher that fires. */
  method OfferRow(row: Row, index: nat, ms: seq<Matcher>, labelOf: Row -> LRow, perKey: int, total: int,
                  out0: seq<Hit>, counts0: map<string, int>, seen0: set<string>,
                  ghost before: seq<Cand>, ghost s0: Sel)
    returns (out: seq<Hit>, counts: map<string, int>, seen: set<string>, done: bool, ghost k: nat, ghost s: Sel)
    requires labelOf(row).text == row.text
    requires s0 == Select(before, perKey, total) && !s0.done
    requires out0 == Hits(s0.out) && counts0 == s0.counts && seen0 == s0.seen
    ensures k <= |ms| && s == Select(before + RowCands(labelOf(row), index, ms[..k]), perKey, total)
    ensures out == Hits(s.out) && counts == s.counts && seen == s.seen && done == s.done
    ensures !done ==> k == |ms|
  {
    ghost var lr := labelOf(row);
    out, counts, seen, done, s := out0, counts0, seen0, false, s0;
    if row.text == "" {
      assert before + RowCands(lr, index, ms[..|ms|]) == before;
      return out, counts, seen, done, |ms|, s;
    }
    var j := 0;
    assert before + RowCands(lr, index, ms[..0]) == before;
    while j < |ms|
      invariant j <= |ms|
      invariant s == Select(before + RowCands(lr, index, ms[..j]), perKey, total) && !s.done
      invariant out == Hits(s.out) && counts == s.counts && seen == s.seen
    {
      out, counts, seen, done, s := OfferMatcher(row, index, ms, j, labelOf, perKey, total, out, counts, seen, before, s);
      if done {
        return out, counts, seen, done, j + 1, s;
      }
      j := j + 1;
    }
    k := j;
  }

  /** The next row of a page, after the rows `seenRows`. */
  method OfferNextRow(row: Row, ghost all: seq<LRow>, ghost seenRows: seq<LRow>, ms: seq<Matcher>, labelOf: Row -> LRow,
                      perKey: int, total: int, index: nat,
                      out0: seq<Hit>, counts0: map<string, int>, seen0: set<string>, ghost s0: Sel)
    returns (out: seq<Hit>, counts: map<string, int>, seen: set<string>, done: bool, ghost s: Sel)
    requires labelOf(row).text == row.text
    requires seenRows + [labelOf(row)] <= all && index == |seenRows| + 1
    requires s0 == Select(XyCands(seenRows, ms), perKey, total) && !s0.done
    requires out0 == Hits(s0.out) && counts0 == s0.counts && seen0 == s0.seen
    ensures out == Hits(s.out) && counts == s.counts && seen == s.seen && done == s.done
    ensures done ==> s == Select(XyCands(all, ms), perKey, total)
    ensures !done ==> s == Select(XyCands(seenRows + [labelOf(row)], ms), perKey, total)
  {
    ghost var k;
    out, counts, seen, done, k, s := OfferRow(row, index, ms, labelOf, perKey, total, out0, counts0, seen0,
                                              XyCands(seenRows, ms), s0);
    if done {
      StopInRow(all, seenRows, labelOf(row), ms, k, perKey, total);
    } else {
      NextRow(seenRows, labelOf(row), ms);
    }
  }

  /** The row loop of one page. */
  method OfferPage(rows: seq<Row>, ghost all: seq<LRow>, ghost before: seq<LRow>, ms: seq<Matcher>, labelOf: Row -> LRow,
                   perKey: int, total: int, globalLine0: nat,
                   out0: seq<Hit>, counts0: map<string, int>, seen0: set<string>, ghost s0: Sel)
    returns (out: seq<Hit>, counts: map<string, int>, seen: set<string>, done: bool, globalLine: nat, ghost s: Sel)
    requires forall row {:trigger labelOf(row)} :: labelOf(row).text == row.text
    requires before + Labelled(rows, labelOf) <= all && globalLine0 == |before|
    requires s0 == Select(XyCands(before, ms), perKey, total) && !s0.done
    requires out0 == Hits(s0.out) && counts0 == s0.counts && seen0 == s0.seen
    ensures out == Hits(s.out) && counts == s.counts && seen == s.seen && done == s.done
    ensures done ==> s == Select(XyCands(all, ms), perKey, total)
    ensures !done ==> s == Select(XyCands(before + Labelled(rows, labelOf), ms), perKey, total)
    ensures !done ==> globalLine == |before| + |rows|
  {
    out, counts, seen, done, s := out0, counts0, seen0, false, s0;
    globalLine := globalLine0;
    var r := 0;
    assert before + Labelled(rows[..0], labelOf) == before;
    while r < |rows|
      invariant r <= |rows| && globalLine == |before| + r
      invariant s == Select(XyCands(before + Labelled(rows[..r], labelOf), ms), perKey, total) && !s.done
      invariant out == Hits(s.out) && counts == s.counts && seen == s.seen
    {
      ghost var seenRows := before + Labelled(rows[..r], labelOf);
      RowsStep(all, before, rows, labelOf, r);
      globalLine := globalLine + 1;
      out, counts, seen, done, s := OfferNextRow(rows[r], all, seenRows, ms, labelOf, perKey, total, globalLine,
                                                 out, counts, seen, s);
      if done {
        return;
      }
      r := r + 1;
    }
    assert rows[..r] == rows;
  }

  lemma PageStep<P>(pages: seq<P>, rowsOf: P -> seq<Row>, pageCount: nat, p: nat, lab: Row -> LRow)
    requires p < pageCount <= |pages|
    ensures Labelled(Concat(pages[..p], rowsOf), lab) + Labelled(rowsOf(pages[p]), lab)
         == Labelled(Concat(pages[..p + 1], rowsOf), lab)
    ensures Labelled(Concat(pages[..p + 1], rowsOf), lab) <= Labelled(Concat(pages[..pageCount], rowsOf), lab)
  {
    ConcatStep(pages, rowsOf, pageCount, p);
    LabelledAppend(Concat(pages[..p], rowsOf), rowsOf(pages[p]), lab);
    LabelledPrefix(Concat(pages[..p + 1], rowsOf), Concat(pages[..pageCount], rowsOf), lab);
  }

  lemma ConcatStep<P>(pages: seq<P>, rowsOf: P -> seq<Row>, pageCount: nat, p: nat)
    requires p < pageCount <= |pages|
    ensures Concat(pages[..p + 1], rowsOf) == Concat(pages[..p], rowsOf) + rowsOf(pages[p])
    ensures Concat(pages[..p + 1], rowsOf) <= Concat(pages[..pageCount], rowsOf)
  {
    assert pages[..p + 1][..p] == pages[..p];
    assert pages[..pageCount][..p + 1] == pages[..p + 1];
    ConcatPrefix(pages[..pageCount], rowsOf, p + 1);
  }

  /** `extractMatchedLinesFromPdfBufferXY`: the page loop, with the early
      return at the total. */
  method ExtractXyLoop(pages: seq<seq<Item>>, ms: seq<Matcher>, maxPerKey: int, maxTotal: int, maxPages: int,
                       preferredCount: nat)
    returns (out: seq<Hit>)
    ensures out == ExtractXy(pages, ms, maxPerKey, maxTotal, maxPages, preferredCount)
  {
    out := [];
    if |ms| == 0 {
      return;
    }
    var perKey := Quota(maxPerKey, 10);
    var total := Quota(maxTotal, 60);
    var pc := Quota(preferredCount, 2);
    var pageCount := PageCount(|pages|, maxPages);
    ghost var all := Labelled(AllRows(pages[..pageCount]), XyLabel(pc));
    var counts: map<string, int> := map[];
    var seen: set<string> := {};
    var globalLine := 0;
    ghost var s := Start;
    var p := 0;
    assert pages[..0] == [];
    while p < pageCount
      invariant p <= pageCount && globalLine == |AllRows(pages[..p])|
      invariant s == Select(XyCands(Labelled(AllRows(pages[..p]), XyLabel(pc)), ms), perKey, total) && !s.done
      invariant out == Hits(s.out) && counts == s.counts && seen == s.seen
    {
      var tokens := CollectTokens(pages[p]);
      var rows := ClusterRowsMethod(tokens);
      PageStep(pages, PageRows, pageCount, p, XyLabel(pc));
      var done;
      out, counts, seen, done, globalLine, s := OfferPage(rows, all, Labelled(AllRows(pages[..p]), XyLabel(pc)), ms, XyLabel(pc),
                                                          perKey, total, globalLine, out, counts, seen, s);
      if done {
        return;
      }
      p := p + 1;
    }
    assert pages[..p] == pages[..pageCount];
  }

  // ---------------------------------------------------------------------------
  // What the XY pipeline returns

  /** What each XY hit is: a row of the first pages at its 1-based index
      whose non-empty text a matcher of the hit's key fires on, carrying the
      row's label `lab(row)`: its line and its values. */
  ghost predicate XyHitOk(h: Hit, rows: seq<Row>, ms: seq<Matcher>, lab: Row -> LRow) {
    && h.source == PdfXy && 1 <= h.lineIndex <= |rows|
    && var row := rows[h.lineIndex - 1];
    && row.text != "" && h.line == lab(row).line && h.values == lab(row).values
    && exists j | 0 <= j < |ms| :: ms[j].key == h.key && Fires(ms[j], row.text)
  }

  lemma CandToHit(c: Cand, rows: seq<Row>, ms: seq<Matcher>, lab: Row -> LRow)
    requires forall row {:trigger lab(row)} :: lab(row).text == row.text
    requires XyCandOk(c, Labelled(rows, lab), ms)
    ensures XyHitOk(c.hit, rows, ms, lab)
  {
    var i := c.hit.lineIndex - 1;
    var lr := Labelled(rows, lab)[i];
    assert lr == lab(rows[i]);
    assert c.hit == Hit(c.hit.key, lr.line, c.hit.lineIndex, lr.values, PdfXy) by {
      assert c == XyCand(c.hit.key, lr, c.hit.lineIndex);
    }
  }

  /** The XY pipeline's result: nothing without matchers; every hit is a
      matching row's label and values; at most `maxLinesPerKey` (default 10)
      hits per key and `maxTotalLines` (default 60) in all; no two hits share
      a dedupe key; and the hits are in row order. */
  lemma ExtractXyFacts(pages: seq<seq<Item>>, ms: seq<Matcher>, maxPerKey: int, maxTotal: int, maxPages: int,
                       preferredCount: nat, k: string)
    ensures var r := ExtractXy(pages, ms, maxPerKey, maxTotal, maxPages, preferredCount);
            && (ms == [] ==> r == [])
            && |r| <= Max(Quota(maxTotal, 60), 1)
            && KeyHits(r, k) <= Max(Quota(maxPerKey, 10), 0)
            && (forall a, b | 0 <= a < b < |r| :: XyDedupe(r[a]) != XyDedupe(r[b]))
            && (forall a, b | 0 <= a < b < |r| :: r[a].lineIndex <= r[b].lineIndex)
            && (forall a | 0 <= a < |r| ::
                  XyHitOk(r[a], AllRows(pages[..PageCount(|pages|, maxPages)]), ms, XyLabel(Quota(preferredCount, 2))))
  {
    if ms != [] {
      var rows := AllRows(pages[..PageCount(|pages|, maxPages)]);
      var pc := Quota(preferredCount, 2);
      SelectXyFacts(Labelled(rows, XyLabel(pc)), ms, Quota(maxPerKey, 10), Quota(maxTotal, 60), k);
      ExtractXyHitsOk(pages, ms, maxPerKey, maxTotal, maxPages, preferredCount);
    }
  }

  /** Every XY hit comes from a row some matcher fires on and carries that
      row's line and values. */
  lemma ExtractXyHitsOk(pages: seq<seq<Item>>, ms: seq<Matcher>, maxPerKey: int, maxTotal: int, maxPages: int,
                        preferredCount: nat)
    ensures var r := ExtractXy(pages, ms, maxPerKey, maxTotal, maxPages, preferredCount);
            forall a | 0 <= a < |r| ::
              XyHitOk(r[a], AllRows(pages[..PageCount(|pages|, maxPages)]), ms, XyLabel(Quota(preferredCount, 2)))
  {
    var r := ExtractXy(pages, ms, maxPerKey, maxTotal, maxPages, preferredCount);
    var rows := AllRows(pages[..PageCount(|pages|, maxPages)]);
    var pc := Quota(preferredCount, 2);
    if ms != [] {
      var perKey := Quota(maxPerKey, 10);
      var total := Quota(maxTotal, 60);
      SelectXyFacts(Labelled(rows, XyLabel(pc)), ms, perKey, total, "");
      var s := Select(XyCands(Labelled(rows, XyLabel(pc)), ms), perKey, total);
      assert forall row {:trigger XyLabel(pc)(row)} :: XyLabel(pc)(row).text == row.text;
      assert r == Hits(s.out);
      forall a | 0 <= a < |r| ensures XyHitOk(r[a], rows, ms, XyLabel(pc)) {
        assert r[a] == s.out[a].hit;
        CandToHit(s.out[a], rows, ms, XyLabel(pc));
      }
    }
  }

  /** Every value of an XY hit is non-empty normalised text. */
  lemma ExtractXyValuesClean(pages: seq<seq<Item>>, ms: seq<Matcher>, maxPerKey: int, maxTotal: int, maxPages: int,
                             preferredCount: nat)
    ensures forall h, v | h in ExtractXy(pages, ms, maxPerKey, maxTotal, maxPages, preferredCount) && v in h.values ::
              v != "" && Normalized(v)
  {
    var r := ExtractXy(pages, ms, maxPerKey, maxTotal, maxPages, preferredCount);
    ExtractXyHitsOk(pages, ms, maxPerKey, maxTotal, maxPages, preferredCount);
    HitsClean(r, AllRows(pages[..PageCount(|pages|, maxPages)]), ms, Quota(preferredCount, 2));
  }

  /** An XY hit carries the values by x position of its row. */
  lemma HitValues(h: Hit, rows: seq<Row>, ms: seq<Matcher>, pc: nat)
    requires XyHitOk(h, rows, ms, XyLabel(pc))
    ensures 1 <= h.lineIndex <= |rows| && h.values == ValuesByX(rows[h.lineIndex - 1].tokens, pc)
  {
  }

  lemma HitValuesClean(h: Hit, rows: seq<Row>, ms: seq<Matcher>, pc: nat)
    requires XyHitOk(h, rows, ms, XyLabel(pc))
    ensures forall v | v in h.values :: v != "" && Normalized(v)
  {
    HitValues(h, rows, ms, pc);
    ValuesByXClean(rows[h.lineIndex - 1].tokens, pc);
  }

  lemma HitsClean(r: seq<Hit>, rows: seq<Row>, ms: seq<Matcher>, pc: nat)
    requires forall a | 0 <= a < |r| :: XyHitOk(r[a], rows, ms, XyLabel(pc))
    ensures forall h, v | h in r && v in h.values :: v != "" && Normalized(v)
  {
    forall h, v | h in r && v in h.values ensures v != "" && Normalized(v) {
      var a :| 0 <= a < |r| && r[a] == h;
      HitValuesClean(h, rows, ms, pc);
    }
  }
}
