/**
 * The candidates of the XY pipeline of src/pdfXYExtract.js, stated over
 * labelled rows: a row's text, the line its hits carry and its values by x
 * position. How a layout row gets its label is in module XyLines.
 */
module XyCandidates {
  import opened Strs
  import opened Keywords
  import opened Selection

  /** A row as the matcher loop sees it: the text the patterns test, the
      line (`lineWithoutNumbers(row.tokens) || rowText`) and the values. */
  datatype LRow = LRow(text: string, line: string, values: seq<string>)

  /** The candidate a matcher with key `key` makes of the row at 1-based
      index `index`; its dedupe key is `key|line|values joined by |`. */
  function XyCand(key: string, row: LRow, index: nat): Cand {
    Cand(Hit(key, row.line, index, row.values, PdfXy), key + "|" + row.line + "|" + Join("|", row.values))
  }

  /** `m.re && m.re.test(rowText)`, for a matcher with a key: a matcher
      without a pattern takes no row. */
  predicate Fires(m: Matcher, text: string) {
    m.key != "" && m.re.Some? && m.re.value(text)
  }

  /** The candidates of one row: nothing for an empty row text, otherwise one
      per matcher that fires on the row text, in matcher order. */
  function RowCands(row: LRow, index: nat, ms: seq<Matcher>): seq<Cand> {
    if ms == [] || row.text == "" then []
    else
      var m := ms[|ms| - 1];
      RowCands(row, index, ms[..|ms| - 1]) + (if Fires(m, row.text) then [XyCand(m.key, row, index)] else [])
  }

  /** The candidates of all rows, numbered from 1 across pages. */
  function XyCands(rows: seq<LRow>, ms: seq<Matcher>): seq<Cand> {
    if rows == [] then []
    else XyCands(rows[..|rows| - 1], ms) + RowCands(rows[|rows| - 1], |rows|, ms)
  }

  /** The rows as the matcher loop sees them, each labelled by `lab`. */
  function Labelled<R>(rows: seq<R>, lab: R -> LRow): (r: seq<LRow>)
    ensures |r| == |rows|
  {
    seq(|rows|, i requires 0 <= i < |rows| => lab(rows[i]))
  }

  lemma LabelledAt<R>(rows: seq<R>, lab: R -> LRow, i: nat)
    requires i < |rows|
    ensures Labelled(rows, lab)[i] == lab(rows[i])
  {
  }

  lemma LabelledAppend<R>(a: seq<R>, b: seq<R>, lab: R -> LRow)
    ensures Labelled(a + b, lab) == Labelled(a, lab) + Labelled(b, lab)
  {
    var l, r := Labelled(a + b, lab), Labelled(a, lab) + Labelled(b, lab);
    forall i | 0 <= i < |l| ensures l[i] == r[i] {
      if i < |a| {
        LabelledAt(a, lab, i);
      } else {
        LabelledAt(b, lab, i - |a|);
      }
      LabelledAt(a + b, lab, i);
    }
  }

  lemma LabelledPrefix<R>(a: seq<R>, b: seq<R>, lab: R -> LRow)
    requires a <= b
    ensures Labelled(a, lab) <= Labelled(b, lab)
  {
    assert b == a + b[|a|..];
    LabelledAppend(a, b[|a|..], lab);
  }

  // ---------------------------------------------------------------------------
  // Prefixes and steps, for the loops

  lemma {:induction false} RowCandsPrefix(row: LRow, index: nat, ms: seq<Matcher>, j: nat)
    requires j <= |ms|
    ensures RowCands(row, index, ms[..j]) <= RowCands(row, index, ms)
  {
    if j < |ms| {
      assert ms[..|ms| - 1][..j] == ms[..j];
      RowCandsPrefix(row, index, ms[..|ms| - 1], j);
    } else {
      assert ms[..j] == ms;
    }
  }

  lemma {:induction false} XyCandsPrefix(rows: seq<LRow>, ms: seq<Matcher>, n: nat)
    requires n <= |rows|
    ensures XyCands(rows[..n], ms) <= XyCands(rows, ms)
  {
    if n < |rows| {
      assert rows[..|rows| - 1][..n] == rows[..n];
      XyCandsPrefix(rows[..|rows| - 1], ms, n);
    } else {
      assert rows[..n] == rows;
    }
  }

  lemma NextRow(before: seq<LRow>, row: LRow, ms: seq<Matcher>)
    ensures XyCands(before + [row], ms) == XyCands(before, ms) + RowCands(row, |before| + 1, ms[..|ms|])
  {
    assert ms[..|ms|] == ms;
    var rs := before + [row];
    assert rs[..|rs| - 1] == before && rs[|rs| - 1] == row;
    assert XyCands(rs, ms) == XyCands(rs[..|rs| - 1], ms) + RowCands(rs[|rs| - 1], |rs|, ms);
  }

  lemma TakeSnoc<T>(xs: seq<T>, r: nat)
    requires r < |xs|
    ensures xs[..r + 1] == xs[..r] + [xs[r]]
  {
  }

  lemma PrefixAppend<T>(a: seq<T>, x: seq<T>, y: seq<T>, all: seq<T>)
    requires x <= y && a + y <= all
    ensures a + x <= all
  {
    assert (a + y)[..|a + x|] == a + x;
  }

  /** The candidates offered by the time matcher `k` of the next row is
      reached are a prefix of all candidates. */
  lemma RowPointPrefix(all: seq<LRow>, before: seq<LRow>, row: LRow, ms: seq<Matcher>, k: nat)
    requires before + [row] <= all && k <= |ms|
    ensures XyCands(before, ms) + RowCands(row, |before| + 1, ms[..k]) <= XyCands(all, ms)
  {
    var n := |before| + 1;
    assert all[..n] == before + [row];
    NextRow(before, row, ms);
    assert ms[..|ms|] == ms;
    RowCandsPrefix(row, n, ms, k);
    XyCandsPrefix(all, ms, n);
    PrefixAppend(XyCands(before, ms), RowCands(row, n, ms[..k]), RowCands(row, n, ms), XyCands(all, ms));
  }

  lemma OfferRowStep(before: seq<Cand>, row: LRow, index: nat, ms: seq<Matcher>, j: nat, perKey: int, total: int)
    requires j < |ms| && row.text != ""
    ensures var s := Select(before + RowCands(row, index, ms[..j]), perKey, total);
            var m := ms[j];
            Select(before + RowCands(row, index, ms[..j + 1]), perKey, total)
              == if Fires(m, row.text) then Offer(s, XyCand(m.key, row, index), perKey, total) else s
  {
    var m := ms[j];
    var prefix := before + RowCands(row, index, ms[..j]);
    assert ms[..j + 1][..j] == ms[..j];
    if Fires(m, row.text) {
      var c := XyCand(m.key, row, index);
      assert before + RowCands(row, index, ms[..j + 1]) == prefix + [c];
      assert (prefix + [c])[..|prefix|] == prefix;
    } else {
      assert before + RowCands(row, index, ms[..j + 1]) == prefix;
    }
  }

  lemma LabelledSnoc<R>(rows: seq<R>, lab: R -> LRow, r: nat)
    requires r < |rows|
    ensures Labelled(rows[..r + 1], lab) == Labelled(rows[..r], lab) + [lab(rows[r])]
  {
    TakeSnoc(rows, r);
    LabelledAppend(rows[..r], [rows[r]], lab);
    assert Labelled([rows[r]], lab) == [lab(rows[r])] by {
      assert [rows[r]][..0] == [];
    }
  }

  lemma AppendAssoc<T>(a: seq<T>, b: seq<T>, c: seq<T>)
    ensures (a + b) + c == a + (b + c)
  {
  }

  lemma RowsStep<R>(all: seq<LRow>, before: seq<LRow>, rows: seq<R>, lab: R -> LRow, r: nat)
    requires before + Labelled(rows, lab) <= all && r < |rows|
    ensures (before + Labelled(rows[..r], lab)) + [lab(rows[r])] == before + Labelled(rows[..r + 1], lab)
    ensures (before + Labelled(rows[..r], lab)) + [lab(rows[r])] <= all
  {
    LabelledSnoc(rows, lab, r);
    AppendAssoc(before, Labelled(rows[..r], lab), [lab(rows[r])]);
    LabelledPrefix(rows[..r + 1], rows, lab);
    PrefixAppend(before, Labelled(rows[..r + 1], lab), Labelled(rows, lab), all);
  }

  /** Stopping inside a row gives the selection of all candidates. */
  lemma StopInRow(all: seq<LRow>, before: seq<LRow>, row: LRow, ms: seq<Matcher>, k: nat, perKey: int, total: int)
    requires before + [row] <= all && k <= |ms|
    requires Select(XyCands(before, ms) + RowCands(row, |before| + 1, ms[..k]), perKey, total).done
    ensures Select(XyCands(all, ms), perKey, total)
         == Select(XyCands(before, ms) + RowCands(row, |before| + 1, ms[..k]), perKey, total)
  {
    RowPointPrefix(all, before, row, ms, k);
    var prefix := XyCands(before, ms) + RowCands(row, |before| + 1, ms[..k]);
    var cands := XyCands(all, ms);
    assert cands == prefix + cands[|prefix|..];
    SelectAfterDone(prefix, cands[|prefix|..], perKey, total);
  }

  // ---------------------------------------------------------------------------
  // What the candidates are

  /** Every XY candidate: the row at its 1-based index has a non-empty text a
      matcher with the candidate's key fires on, and the candidate carries
      that row's line and values. */
  predicate XyCandOk(c: Cand, rows: seq<LRow>, ms: seq<Matcher>) {
    && 1 <= c.hit.lineIndex <= |rows|
    && var row := rows[c.hit.lineIndex - 1];
    && c == XyCand(c.hit.key, row, c.hit.lineIndex)
    && row.text != ""
    && exists j | 0 <= j < |ms| :: ms[j].key == c.hit.key && Fires(ms[j], row.text)
  }

  lemma {:induction false} RowCandsOk(rows: seq<LRow>, i: nat, ms: seq<Matcher>, k: nat)
    requires i < |rows| && k <= |ms|
    ensures forall c | c in RowCands(rows[i], i + 1, ms[..k]) :: XyCandOk(c, rows, ms)
  {
    if k > 0 && rows[i].text != "" {
      assert ms[..k][..k - 1] == ms[..k - 1];
      RowCandsOk(rows, i, ms, k - 1);
    }
  }

  lemma {:induction false} XyCandsOk(rows: seq<LRow>, n: nat, ms: seq<Matcher>)
    requires n <= |rows|
    ensures forall c | c in XyCands(rows[..n], ms) :: XyCandOk(c, rows, ms)
  {
    if n > 0 {
      assert rows[..n][..n - 1] == rows[..n - 1];
      XyCandsOk(rows, n - 1, ms);
      RowCandsOk(rows, n - 1, ms, |ms|);
      assert ms[..|ms|] == ms;
    }
  }

  lemma {:induction false} RowCandsIndex(row: LRow, index: nat, ms: seq<Matcher>)
    ensures forall c | c in RowCands(row, index, ms) :: c.hit.lineIndex == index
  {
    if ms != [] && row.text != "" {
      RowCandsIndex(row, index, ms[..|ms| - 1]);
    }
  }

  lemma {:induction false} XyCandsIndexBound(rows: seq<LRow>, ms: seq<Matcher>)
    ensures forall c | c in XyCands(rows, ms) :: c.hit.lineIndex <= |rows|
  {
    if rows != [] {
      XyCandsIndexBound(rows[..|rows| - 1], ms);
      RowCandsIndex(rows[|rows| - 1], |rows|, ms);
    }
  }

  /** The candidates come in row order. */
  lemma {:induction false} XyCandsOrdered(rows: seq<LRow>, ms: seq<Matcher>)
    ensures Ordered(XyCands(rows, ms))
  {
    if rows != [] {
      var init := rows[..|rows| - 1];
      XyCandsOrdered(init, ms);
      XyCandsIndexBound(init, ms);
      RowCandsIndex(rows[|rows| - 1], |rows|, ms);
      var a := XyCands(init, ms);
      var b := RowCands(rows[|rows| - 1], |rows|, ms);
      var all := a + b;
      forall x, y | 0 <= x < y < |all| ensures all[x].hit.lineIndex <= all[y].hit.lineIndex {
        if y < |a| {
          assert all[x] == a[x] && all[y] == a[y];
        } else if x < |a| {
          assert all[x] in a && all[y] in b;
        } else {
          assert all[x] in b && all[y] in b;
        }
      }
    }
  }

  /** The dedupe key of an XY hit. */
  function XyDedupe(h: Hit): string {
    h.key + "|" + h.line + "|" + Join("|", h.values)
  }

  /** The selection over the candidates: at most `perKey` hits per key and
      `total` in all, no two with the same dedupe key, in row order, and
      each one a candidate of its row. */
  lemma SelectXyFacts(rows: seq<LRow>, ms: seq<Matcher>, perKey: int, total: int, k: string)
    ensures var r := Hits(Select(XyCands(rows, ms), perKey, total).out);
            && |r| <= Max(total, 1)
            && KeyHits(r, k) <= Max(perKey, 0)
            && (forall a, b | 0 <= a < b < |r| :: XyDedupe(r[a]) != XyDedupe(r[b]))
            && (forall a, b | 0 <= a < b < |r| :: r[a].lineIndex <= r[b].lineIndex)
            && (forall a | 0 <= a < |r| :: XyCandOk(Select(XyCands(rows, ms), perKey, total).out[a], rows, ms))
  {
    var cands := XyCands(rows, ms);
    var s := Select(cands, perKey, total);
    var r := Hits(s.out);
    SelectInv(cands, perKey, total);
    KeyHitsOfHits(s.out, k);
    SelectSubseq(cands, perKey, total);
    SubseqMembers(s.out, cands);
    assert rows[..|rows|] == rows;
    XyCandsOk(rows, |rows|, ms);
    forall a | 0 <= a < |r| ensures XyCandOk(s.out[a], rows, ms) {
      assert s.out[a] in cands;
    }
    forall a, b | 0 <= a < b < |r| ensures XyDedupe(r[a]) != XyDedupe(r[b]) {
      assert XyCandOk(s.out[a], rows, ms) && XyCandOk(s.out[b], rows, ms);
    }
    XyCandsOrdered(rows, ms);
    SubseqOrdered(s.out, cands);
  }
}
