/**
 * The line selection shared by `extractMatchedLines` (src/scraper.js) and
 * `extractMatchedLinesFromPdfBufferXY` (src/pdfXYExtract.js): candidates are
 * offered in order; one is skipped when its key already has its quota or its
 * dedupe key was seen, otherwise it is appended, and the scan stops as soon as
 * the output reaches the total.
 */
module Selection {
  import opened Strs

  /** Where a matched line comes from: the text pipeline or the XY pipeline. */
  datatype Source = TextScan | PdfXy

  /** A matched line: `{ key, line, lineIndex, values, source }`. Text hits
      carry no values (the JavaScript object has no `values` field). */
  datatype Hit = Hit(key: string, line: string, lineIndex: nat, values: seq<string>, source: Source)

  /** A candidate hit and its dedupe key. */
  datatype Cand = Cand(hit: Hit, dedupe: string)

  /** The selection state: the chosen candidates, the per-key counts, the
      seen dedupe keys, and whether the total was reached. */
  datatype Sel = Sel(out: seq<Cand>, counts: map<string, int>, seen: set<string>, done: bool)

  /** `Number(v || d)`: an absent or zero option takes the default. */
  function Quota(v: int, d: int): (r: int)
    ensures v != 0 ==> r == v
    ensures v == 0 ==> r == d
  {
    if v == 0 then d else v
  }

  function Max(a: int, b: int): int { if a >= b then a else b }

  /** `counts.get(key) || 0`. */
  function CountOf(counts: map<string, int>, k: string): int {
    if k in counts then counts[k] else 0
  }

  function Hits(cs: seq<Cand>): (r: seq<Hit>)
    ensures |r| == |cs| && forall i {:trigger r[i]} | 0 <= i < |cs| :: r[i] == cs[i].hit
  {
    if cs == [] then [] else Hits(cs[..|cs| - 1]) + [cs[|cs| - 1].hit]
  }

  /** One candidate offered to the selection. */
  function Offer(s: Sel, c: Cand, perKey: int, total: int): Sel {
    if s.done then s
    else
      var cnt := CountOf(s.counts, c.hit.key);
      if cnt >= perKey || c.dedupe in s.seen then s
      else
        var out := s.out + [c];
        Sel(out, s.counts[c.hit.key := cnt + 1], s.seen + {c.dedupe}, |out| >= total)
  }

  const Start := Sel([], map[], {}, false)

  /** The selection after offering every candidate in order. */
  function Select(cands: seq<Cand>, perKey: int, total: int): Sel {
    if cands == [] then Start
    else Offer(Select(cands[..|cands| - 1], perKey, total), cands[|cands| - 1], perKey, total)
  }

  // ---------------------------------------------------------------------------
  // What the selection keeps

  /** The number of chosen candidates with key `k`. */
  function KeyCount(out: seq<Cand>, k: string): (n: nat)
    ensures n <= |out|
  {
    if out == [] then 0 else KeyCount(out[..|out| - 1], k) + (if out[|out| - 1].hit.key == k then 1 else 0)
  }

  function Dedupes(out: seq<Cand>): set<string> {
    if out == [] then {} else Dedupes(out[..|out| - 1]) + {out[|out| - 1].dedupe}
  }

  predicate DistinctDedupes(out: seq<Cand>) {
    forall i, j | 0 <= i < j < |out| :: out[i].dedupe != out[j].dedupe
  }

  /** The invariant the selection keeps: the counts are the per-key numbers of
      chosen candidates and never exceed the quota, the seen set is exactly the
      chosen dedupe keys and no two chosen candidates share one, and the
      output stops at the total (at least one line is taken before the total
      is checked). */
  ghost predicate Inv(s: Sel, perKey: int, total: int) {
    && (forall k :: CountOf(s.counts, k) == KeyCount(s.out, k))
    && (forall k :: KeyCount(s.out, k) <= Max(perKey, 0))
    && s.seen == Dedupes(s.out)
    && DistinctDedupes(s.out)
    && (s.done <==> s.out != [] && |s.out| >= total)
    && |s.out| <= Max(total, 1)
  }

  lemma {:induction false} DedupesMember(out: seq<Cand>, d: string)
    ensures d in Dedupes(out) <==> exists i | 0 <= i < |out| :: out[i].dedupe == d
  {
    if out != [] {
      var init := out[..|out| - 1];
      DedupesMember(init, d);
      assert forall i | 0 <= i < |init| :: init[i] == out[i];
      if d in Dedupes(init) {
        var i :| 0 <= i < |init| && init[i].dedupe == d;
        assert out[i].dedupe == d;
      }
    }
  }

  lemma OfferKeepsInv(s: Sel, c: Cand, perKey: int, total: int)
    requires Inv(s, perKey, total)
    ensures Inv(Offer(s, c, perKey, total), perKey, total)
  {
    var r := Offer(s, c, perKey, total);
    if r != s {
      var out := s.out + [c];
      assert out[..|out| - 1] == s.out;
      forall k ensures CountOf(r.counts, k) == KeyCount(r.out, k) && KeyCount(r.out, k) <= Max(perKey, 0) {
        assert CountOf(s.counts, k) == KeyCount(s.out, k);
      }
      DedupesMember(s.out, c.dedupe);
      forall i, j | 0 <= i < j < |out| ensures out[i].dedupe != out[j].dedupe {
        if j < |s.out| { assert out[i] == s.out[i] && out[j] == s.out[j]; }
        else { assert out[i] == s.out[i]; }
      }
    }
  }

  /** The selection keeps its invariant. */
  lemma {:induction false} SelectInv(cands: seq<Cand>, perKey: int, total: int)
    ensures Inv(Select(cands, perKey, total), perKey, total)
  {
    if cands != [] {
      SelectInv(cands[..|cands| - 1], perKey, total);
      OfferKeepsInv(Select(cands[..|cands| - 1], perKey, total), cands[|cands| - 1], perKey, total);
    }
  }

  /** Counts, seen keys and the stop flag only grow. */
  ghost predicate Grows(s: Sel, t: Sel) {
    && (forall k :: CountOf(s.counts, k) <= CountOf(t.counts, k))
    && s.seen <= t.seen
    && (s.done ==> t.done)
  }

  lemma {:induction false} SelectGrows(cands: seq<Cand>, n: nat, perKey: int, total: int)
    requires n <= |cands|
    ensures Grows(Select(cands[..n], perKey, total), Select(cands, perKey, total))
  {
    if n < |cands| {
      var init := cands[..|cands| - 1];
      assert init[..n] == cands[..n];
      SelectGrows(init, n, perKey, total);
    } else {
      assert cands[..n] == cands;
    }
  }

  /** Nothing is dropped without a reason: every candidate was chosen, or its
      dedupe key was chosen, or its key has its quota, or the total was
      reached. */
  lemma SelectMaximal(cands: seq<Cand>, i: nat, perKey: int, total: int)
    requires i < |cands|
    ensures var s := Select(cands, perKey, total);
            cands[i].dedupe in s.seen || CountOf(s.counts, cands[i].hit.key) >= perKey || s.done
  {
    var before := Select(cands[..i], perKey, total);
    var after := Select(cands[..i + 1], perKey, total);
    assert cands[..i + 1][..i] == cands[..i];
    SelectGrows(cands, i + 1, perKey, total);
    var c := cands[i];
    if !before.done && CountOf(before.counts, c.hit.key) < perKey && c.dedupe !in before.seen {
      assert c.dedupe in after.seen;
    }
    assert Grows(before, after) by {
      SelectGrows(cands[..i + 1], i, perKey, total);
    }
  }

  /** `a` is a subsequence of `b`. */
  predicate IsSubseq(a: seq<Cand>, b: seq<Cand>)
    decreases |b|
  {
    || a == []
    || (b != [] && a != [] && a[|a| - 1] == b[|b| - 1] && IsSubseq(a[..|a| - 1], b[..|b| - 1]))
    || (b != [] && IsSubseq(a, b[..|b| - 1]))
  }

  lemma {:induction false} SubseqMembers(a: seq<Cand>, b: seq<Cand>)
    requires IsSubseq(a, b)
    ensures forall x | x in a :: x in b
    decreases |b|
  {
    if a != [] {
      if b != [] && a[|a| - 1] == b[|b| - 1] && IsSubseq(a[..|a| - 1], b[..|b| - 1]) {
        SubseqMembers(a[..|a| - 1], b[..|b| - 1]);
        assert forall x | x in a :: x in a[..|a| - 1] || x == a[|a| - 1];
      } else {
        SubseqMembers(a, b[..|b| - 1]);
      }
    }
  }

  /** The chosen candidates are a subsequence of the candidates: the output
      keeps the scan order. */
  lemma {:induction false} SelectSubseq(cands: seq<Cand>, perKey: int, total: int)
    ensures IsSubseq(Select(cands, perKey, total).out, cands)
  {
    if cands != [] {
      var init := cands[..|cands| - 1];
      var s := Select(init, perKey, total);
      SelectSubseq(init, perKey, total);
      var r := Select(cands, perKey, total);
      if r.out != s.out {
        assert r.out == s.out + [cands[|cands| - 1]];
        assert r.out[..|r.out| - 1] == s.out;
      }
    }
  }

  /** Once the total is reached, later candidates change nothing. */
  lemma {:induction false} SelectAfterDone(cands: seq<Cand>, rest: seq<Cand>, perKey: int, total: int)
    requires Select(cands, perKey, total).done
    ensures Select(cands + rest, perKey, total) == Select(cands, perKey, total)
  {
    if rest != [] {
      var init := rest[..|rest| - 1];
      SelectAfterDone(cands, init, perKey, total);
      assert (cands + rest)[..|cands + rest| - 1] == cands + init;
    } else {
      assert cands + rest == cands;
    }
  }

  /** The number of hits with key `k`. */
  function KeyHits(hs: seq<Hit>, k: string): nat {
    if hs == [] then 0 else KeyHits(hs[..|hs| - 1], k) + (if hs[|hs| - 1].key == k then 1 else 0)
  }

  lemma {:induction false} KeyHitsOfHits(cs: seq<Cand>, k: string)
    ensures KeyHits(Hits(cs), k) == KeyCount(cs, k)
  {
    if cs != [] {
      KeyHitsOfHits(cs[..|cs| - 1], k);
      assert Hits(cs)[..|cs| - 1] == Hits(cs[..|cs| - 1]);
    }
  }

  /** Index order of a candidate list. */
  predicate Ordered(cs: seq<Cand>) {
    forall a, b | 0 <= a < b < |cs| :: cs[a].hit.lineIndex <= cs[b].hit.lineIndex
  }

  /** A subsequence of an ordered list is ordered. */
  lemma {:induction false} SubseqOrdered(a: seq<Cand>, b: seq<Cand>)
    requires IsSubseq(a, b) && Ordered(b)
    ensures Ordered(a)
    decreases |b|
  {
    if a != [] && b != [] {
      var b' := b[..|b| - 1];
      assert Ordered(b') by { assert forall x | 0 <= x < |b'| :: b'[x] == b[x]; }
      if a[|a| - 1] == b[|b| - 1] && IsSubseq(a[..|a| - 1], b') {
        var a' := a[..|a| - 1];
        SubseqOrdered(a', b');
        SubseqMembers(a', b');
        forall x, y | 0 <= x < y < |a| ensures a[x].hit.lineIndex <= a[y].hit.lineIndex {
          if y < |a'| {
            assert a[x] == a'[x] && a[y] == a'[y];
          } else {
            assert a[x] in b';
            var z :| 0 <= z < |b'| && b'[z] == a[x];
            assert b[z] == a[x] && b[|b| - 1] == a[y];
          }
        }
      } else {
        SubseqOrdered(a, b');
      }
    }
  }

  // ---------------------------------------------------------------------------
  // The loop body shared by both pipelines

  /** One candidate offered: the map and the set are updated in place of the
      JavaScript `Map` and `Set`. */
  method OfferStep(out: seq<Hit>, counts: map<string, int>, seen: set<string>, c: Cand, perKey: int, total: int,
                   ghost s: Sel)
    returns (out': seq<Hit>, counts': map<string, int>, seen': set<string>, done: bool, ghost s': Sel)
    requires !s.done && out == Hits(s.out) && counts == s.counts && seen == s.seen
    ensures s' == Offer(s, c, perKey, total)
    ensures out' == Hits(s'.out) && counts' == s'.counts && seen' == s'.seen && done == s'.done
  {
    s' := Offer(s, c, perKey, total);
    var key := c.hit.key;
    var cnt := if key in counts then counts[key] else 0;
    if cnt >= perKey || c.dedupe in seen {
      return out, counts, seen, false, s';
    }
    out' := out + [c.hit];
    seen' := seen + {c.dedupe};
    counts' := counts[key := cnt + 1];
    done := |out'| >= total;
    assert s'.out[..|s'.out| - 1] == s.out;
  }
}
