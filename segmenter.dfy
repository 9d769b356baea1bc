/**
 * `splitGroupedNumberRun`: splits a run of digits and spaces such as
 * "4 990 429 295 000" into separate space-grouped values. The repository keeps
 * three copies (src/pdfXYExtract.js, src/scraper.js,
 * scripts/backfill_matched_lines.js); they differ only in that the scraper copy
 * tries a family of footnote-digit repairs before the dynamic program, so the
 * model is one function with a `repairs` flag.
 *
 * Costs are exact integers scaled by 20 (1.2 -> 24, 0.1 -> 2, 0.6 -> 12,
 * 0.15 -> 3, 4 -> 80, 2 -> 40); the forward DP keeps the first candidate found
 * on ties, in the order `i` ascending and `len` in [2, 3, 1, 4].
 */
module Segmenter {
  import opened Wrappers
  import opened Strs

  predicate IsSign(c: char) { c == '+' || c == '-' }

  /** `s.replace(/^[+-]/, "")`. */
  function StripSign(s: string): string {
    if |s| > 0 && IsSign(s[0]) then s[1..] else s
  }

  /** The leading sign of `t`, or "". */
  function SignOf(t: string): (r: string)
    ensures r + StripSign(t) == t
  {
    if |t| > 0 && IsSign(t[0]) then [t[0]] else ""
  }

  /** `/^[+-]?\d+$/`. */
  predicate IsSignedInt(t: string) {
    |StripSign(t)| > 0 && AllDigits(StripSign(t))
  }

  /** `/^\d{1,3}$/`. */
  predicate IsLeadGroup(d: string) { 1 <= |d| <= 3 && AllDigits(d) }

  /** `/^\d{3}$/`. */
  predicate IsGroup3(d: string) { |d| == 3 && AllDigits(d) }

  /** `/^20\d{2}$/`: a likely year, never split. */
  predicate IsYear20(d: string) {
    |d| == 4 && d[0] == '2' && d[1] == '0' && IsDigit(d[2]) && IsDigit(d[3])
  }

  /** Where `expandMergedDigitToken` cuts a digit string of length 4, 5 or 6. */
  function CutPoint(len: nat): nat { if len == 5 then 2 else 3 }

  /** `expandMergedDigitToken`: a 4-, 5- or 6-digit token that is not a 20xx
      year is cut 3+1, 2+3 or 3+3, the sign staying on the first piece. The
      pieces always concatenate back to the token. */
  function ExpandToken(t: string): (r: seq<string>)
    ensures Concat(r) == t
    ensures |r| == 1 || |r| == 2
    ensures |r| == 1 ==> r[0] == t
    ensures |r| == 2 <==> IsSignedInt(t) && 4 <= |StripSign(t)| <= 6 && !IsYear20(StripSign(t))
    ensures |r| == 2 ==> (r[0] != "" && r[1] != ""
      && StripSign(r[0]) == StripSign(t)[..CutPoint(|StripSign(t)|)]
      && r[1] == StripSign(t)[CutPoint(|StripSign(t)|)..])
    ensures NoWs(t) ==> forall p | p in r :: NoWs(p)
  {
    var sign := SignOf(t);
    var d := StripSign(t);
    if !(|d| > 0 && AllDigits(d)) then [t]
    else if |d| <= 3 then [t]
    else if |d| == 4 && IsYear20(d) then [t]
    else if |d| == 4 then ExpandCut(t, sign, d, 3)
    else if |d| == 5 then ExpandCut(t, sign, d, 2)
    else if |d| == 6 then ExpandCut(t, sign, d, 3)
    else [t]
  }

  function ExpandCut(t: string, sign: string, d: string, k: nat): (r: seq<string>)
    requires sign == SignOf(t) && d == StripSign(t) && 0 < k < |d| && AllDigits(d)
    ensures Concat(r) == t && |r| == 2 && r[0] != "" && r[1] != ""
    ensures StripSign(r[0]) == d[..k] && r[1] == d[k..]
    ensures NoWs(t) ==> forall p | p in r :: NoWs(p)
  {
    var a, b := sign + d[..k], d[k..];
    ConcatPair(a, b);
    assert a + b == t by {
      assert d[..k] + d[k..] == d;
      assert sign + d == t;
    }
    assert NoWs(t) ==> NoWs(a) && NoWs(b) by {
      if NoWs(t) { NoWsPieces(a, b); }
    }
    [a, b]
  }

  function Expanded(t: string, pc: nat): seq<string> {
    if pc > 0 then ExpandToken(t) else [t]
  }

  /** `filter(Boolean)` on pieces. */
  function NonEmptyOnly(ps: seq<string>): (r: seq<string>)
    ensures forall p | p in r :: p != "" && p in ps
  {
    if ps == [] then [] else (if ps[0] != "" then [ps[0]] else []) + NonEmptyOnly(ps[1..])
  }

  lemma {:induction false} NonEmptyOnlyConcat(ps: seq<string>)
    ensures Concat(NonEmptyOnly(ps)) == Concat(ps)
  {
    if ps != [] {
      NonEmptyOnlyConcat(ps[1..]);
      ConcatAppend(if ps[0] != "" then [ps[0]] else [], NonEmptyOnly(ps[1..]));
    }
  }

  /** `workingTokens`: each token expanded (only when a count is preferred),
      empty pieces dropped. */
  function Working(tokens: seq<string>, pc: nat): (r: seq<string>)
    ensures forall p | p in r :: p != ""
  {
    if tokens == [] then []
    else Working(tokens[..|tokens| - 1], pc) + NonEmptyOnly(Expanded(tokens[|tokens| - 1], pc))
  }

  /** Expansion only regroups characters: the working tokens concatenate to the tokens. */
  lemma {:induction false} WorkingConcat(tokens: seq<string>, pc: nat)
    ensures Concat(Working(tokens, pc)) == Concat(tokens)
  {
    if tokens != [] {
      var init := tokens[..|tokens| - 1];
      var last := tokens[|tokens| - 1];
      WorkingConcat(init, pc);
      NonEmptyOnlyConcat(Expanded(last, pc));
      ConcatAppend(Working(init, pc), NonEmptyOnly(Expanded(last, pc)));
      assert tokens == init + [last];
      ConcatAppend(init, [last]);
      assert Concat([last]) == last + Concat([]);
    }
  }

  /** Working tokens are substrings of the tokens, so carry no whitespace when they do not. */
  lemma {:induction false} WorkingNoWs(tokens: seq<string>, pc: nat)
    requires forall t | t in tokens :: NoWs(t)
    ensures forall p | p in Working(tokens, pc) :: NoWs(p)
  {
    if tokens != [] {
      var init := tokens[..|tokens| - 1];
      var last := tokens[|tokens| - 1];
      assert forall t | t in init :: t in tokens;
      assert last in tokens;
      WorkingNoWs(init, pc);
    }
  }

  /** The "9 1330" repair: with two preferred values and exactly two tokens of
      1-3 and 4-6 digits, the first three digits of the second token are glued
      onto the first (signs dropped). */
  function PairRepair(tokens: seq<string>, pc: nat): Option<seq<string>> {
    if pc == 2 && |tokens| == 2 then
      var a := StripSign(tokens[0]);
      var b := StripSign(tokens[1]);
      if IsLeadGroup(a) && 4 <= |b| <= 6 && AllDigits(b) then
        var left := a + b[..3];
        var right := b[3..];
        if left != "" && right != "" then Some([left, right]) else None
      else None
    else None
  }

  /** The scraper copy's footnote-digit repairs, tried in source order on
      all-digit working tokens of at most three digits each. */
  function FootnoteRepair(t: seq<string>): Option<seq<string>> {
    if !(forall x | x in t :: IsSignedInt(x)) then None
    else if |t| == 4 && |D(t, 0)| == 1 && |D(t, 1)| == 1 && D(t, 0) == D(t, 1) && |D(t, 2)| == 3 && |D(t, 3)| == 3 then
      // duplicated single-digit note + leading digit: "4 4 990 429" -> "4 990 429"
      Some([t[1] + " " + t[2] + " " + t[3]])
    else if |t| == 3 && |D(t, 0)| == 2 && D(t, 0)[0] == '0' && |D(t, 1)| == 3 && |D(t, 2)| == 3 then
      // merged leading zero: "04 965 842" -> "0", "4 965 842"
      Some(["0", D(t, 0)[1..] + " " + t[1] + " " + t[2]])
    else if |t| == 3 && |D(t, 0)| == 3 && |D(t, 1)| == 3 && |D(t, 2)| == 3
            && '1' <= D(t, 0)[0] <= '9' && D(t, 0)[1] == '0' then
      // footnote digit merged into a [1-9]0d group: "404 965 842" -> "0", "4 965 842"
      Some(["0", D(t, 0)[2..] + " " + t[1] + " " + t[2]])
    else if |t| == 3 && |D(t, 0)| == 2 && |D(t, 1)| == 3 && |D(t, 2)| == 3 && D(t, 0)[0] == D(t, 0)[1] then
      // duplicated leading digit: "44 990 429" -> "4 990 429"
      Some([[D(t, 0)[0]] + " " + t[1] + " " + t[2]])
    else if |t| == 5 && 1 <= |D(t, 0)| <= 3 && |D(t, 1)| == 3 && |D(t, 2)| == 3 && |D(t, 3)| == 3 && |D(t, 4)| == 3 then
      // 1-3 digits + four 3-digit groups: split 3+2
      Some([Join(" ", t[..3]), Join(" ", t[3..])])
    else if |t| >= 4 && 1 <= |D(t, |t| - 3)| <= 3 && |D(t, |t| - 2)| == 3 && |D(t, |t| - 1)| == 3
            && ("0" in t || "+0" in t || "-0" in t) then
      // footnote digit + "0" + grouped number: the first zero (sign stripped,
      // so always "0") and the last three groups
      Some(["0", Join(" ", t[|t| - 3..])])
    else None
  }

  /** The digits of working token `i` (sign stripped). */
  function D(t: seq<string>, i: nat): string { StripSign(At(t, i)) }

  // ---------------------------------------------------------------------------
  // The cost model and the forward DP

  function At(w: seq<string>, k: nat): string { if k < |w| then w[k] else "" }

  /** `segCost(start, len)`, scaled by 20. */
  function SegCost(w: seq<string>, start: nat, len: nat): int {
    var base := if len == 1 then 24 else if len == 2 then 0 else if len == 3 then 2
                else if len == 4 then 12 else 40 + (len - 4) * 30;
    var first := StripSign(At(w, start));
    var lead := if IsLeadGroup(first) then 0 else 80;
    var zero := if (|first| >= 2 && first[0] == '0' && AllDigits(first[1..])) || first == "000" then 40 else 0;
    base + lead + zero + TailCost(w, start, len)
  }

  /** +4 (scaled: 80) for every non-3-digit token after the first of the segment. */
  function TailCost(w: seq<string>, start: nat, len: nat): (c: int)
    ensures c >= 0
  {
    if len <= 1 then 0
    else TailCost(w, start, len - 1) + (if IsGroup3(StripSign(At(w, start + len - 1))) then 0 else 80)
  }

  /** `|nextParts - preferredCount| * 0.15`, scaled: 3 per part away from the preference. */
  function Penalty(pc: nat, parts: nat): nat {
    if pc > 0 then (if parts >= pc then parts - pc else pc - parts) * 3 else 0
  }

  function StepCost(w: seq<string>, pc: nat, i: nat, len: nat, parts: nat): int {
    SegCost(w, i, len) + Penalty(pc, parts)
  }

  /** The half-open token range [lo, hi) of one segment. */
  datatype Span = Span(lo: nat, hi: nat) {
    function Len(): nat { if hi >= lo then hi - lo else 0 }
  }

  /** A DP cell: the best cost found so far and the segments that realise it. */
  datatype Cell = Cell(cost: int, parts: seq<Span>)

  /** `parts` are consecutive segments of 1-4 tokens covering [0, j). */
  predicate Chain(parts: seq<Span>, j: nat) {
    if parts == [] then j == 0
    else
      var last := parts[|parts| - 1];
      last.hi == j && last.lo < last.hi <= last.lo + 4 && Chain(parts[..|parts| - 1], last.lo)
  }

  /** The cost the source accumulates along a chain of segments. */
  function PathCost(w: seq<string>, pc: nat, parts: seq<Span>): int {
    if parts == [] then 0
    else
      var last := parts[|parts| - 1];
      PathCost(w, pc, parts[..|parts| - 1]) + StepCost(w, pc, last.lo, last.Len(), |parts|)
  }

  /** Every filled cell holds a chain reaching it, priced by PathCost. */
  predicate WF(w: seq<string>, pc: nat, dp: seq<Option<Cell>>) {
    && |dp| == |w| + 1
    && forall j | 0 <= j < |dp| :: dp[j].Some? ==>
         Chain(dp[j].value.parts, j) && dp[j].value.cost == PathCost(w, pc, dp[j].value.parts)
  }

  /** After processing `i`, cell `i + len` is no costlier than stepping from cell `i`. */
  predicate Settled(w: seq<string>, pc: nat, dp: seq<Option<Cell>>, i: nat, len: nat) {
    && i + len < |dp|
    && dp[i].Some? && dp[i + len].Some?
    && dp[i + len].value.cost <= dp[i].value.cost + StepCost(w, pc, i, len, |dp[i].value.parts| + 1)
  }

  /** One relaxation `dp[i] -> dp[i + len]`, replacing only on a strictly lower cost. */
  function Relax(w: seq<string>, pc: nat, dp: seq<Option<Cell>>, i: nat, len: nat): (r: seq<Option<Cell>>)
    requires i < |dp| && dp[i].Some? && 1 <= len
    ensures |r| == |dp| && r[i] == dp[i]
    ensures forall j {:trigger r[j]} | 0 <= j < |dp| && j != i + len :: r[j] == dp[j]
    ensures forall j {:trigger r[j]} | 0 <= j < |dp| && dp[j].Some? :: r[j].Some? && r[j].value.cost <= dp[j].value.cost
    ensures i + len < |dp| ==> r[i + len].Some?
  {
    var j := i + len;
    if j >= |dp| then dp
    else
      var c := dp[i].value;
      var nextCost := c.cost + StepCost(w, pc, i, len, |c.parts| + 1);
      if dp[j].None? || nextCost < dp[j].value.cost then
        var r := dp[j := Some(Cell(nextCost, c.parts + [Span(i, j)]))];
        assert (c.parts + [Span(i, j)])[..|c.parts|] == c.parts;
        r
      else dp
  }

  /** The order the source tries segment lengths in. */
  const LenOrder: seq<nat> := [2, 3, 1, 4]

  /** Relaxations from cell `i` for each length of `lens`, in order. */
  function RelaxEach(w: seq<string>, pc: nat, dp: seq<Option<Cell>>, i: nat, lens: seq<nat>): (r: seq<Option<Cell>>)
    requires i < |dp| && dp[i].Some?
    requires forall k | 0 <= k < |lens| :: 1 <= lens[k] <= 4
    ensures |r| == |dp| && r[i] == dp[i]
    ensures forall j {:trigger r[j]} | 0 <= j < |dp| && (j <= i || j > i + 4) :: r[j] == dp[j]
    ensures forall j {:trigger r[j]} | 0 <= j < |dp| && dp[j].Some? :: r[j].Some? && r[j].value.cost <= dp[j].value.cost
    ensures forall k | 0 <= k < |lens| && i + lens[k] < |dp| :: r[i + lens[k]].Some?
    decreases |lens|
  {
    if lens == [] then dp
    else
      var init, len := lens[..|lens| - 1], lens[|lens| - 1];
      assert forall k | 0 <= k < |init| :: init[k] == lens[k];
      var prev := RelaxEach(w, pc, dp, i, init);
      var r := Relax(w, pc, prev, i, len);
      assert forall k | 0 <= k < |lens| && i + lens[k] < |dp| :: r[i + lens[k]].Some? by {
        forall k | 0 <= k < |lens| && i + lens[k] < |dp| ensures r[i + lens[k]].Some? {
          if k < |init| {
            assert init[k] == lens[k] && prev[i + init[k]].Some?;
          }
        }
      }
      r
  }

  lemma RelaxWF(w: seq<string>, pc: nat, dp: seq<Option<Cell>>, i: nat, len: nat)
    requires i < |dp| && dp[i].Some? && 1 <= len <= 4 && WF(w, pc, dp)
    ensures WF(w, pc, Relax(w, pc, dp, i, len))
  {
    var j := i + len;
    if j < |dp| {
      var c := dp[i].value;
      var parts := c.parts + [Span(i, j)];
      assert parts[..|c.parts|] == c.parts;
    }
  }

  lemma RelaxSettles(w: seq<string>, pc: nat, dp: seq<Option<Cell>>, i: nat, len: nat)
    requires i < |dp| && dp[i].Some? && 1 <= len && i + len < |dp|
    ensures Settled(w, pc, Relax(w, pc, dp, i, len), i, len)
  {
  }

  lemma {:induction false} RelaxEachWF(w: seq<string>, pc: nat, dp: seq<Option<Cell>>, i: nat, lens: seq<nat>)
    requires i < |dp| && dp[i].Some? && WF(w, pc, dp)
    requires forall k | 0 <= k < |lens| :: 1 <= lens[k] <= 4
    ensures WF(w, pc, RelaxEach(w, pc, dp, i, lens))
    decreases |lens|
  {
    if lens != [] {
      RelaxEachWF(w, pc, dp, i, lens[..|lens| - 1]);
      RelaxWF(w, pc, RelaxEach(w, pc, dp, i, lens[..|lens| - 1]), i, lens[|lens| - 1]);
    }
  }

  lemma {:induction false} RelaxEachSettles(w: seq<string>, pc: nat, dp: seq<Option<Cell>>, i: nat, lens: seq<nat>)
    requires i < |dp| && dp[i].Some?
    requires forall k | 0 <= k < |lens| :: 1 <= lens[k] <= 4
    ensures forall k | 0 <= k < |lens| && i + lens[k] < |dp| :: Settled(w, pc, RelaxEach(w, pc, dp, i, lens), i, lens[k])
    decreases |lens|
  {
    if lens != [] {
      var init := lens[..|lens| - 1];
      var len := lens[|lens| - 1];
      RelaxEachSettles(w, pc, dp, i, init);
      var prev := RelaxEach(w, pc, dp, i, init);
      var r := Relax(w, pc, prev, i, len);
      assert r == RelaxEach(w, pc, dp, i, lens);
      forall k | 0 <= k < |lens| && i + lens[k] < |dp|
        ensures Settled(w, pc, r, i, lens[k])
      {
        if k == |lens| - 1 {
          RelaxSettles(w, pc, prev, i, len);
        } else {
          assert init[k] == lens[k];
          assert Settled(w, pc, prev, i, lens[k]);
        }
      }
    }
  }

  /** The four relaxations out of cell `i`, written out in source order. */
  lemma {:induction false} RelaxEachLenOrder(w: seq<string>, pc: nat, dp: seq<Option<Cell>>, i: nat)
    requires i < |dp| && dp[i].Some?
    ensures RelaxEach(w, pc, dp, i, LenOrder)
         == Relax(w, pc, Relax(w, pc, Relax(w, pc, Relax(w, pc, dp, i, 2), i, 3), i, 1), i, 4)
  {
    var d1 := Relax(w, pc, dp, i, 2);
    var d2 := Relax(w, pc, d1, i, 3);
    var d3 := Relax(w, pc, d2, i, 1);
    assert RelaxEach(w, pc, dp, i, []) == dp;
    assert [2][..0] == [];
    assert RelaxEach(w, pc, dp, i, [2]) == d1;
    assert [2, 3][..1] == [2];
    assert RelaxEach(w, pc, dp, i, [2, 3]) == d2;
    assert [2, 3, 1][..2] == [2, 3];
    assert RelaxEach(w, pc, dp, i, [2, 3, 1]) == d3;
    assert LenOrder[..3] == [2, 3, 1];
  }

  /** The outer loop body for `i`: skipped when `dp[i]` is still empty. */
  function Step(w: seq<string>, pc: nat, dp: seq<Option<Cell>>, i: nat): seq<Option<Cell>>
    requires i < |dp|
  {
    if dp[i].Some? then RelaxEach(w, pc, dp, i, LenOrder) else dp
  }

  function InitTable(n: nat): (r: seq<Option<Cell>>)
    ensures |r| == n + 1 && r[0] == Some(Cell(0, []))
    ensures forall j | 1 <= j <= n :: r[j] == None
  {
    [Some(Cell(0, []))] + seq(n, _ => None)
  }

  /** The table after the outer loop has processed `i = 0 .. k - 1`. */
  function DpUpTo(w: seq<string>, pc: nat, k: nat): (r: seq<Option<Cell>>)
    requires k <= |w|
    ensures |r| == |w| + 1
  {
    if k == 0 then InitTable(|w|) else Step(w, pc, DpUpTo(w, pc, k - 1), k - 1)
  }

  /** The DP keeps every filled cell a chain of 1-4-token segments reaching
      it, priced by PathCost. */
  lemma {:induction false} DpWellFormed(w: seq<string>, pc: nat, k: nat)
    requires k <= |w|
    ensures WF(w, pc, DpUpTo(w, pc, k))
  {
    if k == 0 {
      assert Chain([], 0) && PathCost(w, pc, []) == 0;
    } else {
      DpWellFormed(w, pc, k - 1);
      var prev := DpUpTo(w, pc, k - 1);
      if prev[k - 1].Some? {
        RelaxEachWF(w, pc, prev, k - 1, LenOrder);
      }
    }
  }

  /** Every cell up to `k` is reachable (a 1-token step always exists). */
  lemma {:induction false} DpFilled(w: seq<string>, pc: nat, k: nat)
    requires k <= |w|
    ensures forall j | 0 <= j <= k :: DpUpTo(w, pc, k)[j].Some?
  {
    if k > 0 {
      DpFilled(w, pc, k - 1);
      var prev := DpUpTo(w, pc, k - 1);
      assert prev[k - 1].Some?;
      var r := RelaxEach(w, pc, prev, k - 1, LenOrder);
      assert DpUpTo(w, pc, k) == r;
      forall j | 0 <= j <= k ensures r[j].Some? {
        if j < k {
          assert prev[j].Some?;
        } else {
          assert LenOrder[2] == 1 && k - 1 + LenOrder[2] < |prev|;
        }
      }
    }
  }

  /** The outer loop body settles every step out of the cell it processes,
      leaves the cells up to it alone and never raises a cost. */
  lemma StepSettles(w: seq<string>, pc: nat, dp: seq<Option<Cell>>, i: nat)
    requires i < |dp| && dp[i].Some?
    ensures var r := Step(w, pc, dp, i);
      && |r| == |dp|
      && (forall j | 0 <= j <= i :: r[j] == dp[j])
      && (forall j | 0 <= j < |dp| && dp[j].Some? :: r[j].Some? && r[j].value.cost <= dp[j].value.cost)
      && (forall len | 1 <= len <= 4 && i + len < |dp| :: Settled(w, pc, r, i, len))
  {
    var r := RelaxEach(w, pc, dp, i, LenOrder);
    RelaxEachSettles(w, pc, dp, i, LenOrder);
    forall len | 1 <= len <= 4 && i + len < |dp| ensures Settled(w, pc, r, i, len) {
      var k := if len == 2 then 0 else if len == 3 then 1 else if len == 1 then 2 else 3;
      assert LenOrder[k] == len;
    }
  }

  /** A settled step stays settled when its source cell is unchanged and
      costs only fall. */
  lemma SettledKept(w: seq<string>, pc: nat, prev: seq<Option<Cell>>, r: seq<Option<Cell>>, i: nat)
    requires |r| == |prev|
    requires forall j | 0 <= j <= i && j < |prev| :: r[j] == prev[j]
    requires forall j | 0 <= j < |prev| && prev[j].Some? :: r[j].Some? && r[j].value.cost <= prev[j].value.cost
    requires forall a, len | 0 <= a < i && 1 <= len <= 4 && a + len < |prev| :: Settled(w, pc, prev, a, len)
    ensures forall a, len | 0 <= a < i && 1 <= len <= 4 && a + len < |r| :: Settled(w, pc, r, a, len)
  {
    forall a, len | 0 <= a < i && 1 <= len <= 4 && a + len < |r| ensures Settled(w, pc, r, a, len) {
      assert Settled(w, pc, prev, a, len);
    }
  }

  /** Bellman's condition for every step out of a processed cell. */
  lemma {:induction false} DpSettled(w: seq<string>, pc: nat, k: nat)
    requires k <= |w|
    ensures forall i, len | 0 <= i < k && 1 <= len <= 4 && i + len <= |w| :: Settled(w, pc, DpUpTo(w, pc, k), i, len)
  {
    if k > 0 {
      DpSettled(w, pc, k - 1);
      DpFilled(w, pc, k - 1);
      var prev := DpUpTo(w, pc, k - 1);
      assert prev[k - 1].Some?;
      StepKeepsSettled(w, pc, prev, k - 1);
      assert DpUpTo(w, pc, k) == Step(w, pc, prev, k - 1);
    }
  }

  /** Processing cell `i` settles its own steps and keeps the earlier ones settled. */
  lemma StepKeepsSettled(w: seq<string>, pc: nat, prev: seq<Option<Cell>>, i: nat)
    requires i < |prev| && prev[i].Some?
    requires forall a, len | 0 <= a < i && 1 <= len <= 4 && a + len < |prev| :: Settled(w, pc, prev, a, len)
    ensures forall a, len | 0 <= a <= i && 1 <= len <= 4 && a + len < |prev| :: Settled(w, pc, Step(w, pc, prev, i), a, len)
  {
    var r := Step(w, pc, prev, i);
    StepSettles(w, pc, prev, i);
    SettledKept(w, pc, prev, r, i);
  }

  function DpTable(w: seq<string>, pc: nat): seq<Option<Cell>> { DpUpTo(w, pc, |w|) }

  /** The tokens of one segment joined with single spaces. */
  function Group(w: seq<string>, sp: Span): string {
    if sp.lo <= sp.hi <= |w| then Join(" ", w[sp.lo..sp.hi]) else ""
  }

  function Groups(w: seq<string>, parts: seq<Span>): (r: seq<string>)
    ensures |r| == |parts|
  {
    if parts == [] then [] else Groups(w, parts[..|parts| - 1]) + [Group(w, parts[|parts| - 1])]
  }

  /** `best.parts.map(([a, b]) => workingTokens.slice(a, b).join(" "))`, or
      the cleaned run when the DP found nothing. */
  function Assemble(cleaned: string, w: seq<string>, best: Option<Cell>): seq<string> {
    if best.None? || best.value.parts == [] then [cleaned] else Groups(w, best.value.parts)
  }

  /** `splitGroupedNumberRun(run, preferredCount)`; `repairs` selects the
      scraper copy. */
  function SplitRun(run: string, pc: nat, repairs: bool): seq<string> {
    var cleaned := NormalizeText(run);
    if cleaned == "" then [] else SplitTokens(cleaned, Words(cleaned), pc, repairs)
  }

  /** The steps after tokenising: single token, the "9 1330" repair, expansion. */
  function SplitTokens(cleaned: string, tokens: seq<string>, pc: nat, repairs: bool): seq<string> {
    if |tokens| == 0 then []
    else if |tokens| == 1 then [cleaned]
    else if PairRepair(tokens, pc).Some? then PairRepair(tokens, pc).value
    else SplitWorking(cleaned, Working(tokens, pc), pc, repairs)
  }

  predicate AllInts(w: seq<string>) { forall i | 0 <= i < |w| :: IsSignedInt(w[i]) }

  predicate AllSmall(w: seq<string>) { forall i | 0 <= i < |w| :: |StripSign(w[i])| <= 3 }

  /** The steps on the working tokens: give up on non-integers, keep long
      tokens as they are, the footnote repairs, then the DP. */
  function SplitWorking(cleaned: string, w: seq<string>, pc: nat, repairs: bool): seq<string> {
    if |w| == 0 then []
    else if !AllInts(w) then [cleaned]
    else if !AllSmall(w) then w
    else if repairs && pc == 2 && FootnoteRepair(w).Some? then FootnoteRepair(w).value
    else Assemble(cleaned, w, DpTable(w, pc)[|w|])
  }

  // ---------------------------------------------------------------------------
  // The imperative form: the source's loops over `workingTokens` and `dp`

  /** One relaxation in place: `dp[i + len]` takes the step from `dp[i]` when
      it is empty or strictly costlier. */
  method RelaxInPlace(dp: array<Option<Cell>>, w: seq<string>, pc: nat, i: nat, len: nat)
    requires i < dp.Length && dp[i].Some? && 1 <= len
    modifies dp
    ensures dp[..] == Relax(w, pc, old(dp[..]), i, len)
  {
    var j := i + len;
    if j < dp.Length {
      var c := dp[i].value;
      var nextCost := c.cost + SegCost(w, i, len) + Penalty(pc, |c.parts| + 1);
      if dp[j].None? || nextCost < dp[j].value.cost {
        dp[j] := Some(Cell(nextCost, c.parts + [Span(i, j)]));
      }
    }
  }

  /** The inner loop over `LENGTH_ORDER` for one reached cell. */
  method RelaxAll(dp: array<Option<Cell>>, w: seq<string>, pc: nat, i: nat)
    requires i < dp.Length && dp[i].Some?
    modifies dp
    ensures dp[..] == RelaxEach(w, pc, old(dp[..]), i, LenOrder)
  {
    ghost var start := dp[..];
    var li := 0;
    while li < |LenOrder|
      invariant 0 <= li <= |LenOrder|
      invariant dp[..] == RelaxEach(w, pc, start, i, LenOrder[..li])
    {
      RelaxInPlace(dp, w, pc, i, LenOrder[li]);
      assert LenOrder[..li + 1][..li] == LenOrder[..li];
      li := li + 1;
    }
    assert LenOrder[..|LenOrder|] == LenOrder;
  }

  /** The DP of the source over an array `dp[0..n]`; returns `dp[n]`. */
  method RunDp(w: seq<string>, pc: nat) returns (best: Option<Cell>)
    ensures best == DpTable(w, pc)[|w|]
  {
    var n := |w|;
    var dp := new Option<Cell>[n + 1](_ => None);
    dp[0] := Some(Cell(0, []));
    assert dp[..] == InitTable(n);
    var i := 0;
    while i < n
      invariant 0 <= i <= n && dp.Length == n + 1
      invariant dp[..] == DpUpTo(w, pc, i)
    {
      if dp[i].Some? {
        RelaxAll(dp, w, pc, i);
      }
      i := i + 1;
    }
    best := dp[n];
  }

  /** The inner loop: push the non-empty pieces of one expanded token. */
  method PushNonEmpty(working: seq<string>, pieces: seq<string>) returns (r: seq<string>)
    ensures r == working + NonEmptyOnly(pieces)
  {
    r := working;
    var e := 0;
    while e < |pieces|
      invariant 0 <= e <= |pieces|
      invariant r == working + NonEmptyOnly(pieces[..e])
    {
      if pieces[e] != "" {
        r := r + [pieces[e]];
      }
      NonEmptyOnlySnoc(pieces[..e], pieces[e]);
      assert pieces[..e + 1] == pieces[..e] + [pieces[e]];
      e := e + 1;
    }
    assert pieces[..e] == pieces;
  }

  /** The loop building `workingTokens`. */
  method BuildWorking(tokens: seq<string>, pc: nat) returns (working: seq<string>)
    ensures working == Working(tokens, pc)
  {
    working := [];
    var k := 0;
    while k < |tokens|
      invariant 0 <= k <= |tokens|
      invariant working == Working(tokens[..k], pc)
    {
      working := PushNonEmpty(working, Expanded(tokens[k], pc));
      assert tokens[..k + 1][..k] == tokens[..k] && tokens[..k + 1][k] == tokens[k];
      k := k + 1;
    }
    assert tokens[..k] == tokens;
  }

  /** `splitGroupedNumberRun` with its loops. */
  method SplitGroupedNumberRun(run: string, pc: nat, repairs: bool) returns (r: seq<string>)
    ensures r == SplitRun(run, pc, repairs)
  {
    var cleaned := NormalizeText(run);
    if cleaned == "" { return []; }
    var tokens := Words(cleaned);
    if |tokens| == 0 { return []; }
    if |tokens| == 1 { return [cleaned]; }
    var pair := PairRepair(tokens, pc);
    if pair.Some? { return pair.value; }
    var working := BuildWorking(tokens, pc);
    if |working| == 0 { return []; }
    if !AllInts(working) { return [cleaned]; }
    if !AllSmall(working) { return working; }
    if repairs && pc == 2 {
      var fixed := FootnoteRepair(working);
      if fixed.Some? { return fixed.value; }
    }
    var best := RunDp(working, pc);
    r := Assemble(cleaned, working, best);
  }

  lemma {:induction false} NonEmptyOnlySnoc(ps: seq<string>, p: string)
    ensures NonEmptyOnly(ps + [p]) == NonEmptyOnly(ps) + (if p != "" then [p] else [])
  {
    if ps == [] {
      assert [p][1..] == [];
    } else {
      assert (ps + [p])[1..] == ps[1..] + [p];
      NonEmptyOnlySnoc(ps[1..], p);
    }
  }
}
