/**
 * What `splitGroupedNumberRun` promises: splitting only regroups the run,
 * the DP's choice is a chain of 1-4-token groups that is Bellman-settled
 * (and a true minimum when no count is preferred), and the worked examples
 * of the source's comments.
 */
module SegmenterFacts {
  import opened Wrappers
  import opened Strs
  import opened Segmenter

  /** Re-joining the groups of a chain gives back the tokens it covers. */
  lemma {:induction false} GroupsRejoin(w: seq<string>, parts: seq<Span>, n: nat)
    requires Chain(parts, n) && n <= |w|
    ensures Join(" ", Groups(w, parts)) == Join(" ", w[..n])
    ensures forall g | g in Groups(w, parts) :: exists lo, hi | 0 <= lo < hi <= n && hi <= lo + 4 :: g == Join(" ", w[lo..hi])
  {
    if parts != [] {
      var init := parts[..|parts| - 1];
      var last := parts[|parts| - 1];
      GroupsRejoin(w, init, last.lo);
      var g := Join(" ", w[last.lo..last.hi]);
      assert Groups(w, parts) == Groups(w, init) + [g];
      JoinSnoc(" ", Groups(w, init), g);
      if init == [] {
        assert last.lo == 0;
        assert w[..n] == w[last.lo..last.hi];
      } else {
        assert w[..n] == w[..last.lo] + w[last.lo..last.hi];
        JoinAppend(" ", w[..last.lo], w[last.lo..last.hi]);
        assert last.lo > 0 by {
          var prev := init[|init| - 1];
          assert prev.hi == last.lo && prev.lo < prev.hi;
        }
      }
    } else {
      assert w[..n] == [];
    }
  }

  /** The DP always reaches the last token with a non-empty chain. */
  lemma {:induction false} DpReachesEnd(w: seq<string>, pc: nat)
    requires |w| >= 1
    ensures DpTable(w, pc)[|w|].Some?
    ensures Chain(DpTable(w, pc)[|w|].value.parts, |w|)
    ensures DpTable(w, pc)[|w|].value.parts != []
    ensures DpTable(w, pc)[|w|].value.cost == PathCost(w, pc, DpTable(w, pc)[|w|].value.parts)
  {
    DpFilled(w, pc, |w|);
    DpWellFormed(w, pc, |w|);
  }

  /** In any filled table that starts at cost 0 and satisfies Bellman's
      condition without a preferred count, no chain reaching `j` is cheaper
      than the cell at `j`. */
  lemma {:induction false} ChainMinimal(w: seq<string>, dp: seq<Option<Cell>>, parts: seq<Span>, j: nat)
    requires |dp| == |w| + 1 && Chain(parts, j) && j <= |w|
    requires forall i | 0 <= i <= |w| :: dp[i].Some?
    requires dp[0].value.cost <= 0
    requires forall i, len | 0 <= i < |w| && 1 <= len <= 4 && i + len <= |w| :: Settled(w, 0, dp, i, len)
    ensures dp[j].value.cost <= PathCost(w, 0, parts)
  {
    if parts != [] {
      var init := parts[..|parts| - 1];
      var last := parts[|parts| - 1];
      ChainMinimal(w, dp, init, last.lo);
      assert Settled(w, 0, dp, last.lo, last.Len());
      assert PathCost(w, 0, parts) == PathCost(w, 0, init) + StepCost(w, 0, last.lo, last.Len(), |parts|);
    }
  }

  /** With no preferred count the penalty vanishes and the forward DP is an
      exact shortest path: no chain of 1-4-token groups reaching `j` is cheaper
      than the one kept in `dp[j]`. */
  lemma DpMinimalWithoutPreference(w: seq<string>, parts: seq<Span>, j: nat)
    requires Chain(parts, j) && j <= |w|
    ensures DpTable(w, 0)[j].Some?
    ensures DpTable(w, 0)[j].value.cost <= PathCost(w, 0, parts)
  {
    var dp := DpTable(w, 0);
    DpFilled(w, 0, |w|);
    DpSettled(w, 0, |w|);
    assert dp[0].value.cost <= 0 by {
      DpWellFormed(w, 0, |w|);
      var c := dp[0].value;
      assert c.cost == PathCost(w, 0, c.parts);
      assert Chain(c.parts, 0);
      assert c.parts == [];
    }
    ChainMinimal(w, dp, parts, j);
  }

  /** With no preferred count, the DP's choice is a cheapest segmentation of
      the working tokens into groups of 1-4 tokens. */
  lemma {:induction false} SplitMinimalWithoutPreference(w: seq<string>, other: seq<Span>)
    requires |w| >= 1 && Chain(other, |w|)
    ensures DpTable(w, 0)[|w|].Some?
    ensures Chain(DpTable(w, 0)[|w|].value.parts, |w|)
    ensures PathCost(w, 0, DpTable(w, 0)[|w|].value.parts) <= PathCost(w, 0, other)
  {
    DpReachesEnd(w, 0);
    DpMinimalWithoutPreference(w, other, |w|);
  }

  /** Without expansion (no preferred count) the working tokens are the tokens. */
  lemma {:induction false} WorkingWithoutPreference(tokens: seq<string>)
    requires forall t | t in tokens :: t != ""
    ensures Working(tokens, 0) == tokens
  {
    if tokens != [] {
      var init := tokens[..|tokens| - 1];
      var last := tokens[|tokens| - 1];
      assert tokens == init + [last];
      assert forall t | t in init :: t != "" by {
        forall t | t in init ensures t != "" { assert t in tokens; }
      }
      WorkingWithoutPreference(init);
      assert last != "" by { assert last in tokens; }
      assert NonEmptyOnly([last]) == [last] by { assert [last][1..] == []; }
    }
  }

  /** The DP branch re-joins to the working tokens. */
  lemma {:induction false} AssembleRejoins(cleaned: string, w: seq<string>, pc: nat)
    requires |w| >= 1
    ensures Join(" ", Assemble(cleaned, w, DpTable(w, pc)[|w|])) == Join(" ", w)
  {
    DpReachesEnd(w, pc);
    GroupsRejoin(w, DpTable(w, pc)[|w|].value.parts, |w|);
    assert w[..|w|] == w;
  }

  /** With no preferred count, splitting only decides where the run breaks:
      joining the values with single spaces gives the cleaned run back. */
  lemma SplitRejoinsWithoutPreference(run: string, repairs: bool)
    ensures Join(" ", SplitRun(run, 0, repairs)) == NormalizeText(run)
  {
    var cleaned := NormalizeText(run);
    if cleaned != "" {
      var tokens := Words(cleaned);
      JoinWords(cleaned);
      assert SplitRun(run, 0, repairs) == SplitTokens(cleaned, tokens, 0, repairs);
      if |tokens| >= 2 {
        assert PairRepair(tokens, 0).None?;
        WorkingWithoutPreference(tokens);
        assert SplitTokens(cleaned, tokens, 0, repairs) == SplitWorking(cleaned, tokens, 0, repairs);
        if AllInts(tokens) && AllSmall(tokens) {
          AssembleRejoins(cleaned, tokens, 0);
        }
      } else if |tokens| == 1 {
        assert Join(" ", [cleaned]) == cleaned;
      }
    }
  }

  /** The digits of a signed token are the digits of the token without its sign. */
  lemma {:induction false} DigitsOfStripSign(t: string)
    ensures Digits(StripSign(t)) == Digits(t)
  {
    if |t| > 0 && IsSign(t[0]) {
      assert t == [t[0]] + t[1..];
      DigitsAppend([t[0]], t[1..]);
    }
  }

  /** The "9 1330" repair moves digits between the two values and drops only signs. */
  lemma {:induction false} PairRepairKeepsDigits(tokens: seq<string>, pc: nat)
    requires PairRepair(tokens, pc).Some?
    ensures Digits(Concat(PairRepair(tokens, pc).value)) == Digits(Concat(tokens))
  {
    var a := StripSign(tokens[0]);
    var b := StripSign(tokens[1]);
    var r := PairRepair(tokens, pc).value;
    assert r == [a + b[..3], b[3..]];
    assert r[1..][1..] == [];
    assert Concat(r) == (a + b[..3]) + (b[3..] + Concat([]));
    assert b[..3] + b[3..] == b;
    assert Concat(r) == a + b;
    assert tokens[1..][1..] == [];
    assert Concat(tokens) == tokens[0] + (tokens[1] + Concat([]));
    assert Concat(tokens) == tokens[0] + tokens[1];
    DigitsAppend(a, b);
    DigitsAppend(tokens[0], tokens[1]);
    DigitsOfStripSign(tokens[0]);
    DigitsOfStripSign(tokens[1]);
  }

  /** The steps after the repairs keep the working tokens' digits. */
  lemma {:induction false} SplitWorkingKeepsDigits(cleaned: string, w: seq<string>, pc: nat)
    requires Digits(cleaned) == Digits(Concat(w))
    ensures Digits(Concat(SplitWorking(cleaned, w, pc, false))) == Digits(Concat(w))
  {
    if |w| > 0 {
      if !AllInts(w) {
        assert [cleaned][1..] == [];
        assert Concat([cleaned]) == cleaned;
      } else if AllSmall(w) {
        var r := Assemble(cleaned, w, DpTable(w, pc)[|w|]);
        AssembleRejoins(cleaned, w, pc);
        DigitsOfJoin(r);
        DigitsOfJoin(w);
      }
    }
  }

  /** The copies without footnote repairs never lose or invent a digit: the
      values' digits, read left to right, are the run's digits. */
  lemma {:induction false} SplitKeepsDigits(run: string, pc: nat)
    ensures Digits(Concat(SplitRun(run, pc, false))) == Digits(run)
  {
    var cleaned := NormalizeText(run);
    DigitsOfNormalized(run);
    if cleaned != "" {
      var tokens := Words(cleaned);
      assert SplitRun(run, pc, false) == SplitTokens(cleaned, tokens, pc, false);
      JoinWords(cleaned);
      DigitsOfJoin(tokens);
      if |tokens| == 1 {
        assert Concat([cleaned]) == cleaned + Concat([]);
      } else if |tokens| >= 2 {
        if PairRepair(tokens, pc).Some? {
          PairRepairKeepsDigits(tokens, pc);
        } else {
          WorkingConcat(tokens, pc);
          SplitWorkingKeepsDigits(cleaned, Working(tokens, pc), pc);
        }
      }
    }
  }

  /** A token with at most three digits after its sign is never expanded. */
  lemma SmallTokenKept(t: string, pc: nat)
    requires t != "" && |StripSign(t)| <= 3
    ensures NonEmptyOnly(Expanded(t, pc)) == [t]
  {
    assert Expanded(t, pc) == [t];
    assert NonEmptyOnly([t]) == [t] + NonEmptyOnly([]);
  }

  /** Tokens with at most three digits after their signs pass expansion unchanged. */
  lemma {:induction false} WorkingOfSmallGroups(tokens: seq<string>, pc: nat)
    requires forall i | 0 <= i < |tokens| :: tokens[i] != "" && |StripSign(tokens[i])| <= 3
    ensures Working(tokens, pc) == tokens
  {
    if tokens != [] {
      var init := tokens[..|tokens| - 1];
      var last := tokens[|tokens| - 1];
      assert forall i | 0 <= i < |init| :: init[i] == tokens[i];
      WorkingOfSmallGroups(init, pc);
      SmallTokenKept(last, pc);
      assert tokens == init + [last];
    }
  }

  /** Whitespace-free tokens joined with single spaces are already clean and
      split back into themselves. */
  lemma {:induction false} JoinedTokens(ts: seq<string>)
    requires ts != [] && forall t | t in ts :: t != "" && NoWs(t)
    ensures NormalizeText(Join(" ", ts)) == Join(" ", ts) != ""
    ensures Words(Join(" ", ts)) == ts
  {
    assert forall t | t in ts :: IsWord(t);
    forall t | t in ts ensures ' ' !in t {
      forall i | 0 <= i < |t| ensures t[i] != ' ' { assert !IsWs(t[i]); }
    }
    JoinIsNormalized(ts);
    NormalizedFixpoint(Join(" ", ts));
    WordsOfJoin(ts);
    JoinNonEmpty(ts);
  }

  /** A run whose tokens are all integers of 1-3 digits reaches the repairs
      and the DP unchanged. */
  lemma {:induction false} SmallGroupsReachDp(ts: seq<string>, pc: nat, repairs: bool)
    requires |ts| >= 3
    requires forall t | t in ts :: IsSignedInt(t) && |StripSign(t)| <= 3 && NoWs(t)
    ensures SplitRun(Join(" ", ts), pc, repairs) == SplitWorking(Join(" ", ts), ts, pc, repairs)
    ensures AllInts(ts) && AllSmall(ts)
  {
    var s := Join(" ", ts);
    JoinedTokens(ts);
    assert SplitRun(s, pc, repairs) == SplitTokens(s, ts, pc, repairs);
    forall i | 0 <= i < |ts| ensures IsSignedInt(ts[i]) && |StripSign(ts[i])| <= 3 && ts[i] != "" {
      assert ts[i] in ts;
    }
    assert Working(ts, pc) == ts by { WorkingOfSmallGroups(ts, pc); }
    assert PairRepair(ts, pc).None?;
  }
}
