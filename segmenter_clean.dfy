/**
 * Every value `splitGroupedNumberRun` returns is non-empty, normalised text,
 * so the callers' per-part `normalizeText` and emptiness check never change
 * or drop a part.
 */
module SegmenterClean {
  import opened Wrappers
  import opened Strs
  import opened Segmenter
  import opened SegmenterFacts

  /** Non-empty normalised text. */
  predicate Clean(p: string) { p != "" && Normalized(p) }

  predicate AllClean(ps: seq<string>) { forall p | p in ps :: Clean(p) }

  predicate AllWords(ts: seq<string>) { forall t | t in ts :: IsWord(t) }

  lemma WordIsClean(w: string)
    requires IsWord(w)
    ensures Clean(w)
  {
    assert forall i | 0 <= i < |w| :: w[i] != ' ' by {
      forall i | 0 <= i < |w| ensures w[i] != ' ' { assert !IsWs(w[i]); }
    }
  }

  lemma {:induction false} JoinedIsClean(ts: seq<string>)
    requires ts != [] && AllWords(ts)
    ensures Clean(Join(" ", ts))
  {
    JoinIsNormalized(ts);
    JoinNonEmpty(ts);
  }

  lemma NoWsSlice(t: string, k: nat, m: nat)
    requires NoWs(t) && k <= m <= |t|
    ensures NoWs(t[k..m])
  {
    forall i | 0 <= i < m - k ensures !IsWs(t[k..m][i]) { assert t[k..m][i] == t[k + i]; }
  }

  lemma Join3(a: string, b: string, c: string)
    ensures Join(" ", [a, b, c]) == a + " " + b + " " + c
  {
    assert [a, b, c][1..] == [b, c];
    assert [b, c][1..] == [c];
    assert Join(" ", [b, c]) == b + " " + c;
    assert a + " " + (b + " " + c) == a + " " + b + " " + c;
  }

  /** `a b c` for three words is clean. */
  lemma ThreeWordsClean(a: string, b: string, c: string)
    requires IsWord(a) && IsWord(b) && IsWord(c)
    ensures Clean(a + " " + b + " " + c)
  {
    Join3(a, b, c);
    JoinedIsClean([a, b, c]);
  }

  lemma SliceWords(ts: seq<string>, k: nat, m: nat)
    requires AllWords(ts) && k <= m <= |ts|
    ensures AllWords(ts[k..m])
  {
    forall t | t in ts[k..m] ensures IsWord(t) { assert t in ts; }
  }

  lemma {:induction false} GroupsClean(w: seq<string>, parts: seq<Span>, n: nat)
    requires AllWords(w) && Chain(parts, n) && n <= |w|
    ensures AllClean(Groups(w, parts))
  {
    if parts != [] {
      var init := parts[..|parts| - 1];
      var last := parts[|parts| - 1];
      GroupsClean(w, init, last.lo);
      SliceWords(w, last.lo, last.hi);
      JoinedIsClean(w[last.lo..last.hi]);
    }
  }

  /** The footnote repairs only produce clean values. */
  lemma FootnoteClean(t: seq<string>)
    requires AllWords(t) && FootnoteRepair(t).Some?
    ensures AllClean(FootnoteRepair(t).value)
  {
    assert Clean("0") by { WordIsClean("0"); }
    assert forall x | x in t :: IsSignedInt(x);
    forall i | 0 <= i < |t| ensures IsWord(t[i]) { assert t[i] in t; }
    var d0 := D(t, 0);
    if |t| == 4 && |D(t, 0)| == 1 && |D(t, 1)| == 1 && D(t, 0) == D(t, 1) && |D(t, 2)| == 3 && |D(t, 3)| == 3 {
      ThreeWordsClean(t[1], t[2], t[3]);
    } else if |t| == 3 && |d0| == 2 && d0[0] == '0' && |D(t, 1)| == 3 && |D(t, 2)| == 3 {
      assert IsSignedInt(t[0]);
      ThreeWordsClean(d0[1..], t[1], t[2]);
    } else if |t| == 3 && |d0| == 3 && |D(t, 1)| == 3 && |D(t, 2)| == 3 && '1' <= d0[0] <= '9' && d0[1] == '0' {
      assert IsSignedInt(t[0]);
      ThreeWordsClean(d0[2..], t[1], t[2]);
    } else if |t| == 3 && |d0| == 2 && |D(t, 1)| == 3 && |D(t, 2)| == 3 && d0[0] == d0[1] {
      assert IsSignedInt(t[0]);
      ThreeWordsClean([d0[0]], t[1], t[2]);
    } else if |t| == 5 && 1 <= |d0| <= 3 && |D(t, 1)| == 3 && |D(t, 2)| == 3 && |D(t, 3)| == 3 && |D(t, 4)| == 3 {
      SliceWords(t, 0, 3);
      SliceWords(t, 3, 5);
      JoinedIsClean(t[..3]);
      JoinedIsClean(t[3..]);
    } else {
      SliceWords(t, |t| - 3, |t|);
      JoinedIsClean(t[|t| - 3..]);
    }
  }

  /** The "9 1330" repair only produces clean values. */
  lemma PairClean(tokens: seq<string>, pc: nat)
    requires AllWords(tokens) && PairRepair(tokens, pc).Some?
    ensures AllClean(PairRepair(tokens, pc).value)
  {
    assert tokens[0] in tokens && tokens[1] in tokens;
    var a := StripSign(tokens[0]);
    var b := StripSign(tokens[1]);
    assert NoWs(a) by { NoWsSlice(tokens[0], |tokens[0]| - |a|, |tokens[0]|); }
    assert NoWs(b) by { NoWsSlice(tokens[1], |tokens[1]| - |b|, |tokens[1]|); }
    var left := a + b[..3];
    var right := b[3..];
    assert NoWs(right) by { NoWsSlice(b, 3, |b|); }
    assert NoWs(left) by {
      NoWsSlice(b, 0, 3);
      forall i | 0 <= i < |left| ensures !IsWs(left[i]) {
        if i < |a| { assert left[i] == a[i]; } else { assert left[i] == b[..3][i - |a|]; }
      }
    }
    WordIsClean(left);
    WordIsClean(right);
  }

  /** The steps on the working tokens only produce clean values. */
  lemma SplitWorkingClean(cleaned: string, w: seq<string>, pc: nat, repairs: bool)
    requires Clean(cleaned) && AllWords(w)
    ensures AllClean(SplitWorking(cleaned, w, pc, repairs))
  {
    if |w| > 0 && AllInts(w) {
      if !AllSmall(w) {
        forall p | p in w ensures Clean(p) { WordIsClean(p); }
      } else if repairs && pc == 2 && FootnoteRepair(w).Some? {
        FootnoteClean(w);
      } else {
        DpReachesEnd(w, pc);
        GroupsClean(w, DpTable(w, pc)[|w|].value.parts, |w|);
      }
    }
  }

  /** Every value of every copy is non-empty normalised text. */
  lemma SplitClean(run: string, pc: nat, repairs: bool)
    ensures AllClean(SplitRun(run, pc, repairs))
  {
    var cleaned := NormalizeText(run);
    if cleaned != "" {
      var tokens := Words(cleaned);
      JoinWords(cleaned);
      assert AllWords(tokens);
      if |tokens| >= 2 {
        if PairRepair(tokens, pc).Some? {
          PairClean(tokens, pc);
        } else {
          var w := Working(tokens, pc);
          WorkingNoWs(tokens, pc);
          assert AllWords(w);
          SplitWorkingClean(cleaned, w, pc, repairs);
        }
      }
    }
  }
}
