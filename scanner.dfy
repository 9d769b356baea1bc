/**
 * The numeric-run scanner: the successive matches of the regular expression
 * `[+-]?\d[\d ]*` with the global flag, as `RegExp.prototype.exec` finds
 * them, and `replace` with the same expression. At each position the expression either
 * matches (a digit, or a sign followed by a digit) or the search moves on by
 * one character; a match then takes every following digit and plain space.
 */
module Scanner {
  import opened Strs
  import opened Segmenter

  /** A match of `[+-]?\d[\d ]*` can start at `i`. */
  predicate RunStartsAt(s: string, i: nat) {
    i < |s| && (IsDigit(s[i]) || (IsSign(s[i]) && i + 1 < |s| && IsDigit(s[i + 1])))
  }

  predicate InRun(c: char) { IsDigit(c) || c == ' ' }

  /** The greedy `[\d ]*` from `k`: the first index at or after `k` that is
      neither a digit nor a plain space. */
  function RunEnd(s: string, k: nat): (e: nat)
    requires k <= |s|
    ensures k <= e <= |s|
    ensures forall j | k <= j < e :: InRun(s[j])
    ensures e == |s| || !InRun(s[e])
    decreases |s| - k
  {
    if k < |s| && InRun(s[k]) then RunEnd(s, k + 1) else k
  }

  /** Where the match starting at `i` ends. */
  function MatchEnd(s: string, i: nat): (e: nat)
    requires RunStartsAt(s, i)
    ensures i < e <= |s|
  {
    RunEnd(s, if IsDigit(s[i]) then i + 1 else i + 2)
  }

  /** The matches found by `exec` from `lastIndex = i` on. */
  function Runs(s: string, i: nat): seq<string>
    decreases |s| - i
  {
    if i >= |s| then []
    else if RunStartsAt(s, i) then [s[i..MatchEnd(s, i)]] + Runs(s, MatchEnd(s, i))
    else Runs(s, i + 1)
  }

  /** `^[+-]?\d[\d ]*$`. */
  predicate IsNumericRun(r: string) {
    && |r| >= 1
    && (IsDigit(r[0]) || (|r| >= 2 && IsSign(r[0]) && IsDigit(r[1])))
    && forall j | 1 <= j < |r| :: InRun(r[j])
  }

  /** `s.replace` of every match by `rep` from index `i` on. */
  function ReplaceRuns(s: string, i: nat, rep: string): string
    decreases |s| - i
  {
    if i >= |s| then []
    else if RunStartsAt(s, i) then rep + ReplaceRuns(s, MatchEnd(s, i), rep)
    else [s[i]] + ReplaceRuns(s, i + 1, rep)
  }

  /** Every match has the run shape (that each is also maximal is the
      contract of `RunEnd`). */
  lemma {:induction false} RunsShape(s: string, i: nat)
    ensures forall r | r in Runs(s, i) :: IsNumericRun(r)
    decreases |s| - i
  {
    if i < |s| {
      if RunStartsAt(s, i) {
        var e := MatchEnd(s, i);
        var r := s[i..e];
        RunsShape(s, e);
        assert IsNumericRun(r) by {
          forall j | 1 <= j < |r| ensures InRun(r[j]) {
            assert r[j] == s[i + j];
          }
        }
      } else {
        RunsShape(s, i + 1);
      }
    }
  }

  /** The matches, read left to right, hold every digit of the text and no
      other: no digit is left between two matches. */
  lemma {:induction false} RunsCoverDigits(s: string, i: nat)
    requires i <= |s|
    ensures Digits(Concat(Runs(s, i))) == Digits(s[i..])
    decreases |s| - i
  {
    if i < |s| {
      if RunStartsAt(s, i) {
        var e := MatchEnd(s, i);
        RunsCoverDigits(s, e);
        assert s[i..] == s[i..e] + s[e..];
        DigitsAppend(s[i..e], s[e..]);
        assert ([s[i..e]] + Runs(s, e))[1..] == Runs(s, e);
        DigitsAppend(s[i..e], Concat(Runs(s, e)));
      } else {
        RunsCoverDigits(s, i + 1);
        assert !IsDigit(s[i]);
        assert s[i..] == [s[i]] + s[i + 1..];
        DigitsAppend([s[i]], s[i + 1..]);
      }
    }
  }

  /** Replacing every match by a digit-free text leaves no digit. */
  lemma {:induction false} ReplaceRunsNoDigits(s: string, i: nat, rep: string)
    requires Digits(rep) == []
    ensures Digits(ReplaceRuns(s, i, rep)) == []
    decreases |s| - i
  {
    if i < |s| {
      if RunStartsAt(s, i) {
        ReplaceRunsNoDigits(s, MatchEnd(s, i), rep);
        DigitsAppend(rep, ReplaceRuns(s, MatchEnd(s, i), rep));
      } else {
        ReplaceRunsNoDigits(s, i + 1, rep);
        DigitsAppend([s[i]], ReplaceRuns(s, i + 1, rep));
      }
    }
  }

  // ---------------------------------------------------------------------------
  // The imperative scanner: one `exec` call

  /** `re.exec(s)` with `re.lastIndex == from`: scan forward for the next
      position where a match starts, then take the greedy run. */
  method Exec(s: string, from: nat) returns (found: bool, start: nat, end: nat)
    requires from <= |s|
    ensures found ==> from <= start && RunStartsAt(s, start) && end == MatchEnd(s, start)
    ensures found ==> Runs(s, from) == [s[start..end]] + Runs(s, end)
    ensures !found ==> Runs(s, from) == []
  {
    var i := from;
    while i < |s| && !RunStartsAt(s, i)
      invariant from <= i <= |s|
      invariant Runs(s, from) == Runs(s, i)
    {
      i := i + 1;
    }
    if i == |s| {
      return false, 0, 0;
    }
    var k := if IsDigit(s[i]) then i + 1 else i + 2;
    while k < |s| && InRun(s[k])
      invariant k <= |s|
      invariant RunEnd(s, k) == MatchEnd(s, i)
    {
      k := k + 1;
    }
    return true, i, k;
  }
}
