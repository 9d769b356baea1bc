/**
 * The JavaScript string operations the extraction code leans on, written out
 * over `seq<char>`: the `\s` character class, `normalizeText`-style whitespace
 * normalisation (`replace(/\s+/g, " ").trim()`), `split(" ").filter(Boolean)`,
 * `join`, and ASCII/Swedish case folding.
 */
module Strs {

  predicate IsDigit(c: char) { '0' <= c <= '9' }

  /** JavaScript's `\s` (and the set `String.prototype.trim` removes). */
  predicate IsWs(c: char) {
    c == ' ' || c == '\t' || c == '\n' || c == '\r' || c == '\U{000B}' || c == '\U{000C}'
    || c == '\U{00A0}' || c == '\U{1680}' || ('\U{2000}' <= c <= '\U{200A}')
    || c == '\U{2028}' || c == '\U{2029}' || c == '\U{202F}' || c == '\U{205F}'
    || c == '\U{3000}' || c == '\U{FEFF}'
  }

  /** The characters a regular-expression `.` does not match. */
  predicate IsLineTerminator(c: char) {
    c == '\n' || c == '\r' || c == '\U{2028}' || c == '\U{2029}'
  }

  predicate AllDigits(s: string) { forall i | 0 <= i < |s| :: IsDigit(s[i]) }

  predicate HasDigit(s: string) { exists i | 0 <= i < |s| :: IsDigit(s[i]) }

  predicate NoWs(s: string) { forall i | 0 <= i < |s| :: !IsWs(s[i]) }

  /** The digits of `s`, in order. */
  function Digits(s: string): (r: string)
    ensures AllDigits(r) && |r| <= |s|
  {
    if s == [] then [] else (if IsDigit(s[0]) then [s[0]] else []) + Digits(s[1..])
  }

  /** The non-whitespace characters of `s`, in order. */
  function NonWs(s: string): (r: string)
    ensures NoWs(r) && |r| <= |s|
  {
    if s == [] then [] else (if IsWs(s[0]) then [] else [s[0]]) + NonWs(s[1..])
  }

  lemma {:induction false} DigitsAppend(a: string, b: string)
    ensures Digits(a + b) == Digits(a) + Digits(b)
  {
    if a != [] {
      assert (a + b)[1..] == a[1..] + b;
      DigitsAppend(a[1..], b);
    } else {
      assert a + b == b;
    }
  }

  lemma {:induction false} NonWsAppend(a: string, b: string)
    ensures NonWs(a + b) == NonWs(a) + NonWs(b)
  {
    if a != [] {
      assert (a + b)[1..] == a[1..] + b;
      NonWsAppend(a[1..], b);
    } else {
      assert a + b == b;
    }
  }

  lemma {:induction false} DigitsOfNonWs(s: string)
    ensures Digits(NonWs(s)) == Digits(s)
  {
    if s != [] {
      DigitsOfNonWs(s[1..]);
      var h := if IsWs(s[0]) then [] else [s[0]];
      DigitsAppend(h, NonWs(s[1..]));
    }
  }

  lemma {:induction false} DigitsOfDigitString(s: string)
    requires AllDigits(s)
    ensures Digits(s) == s
  {
    if s != [] { DigitsOfDigitString(s[1..]); }
  }

  // ---------------------------------------------------------------------------
  // Whitespace normalisation

  /** Every whitespace character replaced by a plain space. */
  function SpaceOutWs(s: string): (r: string)
    ensures |r| == |s|
    ensures forall i {:trigger r[i]} | 0 <= i < |s| :: r[i] == if IsWs(s[i]) then ' ' else s[i]
  {
    if s == [] then [] else [if IsWs(s[0]) then ' ' else s[0]] + SpaceOutWs(s[1..])
  }

  /** Two plain spaces in a row at `i`. */
  predicate SpacePair(s: string, i: int)
    requires 0 <= i < |s| - 1
  {
    s[i] == ' ' && s[i + 1] == ' '
  }

  predicate NoDoubleSpace(s: string) {
    forall i | 0 <= i < |s| - 1 :: !SpacePair(s, i)
  }

  predicate OnlySpaceWs(s: string) {
    forall i | 0 <= i < |s| :: IsWs(s[i]) ==> s[i] == ' '
  }

  /** `replace(/[ ]+/g, " ")`: each run of plain spaces becomes one space. */
  function SqueezeSpaces(s: string): (r: string)
    ensures NoDoubleSpace(r)
    ensures |r| <= |s|
    ensures |s| > 0 ==> |r| > 0 && r[0] == s[0] && r[|r| - 1] == s[|s| - 1]
    ensures OnlySpaceWs(s) ==> OnlySpaceWs(r)
    decreases |s|
  {
    if |s| <= 1 then s
    else if s[0] == ' ' && s[1] == ' ' then SqueezeSpaces(s[1..])
    else
      var t := SqueezeSpaces(s[1..]);
      var r := [s[0]] + t;
      assert NoDoubleSpace(r) by {
        forall i | 0 <= i < |r| - 1 ensures !SpacePair(r, i) {
          if i > 0 { assert !SpacePair(t, i - 1); }
        }
      }
      r
  }

  lemma {:induction false} SqueezeKeepsNonWs(s: string)
    ensures NonWs(SqueezeSpaces(s)) == NonWs(s)
    decreases |s|
  {
    if |s| > 1 {
      SqueezeKeepsNonWs(s[1..]);
      if !(s[0] == ' ' && s[1] == ' ') {
        NonWsAppend([s[0]], SqueezeSpaces(s[1..]));
        NonWsAppend([s[0]], s[1..]);
        assert s == [s[0]] + s[1..];
      }
    }
  }

  lemma {:induction false} SqueezeNoop(s: string)
    requires NoDoubleSpace(s)
    ensures SqueezeSpaces(s) == s
    decreases |s|
  {
    if |s| > 1 {
      assert !SpacePair(s, 0);
      assert NoDoubleSpace(s[1..]) by {
        forall i | 0 <= i < |s[1..]| - 1 ensures !SpacePair(s[1..], i) { assert !SpacePair(s, i + 1); }
      }
      SqueezeNoop(s[1..]);
    }
  }

  /** `String.prototype.trimStart`. */
  function TrimStart(s: string): (r: string)
    ensures |r| <= |s|
    ensures |r| > 0 ==> !IsWs(r[0])
  {
    if |s| > 0 && IsWs(s[0]) then TrimStart(s[1..]) else s
  }

  /** What `trimStart` leaves is a suffix of the input. */
  lemma {:induction false} TrimStartSuffix(s: string)
    ensures TrimStart(s) == s[|s| - |TrimStart(s)|..]
  {
    if |s| > 0 && IsWs(s[0]) { TrimStartSuffix(s[1..]); }
  }

  /** `String.prototype.trimEnd`. */
  function TrimEnd(s: string): (r: string)
    ensures |r| <= |s|
    ensures |r| > 0 ==> !IsWs(r[|r| - 1])
  {
    if |s| > 0 && IsWs(s[|s| - 1]) then TrimEnd(s[..|s| - 1]) else s
  }

  /** What `trimEnd` leaves is a prefix of the input. */
  lemma {:induction false} TrimEndPrefix(s: string)
    ensures TrimEnd(s) == s[..|TrimEnd(s)|]
  {
    if |s| > 0 && IsWs(s[|s| - 1]) { TrimEndPrefix(s[..|s| - 1]); }
  }

  /** `String.prototype.trim`. */
  function Trim(s: string): (r: string)
    ensures |r| > 0 ==> !IsWs(r[0]) && !IsWs(r[|r| - 1])
    ensures OnlySpaceWs(s) && NoDoubleSpace(s) ==> OnlySpaceWs(r) && NoDoubleSpace(r)
  {
    var a := TrimStart(s);
    var r := TrimEnd(a);
    TrimStartSuffix(s);
    TrimEndPrefix(a);
    assert r == s[|s| - |a|..|s| - |a| + |r|] by {
      assert r == a[..|r|];
      forall k | 0 <= k < |r| ensures a[k] == s[|s| - |a| + k] { }
    }
    assert OnlySpaceWs(s) && NoDoubleSpace(s) ==> OnlySpaceWs(r) && NoDoubleSpace(r) by {
      if OnlySpaceWs(s) && NoDoubleSpace(s) {
        SliceKeepsShape(s, |s| - |a|, |s| - |a| + |r|);
      }
    }
    r
  }

  lemma {:induction false} TrimStartKeepsNonWs(s: string)
    ensures NonWs(TrimStart(s)) == NonWs(s)
  {
    if |s| > 0 && IsWs(s[0]) {
      TrimStartKeepsNonWs(s[1..]);
      assert NonWs(s) == NonWs(s[1..]);
    }
  }

  lemma {:induction false} TrimEndKeepsNonWs(s: string)
    ensures NonWs(TrimEnd(s)) == NonWs(s)
  {
    if |s| > 0 && IsWs(s[|s| - 1]) {
      TrimEndKeepsNonWs(s[..|s| - 1]);
      assert s == s[..|s| - 1] + [s[|s| - 1]];
      NonWsAppend(s[..|s| - 1], [s[|s| - 1]]);
    }
  }

  /** Trimming removes only whitespace. */
  lemma {:induction false} TrimKeepsNonWs(s: string)
    ensures NonWs(Trim(s)) == NonWs(s)
  {
    TrimStartKeepsNonWs(s);
    TrimEndKeepsNonWs(TrimStart(s));
  }

  lemma TrimNoop(s: string)
    requires |s| > 0 ==> !IsWs(s[0]) && !IsWs(s[|s| - 1])
    ensures Trim(s) == s
  {
  }

  /** Trimming is idempotent. */
  lemma TrimTwice(s: string)
    ensures Trim(Trim(s)) == Trim(s)
  {
    var t := Trim(s);
    assert t != [] ==> !IsWs(t[0]) && !IsWs(t[|t| - 1]);
    TrimNoop(t);
  }

  /** A string in the shape `normalizeText` produces: no whitespace other than
      single inner spaces. */
  predicate Normalized(s: string) {
    OnlySpaceWs(s) && NoDoubleSpace(s) && (|s| > 0 ==> s[0] != ' ' && s[|s| - 1] != ' ')
  }

  lemma SliceKeepsShape(s: string, k: nat, m: nat)
    requires k <= m <= |s|
    requires OnlySpaceWs(s) && NoDoubleSpace(s)
    ensures OnlySpaceWs(s[k..m]) && NoDoubleSpace(s[k..m])
  {
    var t := s[k..m];
    forall i | 0 <= i < |t| - 1 ensures !SpacePair(t, i) {
      assert t[i] == s[k + i] && t[i + 1] == s[k + i + 1];
      assert !SpacePair(s, k + i);
    }
    forall i | 0 <= i < |t| ensures IsWs(t[i]) ==> t[i] == ' ' {
      assert t[i] == s[k + i];
    }
  }

  /** `(s || "").replace(/ /g, " ").replace(/\s+/g, " ").trim()`: the
      non-breaking space is itself in `\s`, so every whitespace run becomes one
      space and the ends are trimmed. The result keeps every other character in
      order and has the normalised shape. */
  function NormalizeText(s: string): (r: string)
    ensures Normalized(r)
    ensures |r| <= |s|
  {
    Trim(SqueezeSpaces(SpaceOutWs(s)))
  }

  /** Normalising keeps every other character, in order. */
  lemma {:induction false} NormalizeKeepsNonWs(s: string)
    ensures NonWs(NormalizeText(s)) == NonWs(s)
  {
    var spaced := SpaceOutWs(s);
    SpaceOutKeepsNonWs(s);
    SqueezeKeepsNonWs(spaced);
    TrimKeepsNonWs(SqueezeSpaces(spaced));
  }

  lemma {:induction false} SpaceOutKeepsNonWs(s: string)
    ensures NonWs(SpaceOutWs(s)) == NonWs(s)
  {
    if s != [] {
      SpaceOutKeepsNonWs(s[1..]);
      assert SpaceOutWs(s)[1..] == SpaceOutWs(s[1..]);
    }
  }

  /** Normalising is idempotent. */
  lemma {:induction false} NormalizeTextIdempotent(s: string)
    ensures NormalizeText(NormalizeText(s)) == NormalizeText(s)
  {
    NormalizedFixpoint(NormalizeText(s));
  }

  lemma {:induction false} NormalizedFixpoint(s: string)
    requires Normalized(s)
    ensures NormalizeText(s) == s
  {
    assert SpaceOutWs(s) == s;
    SqueezeNoop(s);
    TrimNoop(s);
  }

  lemma {:induction false} DigitsOfNormalized(s: string)
    ensures Digits(NormalizeText(s)) == Digits(s)
  {
    DigitsOfNonWs(s);
    DigitsOfNonWs(NormalizeText(s));
    NormalizeKeepsNonWs(s);
  }

  // ---------------------------------------------------------------------------
  // Splitting and joining

  /** `parts.join(sep)`. */
  function Join(sep: string, parts: seq<string>): string {
    if |parts| == 0 then "" else if |parts| == 1 then parts[0] else parts[0] + sep + Join(sep, parts[1..])
  }

  lemma {:induction false} JoinSnoc(sep: string, parts: seq<string>, x: string)
    ensures Join(sep, parts + [x]) == if parts == [] then x else Join(sep, parts) + sep + x
  {
    if |parts| > 1 {
      assert (parts + [x])[1..] == parts[1..] + [x];
      JoinSnoc(sep, parts[1..], x);
    } else if |parts| == 1 {
      assert (parts + [x])[1..] == [x];
    }
  }

  lemma {:induction false} JoinAppend(sep: string, a: seq<string>, b: seq<string>)
    requires a != [] && b != []
    ensures Join(sep, a + b) == Join(sep, a) + sep + Join(sep, b)
  {
    if |a| == 1 {
      assert (a + b)[1..] == b;
    } else {
      assert (a + b)[1..] == a[1..] + b;
      JoinAppend(sep, a[1..], b);
    }
  }

  /** Index of the first space at or after `i`, or `|s|`. */
  function WordEnd(s: string, i: nat): (k: nat)
    requires i <= |s|
    ensures i <= k <= |s|
    ensures forall j | i <= j < k :: s[j] != ' '
    ensures k < |s| ==> s[k] == ' '
    decreases |s| - i
  {
    if i == |s| || s[i] == ' ' then i else WordEnd(s, i + 1)
  }

  /** `s.split(" ").filter(Boolean)`: the maximal space-free pieces of `s`. */
  function Words(s: string): (r: seq<string>)
    ensures forall w | w in r :: w != "" && ' ' !in w
    decreases |s|
  {
    if s == [] then []
    else if s[0] == ' ' then Words(s[1..])
    else
      var k := WordEnd(s, 0);
      assert ' ' !in s[..k];
      [s[..k]] + Words(s[k..])
  }

  predicate IsWord(w: string) { w != "" && NoWs(w) }

  /** On a normalised string, splitting and re-joining with single spaces
      gives the string back, and every piece is a non-empty whitespace-free word. */
  lemma {:induction false} JoinWords(s: string)
    requires Normalized(s)
    ensures Join(" ", Words(s)) == s
    ensures forall w | w in Words(s) :: IsWord(w)
    ensures s != "" <==> Words(s) != []
    decreases |s|
  {
    if s != [] {
      var k := WordEnd(s, 0);
      assert s[..k] != "";
      assert NoWs(s[..k]) by {
        forall j | 0 <= j < k ensures !IsWs(s[..k][j]) { assert s[..k][j] == s[j]; }
      }
      if k == |s| {
        assert s[k..] == [] && s[..k] == s;
        assert Words(s) == [s[..k]] + Words(s[k..]);
      } else {
        WordsAfterFirst(s, k);
        JoinWords(s[k + 1..]);
      }
    }
  }

  /** On a normalised string, the first word is followed by one space and a
      normalised rest. */
  lemma {:induction false} WordsAfterFirst(s: string, k: nat)
    requires Normalized(s) && s != [] && k == WordEnd(s, 0) && k < |s|
    ensures k + 1 < |s| && Normalized(s[k + 1..])
    ensures Words(s) == [s[..k]] + Words(s[k + 1..])
    ensures s == s[..k] + " " + s[k + 1..]
  {
    assert s[k] == ' ';
    assert k + 1 < |s| by { assert s[|s| - 1] != ' '; }
    RestNormalized(s, k);
    WordsFirst(s);
    WordsSkipSpace(s[k..]);
    assert s[k..][1..] == s[k + 1..];
    SplitAtSpace(s, k);
  }

  lemma WordsFirst(s: string)
    requires s != [] && s[0] != ' '
    ensures Words(s) == [s[..WordEnd(s, 0)]] + Words(s[WordEnd(s, 0)..])
  {
  }

  lemma WordsSkipSpace(u: string)
    requires u != [] && u[0] == ' '
    ensures Words(u) == Words(u[1..])
  {
  }

  lemma SplitAtSpace(s: string, k: nat)
    requires k < |s| && s[k] == ' '
    ensures s == s[..k] + " " + s[k + 1..]
  {
    assert s == s[..k] + s[k..];
    assert s[k..] == [s[k]] + s[k + 1..];
  }

  lemma RestNormalized(s: string, k: nat)
    requires Normalized(s) && k + 1 < |s| && s[k] == ' '
    ensures Normalized(s[k + 1..])
  {
    var rest := s[k + 1..];
    SliceKeepsShape(s, k + 1, |s|);
    assert rest == s[k + 1..|s|];
    assert !SpacePair(s, k);
    assert rest[0] == s[k + 1] && rest[|rest| - 1] == s[|s| - 1];
  }

  lemma {:induction false} WordsOfJoin(ts: seq<string>)
    requires forall t | t in ts :: t != "" && ' ' !in t
    ensures Words(Join(" ", ts)) == ts
  {
    if ts != [] {
      var s := Join(" ", ts);
      var t := ts[0];
      assert t in ts;
      assert t[0] in t;
      if |ts| == 1 {
        assert s == t;
        WordEndOf(t, "");
        assert t + "" == t;
        WordsFirst(t);
        assert t[..|t|] == t && t[|t|..] == [];
      } else {
        var rest := Join(" ", ts[1..]);
        assert s == t + (" " + rest);
        WordEndOf(t, " " + rest);
        WordsFirst(s);
        assert s[..|t|] == t;
        assert s[|t|..] == " " + rest;
        WordsSkipSpace(" " + rest);
        assert (" " + rest)[1..] == rest;
        assert forall x | x in ts[1..] :: x in ts;
        WordsOfJoin(ts[1..]);
        assert ts == [t] + ts[1..];
      }
    }
  }

  lemma {:induction false} WordEndOf(t: string, r: string)
    requires t != "" && ' ' !in t
    requires r == [] || r[0] == ' '
    ensures WordEnd(t + r, 0) == |t|
  {
    var s := t + r;
    var k := WordEnd(s, 0);
    forall j | 0 <= j < |t| ensures s[j] != ' ' {
      assert s[j] == t[j] && t[j] in t;
    }
    assert |t| < |s| ==> s[|t|] == ' ';
  }

  /** Joining non-empty whitespace-free words with single spaces gives a
      normalised string. */
  lemma {:induction false} JoinIsNormalized(ts: seq<string>)
    requires forall t | t in ts :: IsWord(t)
    ensures Normalized(Join(" ", ts))
  {
    if |ts| > 1 {
      assert forall x | x in ts[1..] :: x in ts;
      JoinIsNormalized(ts[1..]);
      var t := ts[0];
      assert t in ts;
      var rest := Join(" ", ts[1..]);
      assert rest != "" by { JoinNonEmpty(ts[1..]); }
      var s := t + " " + rest;
      assert s == Join(" ", ts);
      forall i | 0 <= i < |s| ensures IsWs(s[i]) ==> s[i] == ' ' {
        if i < |t| { assert s[i] == t[i]; }
        else if i > |t| { assert s[i] == rest[i - |t| - 1]; }
      }
      forall i | 0 <= i < |s| - 1 ensures !SpacePair(s, i) {
        if i < |t| - 1 { assert s[i] == t[i]; }
        else if i == |t| - 1 { assert s[i] == t[i]; assert !IsWs(t[i]); }
        else if i == |t| { assert s[i + 1] == rest[0]; }
        else {
          assert s[i] == rest[i - |t| - 1] && s[i + 1] == rest[i - |t|];
          assert !SpacePair(rest, i - |t| - 1);
        }
      }
      assert s[0] == t[0] && s[|s| - 1] == rest[|rest| - 1];
    } else if |ts| == 1 {
      assert Join(" ", ts) == ts[0];
      assert ts[0] in ts;
    }
  }

  lemma {:induction false} JoinNonEmpty(ts: seq<string>)
    requires ts != [] && forall t | t in ts :: t != ""
    ensures Join(" ", ts) != ""
  {
    assert ts[0] in ts;
  }

  /** `parts.join("")`. */
  function Concat(parts: seq<string>): string {
    if parts == [] then "" else parts[0] + Concat(parts[1..])
  }

  lemma ConcatPair(a: string, b: string)
    ensures Concat([a, b]) == a + b
  {
    assert [a, b][1..] == [b];
    ConcatSingle(b);
  }

  /** The pieces of a string without whitespace have none. */
  lemma NoWsPieces(a: string, b: string)
    requires NoWs(a + b)
    ensures NoWs(a) && NoWs(b)
  {
    forall i | 0 <= i < |a| ensures !IsWs(a[i]) { assert a[i] == (a + b)[i]; }
    forall i | 0 <= i < |b| ensures !IsWs(b[i]) { assert b[i] == (a + b)[|a| + i]; }
  }

  lemma ConcatSingle(v: string)
    ensures Concat([v]) == v
  {
    assert [v][0] == v && [v][1..] == [];
    assert v + "" == v;
  }

  lemma {:induction false} ConcatAppend(a: seq<string>, b: seq<string>)
    ensures Concat(a + b) == Concat(a) + Concat(b)
  {
    if a != [] {
      assert (a + b)[1..] == a[1..] + b;
      ConcatAppend(a[1..], b);
    } else {
      assert a + b == b;
    }
  }

  /** Digits survive a space-join: the separators carry none. */
  lemma {:induction false} DigitsOfJoin(ts: seq<string>)
    ensures Digits(Join(" ", ts)) == Digits(Concat(ts))
  {
    if |ts| == 1 {
      assert ts[1..] == [];
      assert Concat(ts) == ts[0] + Concat([]);
      assert ts[0] + "" == ts[0];
    } else if |ts| > 1 {
      DigitsOfJoin(ts[1..]);
      DigitsAppend(ts[0] + " ", Join(" ", ts[1..]));
      DigitsAppend(ts[0], " ");
      DigitsAppend(ts[0], Concat(ts[1..]));
    }
  }

  // ---------------------------------------------------------------------------
  // Searching and case folding

  predicate StartsWith(s: string, p: string) { |p| <= |s| && s[..|p|] == p }

  predicate EndsWith(s: string, p: string) { |p| <= |s| && s[|s| - |p|..] == p }

  /** The upper-case form used for case-insensitive matching: ASCII letters
      and the Swedish letters å, ä, ö. */
  function FoldChar(c: char): char {
    if 'a' <= c <= 'z' then (c as int - 32) as char
    else if c == 'å' then 'Å' else if c == 'ä' then 'Ä' else if c == 'ö' then 'Ö'
    else c
  }

  /** `toLowerCase` on ASCII letters and Å, Ä, Ö; other characters unchanged. */
  function LowerChar(c: char): char {
    if 'A' <= c <= 'Z' then (c as int + 32) as char
    else if c == 'Å' then 'å' else if c == 'Ä' then 'ä' else if c == 'Ö' then 'ö'
    else c
  }

  function Lower(s: string): (r: string)
    ensures |r| == |s| && forall i {:trigger r[i]} | 0 <= i < |s| :: r[i] == LowerChar(s[i])
  {
    if s == [] then [] else [LowerChar(s[0])] + Lower(s[1..])
  }

  /** `p` occurs in `s` at `i`, ignoring case. */
  predicate MatchesAtCI(s: string, p: string, i: nat) {
    i + |p| <= |s| && forall j | 0 <= j < |p| :: FoldChar(s[i + j]) == FoldChar(p[j])
  }

  /** Lower-casing before a case-insensitive test changes nothing. */
  lemma LowerMatches(s: string, p: string, i: nat)
    ensures MatchesAtCI(Lower(s), p, i) <==> MatchesAtCI(s, p, i)
  {
    forall c: char ensures FoldChar(LowerChar(c)) == FoldChar(c) { }
  }

  /** Lower-casing twice is lower-casing once. */
  lemma LowerIdempotent(s: string)
    ensures Lower(Lower(s)) == Lower(s)
  {
    forall c: char ensures LowerChar(LowerChar(c)) == LowerChar(c) { }
  }

  /** `/p/i.test(s)` for a pattern `p` without metacharacters. */
  predicate ContainsCI(s: string, p: string) {
    exists i | 0 <= i <= |s| :: MatchesAtCI(s, p, i)
  }
}
