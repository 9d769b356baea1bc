/**
 * `clusterRows` of src/pdfXYExtract.js: the positioned text items of a page
 * are grouped into rows by their y coordinate. Coordinates are reals; only
 * comparisons, sums, halving and a median are used.
 */
module Layout {
  import opened Wrappers
  import opened Strs
  import opened Sorting

  /** A positioned text item of one page: its text, the x and y of its
      origin, its width and its height. */
  datatype Token = Token(text: string, x: real, y: real, w: real, h: real)

  /** A row while it is being built: its y and its tokens in arrival order. */
  datatype Band = Band(y: real, tokens: seq<Token>)

  /** A finished row: tokens left to right and their normalised text. */
  datatype Row = Row(y: real, tokens: seq<Token>, text: string)

  function Abs(a: real): real { if a < 0.0 then -a else a }

  /** `(a, b) => b.y - a.y`: higher tokens first. */
  predicate TokenYDesc(a: Token, b: Token) { a.y >= b.y }

  /** `(a, b) => a.x - b.x`: left to right. */
  predicate TokenXAsc(a: Token, b: Token) { a.x <= b.x }

  /** `(a, b) => b.y - a.y` on rows. */
  predicate RowYDesc(a: Row, b: Row) { a.y >= b.y }

  lemma OrdersArePreorders()
    ensures TotalPreorder(TokenYDesc) && TotalPreorder(TokenXAsc) && TotalPreorder(RowYDesc)
  {
  }

  // ---------------------------------------------------------------------------
  // The row tolerance

  /** The heights that are finite and positive (a missing or non-finite
      height is given as 0). */
  function PositiveHeights(ts: seq<Token>): (r: seq<real>)
    ensures forall h | h in r :: h > 0.0
    ensures |r| <= |ts|
  {
    if ts == [] then []
    else (if ts[0].h > 0.0 then [ts[0].h] else []) + PositiveHeights(ts[1..])
  }

  lemma {:induction false} PositiveHeightsComplete(ts: seq<Token>, k: nat)
    requires k < |ts| && ts[k].h > 0.0
    ensures ts[k].h in PositiveHeights(ts)
  {
    if k > 0 { PositiveHeightsComplete(ts[1..], k - 1); }
  }

  /** The upper median of the positive heights, or 8 when there are none. */
  function MedianHeight(ts: seq<Token>): (m: real)
    ensures m > 0.0
    ensures PositiveHeights(ts) != [] ==> m in PositiveHeights(ts)
  {
    var hs := PositiveHeights(ts);
    if hs == [] then 8.0
    else
      var s := SortReals(hs);
      var m := s[|hs| / 2];
      assert m in multiset(s);
      assert m in multiset(hs);
      assert m in hs;
      m
  }

  /** `Math.max(2.5, Math.min(10, medianH * 0.6))`. */
  function Tolerance(ts: seq<Token>): (tol: real)
    ensures 2.5 <= tol <= 10.0
    ensures 2.5 < tol < 10.0 ==> tol == MedianHeight(ts) * 0.6
  {
    var m := MedianHeight(ts) * 0.6;
    if m < 2.5 then 2.5 else if m > 10.0 then 10.0 else m
  }

  /** The upper median: at least half of the sorted heights lie at or below it
      and at least half at or above it. */
  lemma {:induction false} MedianSplitsHeights(ts: seq<Token>)
    requires PositiveHeights(ts) != []
    ensures var s := SortReals(PositiveHeights(ts));
            && (forall i | 0 <= i <= |s| / 2 :: s[i] <= MedianHeight(ts))
            && (forall i | |s| / 2 <= i < |s| :: s[i] >= MedianHeight(ts))
  {
  }

  // ---------------------------------------------------------------------------
  // Choosing the row a token joins

  /** The row `t` joins: among the rows whose y is within `tol` of `ty`, the
      one closest to it, the earliest one on a tie (`dy < bestDy` is strict);
      `None` when no row is close enough. */
  function BestRow(bands: seq<Band>, ty: real, tol: real): (r: Option<nat>)
    ensures r.Some? ==> r.value < |bands| && Abs(bands[r.value].y - ty) <= tol
  {
    if bands == [] then None
    else
      var b := BestRow(bands[..|bands| - 1], ty, tol);
      var d := Abs(bands[|bands| - 1].y - ty);
      if d <= tol && (b.None? || d < Abs(bands[b.value].y - ty)) then Some(|bands| - 1) else b
  }

  /** The chosen row is the first of the nearest rows within the tolerance,
      and there is none exactly when no row is within it. */
  lemma {:induction false} BestRowFacts(bands: seq<Band>, ty: real, tol: real)
    ensures var r := BestRow(bands, ty, tol);
      && (r.Some? ==> forall k | 0 <= k < |bands| && Abs(bands[k].y - ty) <= tol ::
                        Abs(bands[r.value].y - ty) <= Abs(bands[k].y - ty))
      && (r.Some? ==> forall k | 0 <= k < r.value ::
                        Abs(bands[k].y - ty) > tol || Abs(bands[k].y - ty) > Abs(bands[r.value].y - ty))
      && (r.None? <==> forall k | 0 <= k < |bands| :: Abs(bands[k].y - ty) > tol)
  {
    if bands != [] {
      var init := bands[..|bands| - 1];
      BestRowFacts(init, ty, tol);
      assert forall k | 0 <= k < |init| :: init[k] == bands[k];
    }
  }

  /** The inner loop of `clusterRows` over the rows built so far. */
  method FindBestRow(bands: seq<Band>, ty: real, tol: real) returns (best: Option<nat>)
    ensures best == BestRow(bands, ty, tol)
  {
    best := None;
    var bestDy := 0.0;
    var j := 0;
    while j < |bands|
      invariant j <= |bands|
      invariant best == BestRow(bands[..j], ty, tol)
      invariant best.Some? ==> best.value < j && bestDy == Abs(bands[best.value].y - ty)
    {
      assert bands[..j + 1][..j] == bands[..j];
      var dy := Abs(bands[j].y - ty);
      if dy <= tol && (best.None? || dy < bestDy) {
        best := Some(j);
        bestDy := dy;
      }
      j := j + 1;
    }
    assert bands[..j] == bands;
  }

  // ---------------------------------------------------------------------------
  // Building the rows

  /** A token joins a row: the row's y becomes the midpoint of its y and the
      token's y (not a running mean) and the token is appended. */
  function Join1(b: Band, t: Token): Band {
    Band((b.y + t.y) / 2.0, b.tokens + [t])
  }

  /** The rows after the tokens of `sorted` have been placed in order. */
  function Bands(sorted: seq<Token>, tol: real): (r: seq<Band>)
    ensures |r| <= |sorted|
  {
    if sorted == [] then []
    else
      var rows := Bands(sorted[..|sorted| - 1], tol);
      var t := sorted[|sorted| - 1];
      match BestRow(rows, t.y, tol)
      case None => rows + [Band(t.y, [t])]
      case Some(b) => rows[b := Join1(rows[b], t)]
  }

  /** The main loop of `clusterRows`. */
  method PlaceTokens(sorted: seq<Token>, tol: real) returns (rows: seq<Band>)
    ensures rows == Bands(sorted, tol)
  {
    rows := [];
    var i := 0;
    while i < |sorted|
      invariant i <= |sorted|
      invariant rows == Bands(sorted[..i], tol)
    {
      var t := sorted[i];
      assert sorted[..i + 1][..i] == sorted[..i];
      var best := FindBestRow(rows, t.y, tol);
      if best.None? {
        rows := rows + [Band(t.y, [t])];
      } else {
        rows := rows[best.value := Join1(rows[best.value], t)];
      }
      i := i + 1;
    }
    assert sorted[..i] == sorted;
  }

  /** `r.text`: the normalised space-join of the tokens' texts. */
  function Texts(ts: seq<Token>): (r: seq<string>)
    ensures |r| == |ts| && forall k {:trigger r[k]} | 0 <= k < |ts| :: r[k] == ts[k].text
  {
    if ts == [] then [] else [ts[0].text] + Texts(ts[1..])
  }

  function TextOf(ts: seq<Token>): string {
    NormalizeText(Join(" ", Texts(ts)))
  }

  /** A finished row: its tokens sorted left to right and its text. */
  function Finish(b: Band): Row {
    var ts := SortBy(b.tokens, TokenXAsc);
    Row(b.y, ts, TextOf(ts))
  }

  function FinishAll(bands: seq<Band>): (r: seq<Row>)
    ensures |r| == |bands| && forall k {:trigger r[k]} | 0 <= k < |bands| :: r[k] == Finish(bands[k])
  {
    if bands == [] then [] else [Finish(bands[0])] + FinishAll(bands[1..])
  }

  /** `clusterRows(tokens)`. */
  function ClusterRows(tokens: seq<Token>): seq<Row> {
    if tokens == [] then []
    else
      var sorted := SortBy(tokens, TokenYDesc);
      SortBy(FinishAll(Bands(sorted, Tolerance(sorted))), RowYDesc)
  }

  /** `clusterRows`: sort, place every token, finish every row, sort the rows. */
  method ClusterRowsMethod(tokens: seq<Token>) returns (rows: seq<Row>)
    ensures rows == ClusterRows(tokens)
  {
    if |tokens| == 0 {
      return [];
    }
    var sorted := SortBy(tokens, TokenYDesc);
    var tol := Tolerance(sorted);
    var bands := PlaceTokens(sorted, tol);
    var done := FinishRows(bands);
    rows := SortBy(done, RowYDesc);
  }

  /** The loop that sorts each row's tokens and sets its text. */
  method FinishRows(bands: seq<Band>) returns (done: seq<Row>)
    ensures done == FinishAll(bands)
  {
    done := [];
    var k := 0;
    while k < |bands|
      invariant k <= |bands|
      invariant |done| == k && forall j | 0 <= j < k :: done[j] == Finish(bands[j])
    {
      var r := FinishRow(bands[k]);
      done := done + [r];
      k := k + 1;
    }
    FinishAllPointwise(bands, done);
  }

  lemma {:induction false} FinishAllPointwise(bands: seq<Band>, done: seq<Row>)
    requires |done| == |bands| && forall j | 0 <= j < |bands| :: done[j] == Finish(bands[j])
    ensures done == FinishAll(bands)
  {
  }

  /** One pass of the loop that sorts a row's tokens and sets its text. */
  method FinishRow(b: Band) returns (r: Row)
    ensures r == Finish(b)
  {
    var ts := SortBy(b.tokens, TokenXAsc);
    r := Row(b.y, ts, TextOf(ts));
  }

  // ---------------------------------------------------------------------------
  // Every token lands in exactly one row

  function BandTokens(bands: seq<Band>): seq<Token> {
    if bands == [] then [] else bands[0].tokens + BandTokens(bands[1..])
  }

  function RowTokens(rows: seq<Row>): seq<Token> {
    if rows == [] then [] else rows[0].tokens + RowTokens(rows[1..])
  }

  lemma {:induction false} BandTokensAppend(a: seq<Band>, b: seq<Band>)
    ensures BandTokens(a + b) == BandTokens(a) + BandTokens(b)
  {
    if a != [] {
      assert (a + b)[1..] == a[1..] + b;
      BandTokensAppend(a[1..], b);
    } else {
      assert a + b == b;
    }
  }

  lemma BandTokensSingle(b: Band)
    ensures BandTokens([b]) == b.tokens
  {
    assert BandTokens([b]) == b.tokens + BandTokens([]);
  }

  /** The tokens of the rows around position `i`. */
  lemma {:induction false} BandTokensAround(s: seq<Band>, i: nat)
    requires i < |s|
    ensures BandTokens(s) == BandTokens(s[..i]) + s[i].tokens + BandTokens(s[i + 1..])
  {
    if i == 0 {
      assert s[..0] == [];
    } else {
      var t := s[1..];
      BandTokensAround(t, i - 1);
      assert t[..i - 1] == s[..i][1..];
      assert t[i - 1] == s[i] && t[i..] == s[i + 1..];
      assert BandTokens(s[..i]) == s[0].tokens + BandTokens(s[..i][1..]);
    }
  }

  lemma {:induction false} NewBandKeepsTokens(rows: seq<Band>, t: Token)
    ensures multiset(BandTokens(rows + [Band(t.y, [t])])) == multiset(BandTokens(rows)) + multiset{t}
  {
    BandTokensAppend(rows, [Band(t.y, [t])]);
    BandTokensSingle(Band(t.y, [t]));
  }

  lemma JoinKeepsTokens(rows: seq<Band>, i: nat, t: Token)
    requires i < |rows|
    ensures multiset(BandTokens(rows[i := Join1(rows[i], t)])) == multiset(BandTokens(rows)) + multiset{t}
  {
    var u := rows[i := Join1(rows[i], t)];
    BandTokensAround(rows, i);
    BandTokensAround(u, i);
    assert u[..i] == rows[..i] && u[i + 1..] == rows[i + 1..];
  }

  lemma {:induction false} BandsKeepTokens(sorted: seq<Token>, tol: real)
    ensures multiset(BandTokens(Bands(sorted, tol))) == multiset(sorted)
  {
    if sorted != [] {
      var init := sorted[..|sorted| - 1];
      var t := sorted[|sorted| - 1];
      var rows := Bands(init, tol);
      BandsKeepTokens(init, tol);
      assert multiset(sorted) == multiset(init) + multiset{t} by {
        assert sorted == init + [t];
      }
      var best := BestRow(rows, t.y, tol);
      if best.None? {
        assert Bands(sorted, tol) == rows + [Band(t.y, [t])];
        NewBandKeepsTokens(rows, t);
      } else {
        assert Bands(sorted, tol) == rows[best.value := Join1(rows[best.value], t)];
        JoinKeepsTokens(rows, best.value, t);
      }
    }
  }

  lemma {:induction false} FinishKeepsTokens(bands: seq<Band>)
    ensures multiset(RowTokens(FinishAll(bands))) == multiset(BandTokens(bands))
  {
    if bands != [] {
      FinishKeepsTokens(bands[1..]);
      assert FinishAll(bands)[1..] == FinishAll(bands[1..]);
    }
  }

  lemma {:induction false} InsertKeepsTokens(x: Row, s: seq<Row>)
    ensures multiset(RowTokens(Insert(x, s, RowYDesc))) == multiset(RowTokens(s)) + multiset(x.tokens)
  {
    if s != [] && RowYDesc(s[0], x) {
      InsertKeepsTokens(x, s[1..]);
      var r := Insert(x, s, RowYDesc);
      assert r[0] == s[0] && r[1..] == Insert(x, s[1..], RowYDesc);
    } else {
      var r := Insert(x, s, RowYDesc);
      assert r[0] == x && r[1..] == s;
    }
  }

  lemma {:induction false} SortStepTokens(rows: seq<Row>)
    requires rows != []
    ensures multiset(RowTokens(SortBy(rows, RowYDesc)))
         == multiset(RowTokens(SortBy(rows[..|rows| - 1], RowYDesc))) + multiset(rows[|rows| - 1].tokens)
  {
    InsertKeepsTokens(rows[|rows| - 1], SortBy(rows[..|rows| - 1], RowYDesc));
  }

  lemma {:induction false} RowTokensSnoc(rows: seq<Row>)
    requires rows != []
    ensures multiset(RowTokens(rows)) == multiset(RowTokens(rows[..|rows| - 1])) + multiset(rows[|rows| - 1].tokens)
  {
    var last := rows[|rows| - 1];
    assert rows == rows[..|rows| - 1] + [last];
    RowTokensAppend(rows[..|rows| - 1], [last]);
    assert RowTokens([last]) == last.tokens + RowTokens([]);
  }

  lemma {:induction false} SortKeepsTokens(rows: seq<Row>)
    ensures multiset(RowTokens(SortBy(rows, RowYDesc))) == multiset(RowTokens(rows))
  {
    if rows != [] {
      SortKeepsTokens(rows[..|rows| - 1]);
      SortStepTokens(rows);
      RowTokensSnoc(rows);
    }
  }

  lemma {:induction false} RowTokensAppend(a: seq<Row>, b: seq<Row>)
    ensures RowTokens(a + b) == RowTokens(a) + RowTokens(b)
  {
    if a != [] {
      assert (a + b)[1..] == a[1..] + b;
      RowTokensAppend(a[1..], b);
    } else {
      assert a + b == b;
    }
  }

  /** Every token is placed in exactly one row: the rows' tokens are the
      input tokens, each as often as it occurs. */
  lemma ClusterKeepsTokens(tokens: seq<Token>)
    ensures multiset(RowTokens(ClusterRows(tokens))) == multiset(tokens)
  {
    if tokens != [] {
      var sorted := SortBy(tokens, TokenYDesc);
      var bands := Bands(sorted, Tolerance(sorted));
      BandsKeepTokens(sorted, Tolerance(sorted));
      FinishKeepsTokens(bands);
      SortKeepsTokens(FinishAll(bands));
    }
  }

  // ---------------------------------------------------------------------------
  // The shape of each row

  /** A row's y lies between the lowest and the highest y of its tokens. */
  predicate Spanned(y: real, ts: seq<Token>) {
    (exists t | t in ts :: t.y <= y) && (exists t | t in ts :: t.y >= y)
  }

  predicate GoodBand(b: Band) { Spanned(b.y, b.tokens) }

  lemma JoinKeepsGood(b: Band, t: Token)
    requires GoodBand(b)
    ensures GoodBand(Join1(b, t))
  {
    var y := (b.y + t.y) / 2.0;
    var ts := b.tokens + [t];
    assert t in ts;
    var lo :| lo in b.tokens && lo.y <= b.y;
    var hi :| hi in b.tokens && hi.y >= b.y;
    assert lo in ts && hi in ts;
    if t.y <= b.y {
      assert t.y <= y && hi.y >= y;
    } else {
      assert lo.y <= y && t.y >= y;
    }
  }

  lemma {:induction false} BandsGood(sorted: seq<Token>, tol: real)
    ensures forall b | b in Bands(sorted, tol) :: GoodBand(b)
  {
    if sorted != [] {
      var init := sorted[..|sorted| - 1];
      var t := sorted[|sorted| - 1];
      var rows := Bands(init, tol);
      BandsGood(init, tol);
      match BestRow(rows, t.y, tol)
      case None =>
        assert t in [t];
        assert GoodBand(Band(t.y, [t]));
      case Some(i) =>
        JoinKeepsGood(rows[i], t);
        forall b | b in rows[i := Join1(rows[i], t)] ensures GoodBand(b) {
          var k :| 0 <= k < |rows| && rows[i := Join1(rows[i], t)][k] == b;
          if k != i { assert b == rows[k]; assert rows[k] in rows; }
        }
    }
  }

  /** Every row has a token, its y lies between its tokens' lowest and
      highest y, and its tokens run left to right. */
  predicate GoodRow(r: Row) {
    r.tokens != [] && Spanned(r.y, r.tokens) && SortedBy(r.tokens, TokenXAsc)
  }

  lemma FinishGood(b: Band)
    requires GoodBand(b)
    ensures GoodRow(Finish(b))
  {
    var ts := SortBy(b.tokens, TokenXAsc);
    OrdersArePreorders();
    SortBySorted(b.tokens, TokenXAsc);
    var lo :| lo in b.tokens && lo.y <= b.y;
    var hi :| hi in b.tokens && hi.y >= b.y;
    assert lo in multiset(b.tokens) && hi in multiset(b.tokens);
    assert lo in multiset(ts) && hi in multiset(ts);
    assert lo in ts && hi in ts;
  }

  /** The rows come out highest first; each row is non-empty, has its tokens
      left to right and a y within the range of its tokens' y values. */
  lemma ClusterShape(tokens: seq<Token>)
    ensures SortedBy(ClusterRows(tokens), RowYDesc)
    ensures forall r | r in ClusterRows(tokens) :: GoodRow(r)
  {
    OrdersArePreorders();
    if tokens != [] {
      var sorted := SortBy(tokens, TokenYDesc);
      var bands := Bands(sorted, Tolerance(sorted));
      var rows := FinishAll(bands);
      SortBySorted(rows, RowYDesc);
      BandsGood(sorted, Tolerance(sorted));
      forall r | r in rows ensures GoodRow(r) {
        var k :| 0 <= k < |rows| && rows[k] == r;
        assert bands[k] in bands;
        FinishGood(bands[k]);
      }
      forall r | r in SortBy(rows, RowYDesc) ensures GoodRow(r) {
        assert r in multiset(SortBy(rows, RowYDesc));
        assert r in multiset(rows);
      }
    }
  }
}
