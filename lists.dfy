/**
 * Order-preserving filters over sequences, stated once for any element type:
 * `Array.prototype.filter`, and the first-occurrence-by-key scan with a
 * `seen` set that several loops of the scraper use.
 */
module Lists {
  import opened Wrappers

  /** `a` is a subsequence of `b`. */
  predicate IsSubseqOf<T(==)>(a: seq<T>, b: seq<T>)
    decreases |b|
  {
    || a == []
    || (b != [] && a != [] && a[|a| - 1] == b[|b| - 1] && IsSubseqOf(a[..|a| - 1], b[..|b| - 1]))
    || (b != [] && IsSubseqOf(a, b[..|b| - 1]))
  }

  lemma {:induction false} SubseqMembers<T>(a: seq<T>, b: seq<T>)
    requires IsSubseqOf(a, b)
    ensures forall x | x in a :: x in b
    decreases |b|
  {
    if a != [] {
      if b != [] && a[|a| - 1] == b[|b| - 1] && IsSubseqOf(a[..|a| - 1], b[..|b| - 1]) {
        SubseqMembers(a[..|a| - 1], b[..|b| - 1]);
        assert forall x | x in a :: x in a[..|a| - 1] || x == a[|a| - 1];
      } else {
        SubseqMembers(a, b[..|b| - 1]);
      }
    }
  }

  /** A non-empty sequence is its front and its last element. */
  lemma SnocSplit<T>(xs: seq<T>)
    requires xs != []
    ensures xs[..|xs| - 1] + [xs[|xs| - 1]] == xs
  {
  }

  /** No element occurs twice. */
  predicate Distinct<T(==)>(xs: seq<T>) {
    forall a, b | 0 <= a < b < |xs| :: xs[a] != xs[b]
  }

  lemma DistinctAppend<T>(xs: seq<T>, ys: seq<T>)
    requires Distinct(xs) && Distinct(ys)
    requires forall x | x in xs :: x !in ys
    ensures Distinct(xs + ys)
  {
    var zs := xs + ys;
    forall a, b | 0 <= a < b < |zs| ensures zs[a] != zs[b] {
      if b < |xs| {
        assert zs[a] == xs[a] && zs[b] == xs[b];
      } else if a >= |xs| {
        assert zs[a] == ys[a - |xs|] && zs[b] == ys[b - |xs|];
      } else {
        assert zs[a] == xs[a] && zs[b] == ys[b - |xs|];
        assert zs[a] in xs;
      }
    }
  }

  /** A sequence without repetitions has as many members as elements. */
  lemma {:induction false} DistinctCard<T>(xs: seq<T>)
    requires Distinct(xs)
    ensures |set x | x in xs| == |xs|
  {
    if xs != [] {
      var init := xs[..|xs| - 1];
      var last := xs[|xs| - 1];
      assert Distinct(init) by {
        forall a, b | 0 <= a < b < |init| ensures init[a] != init[b] { assert init[a] == xs[a] && init[b] == xs[b]; }
      }
      DistinctCard(init);
      assert last !in init by {
        forall k | 0 <= k < |init| ensures init[k] != last { assert init[k] == xs[k]; }
      }
      assert (set x | x in xs) == (set x | x in init) + {last} by {
        assert forall x | x in xs :: x in init || x == last;
        assert forall x | x in init :: x in xs;
      }
    }
  }

  // ---------------------------------------------------------------------------
  // map

  /** `xs.map(f)`. */
  function MapEach<T, U>(xs: seq<T>, f: T -> U): (r: seq<U>)
    ensures |r| == |xs|
  {
    if xs == [] then [] else MapEach(xs[..|xs| - 1], f) + [f(xs[|xs| - 1])]
  }

  lemma {:induction false} MapEachAt<T, U>(xs: seq<T>, f: T -> U, i: nat)
    requires i < |xs|
    ensures MapEach(xs, f)[i] == f(xs[i])
  {
    if i < |xs| - 1 { MapEachAt(xs[..|xs| - 1], f, i); }
  }

  /** A property every image has holds of the whole mapped sequence. */
  lemma {:induction false} MapEachAppend<T, U>(xs: seq<T>, ys: seq<T>, f: T -> U)
    ensures MapEach(xs + ys, f) == MapEach(xs, f) + MapEach(ys, f)
    decreases |ys|
  {
    if ys != [] {
      var init := ys[..|ys| - 1];
      assert (xs + ys)[..|xs + ys| - 1] == xs + init;
      MapEachAppend(xs, init, f);
    } else {
      assert xs + ys == xs;
    }
  }

  /** `ys` is `xs` mapped through `f`, element by element. */
  ghost predicate MapsTo<T, U>(ys: seq<U>, xs: seq<T>, f: T -> U) {
    |ys| == |xs| && forall j | 0 <= j < |xs| :: ys[j] == f(xs[j])
  }

  lemma MapsToSnoc<T, U>(ys: seq<U>, xs: seq<T>, f: T -> U, x: T)
    requires MapsTo(ys, xs, f)
    ensures MapsTo(ys + [f(x)], xs + [x], f)
  {
  }

  lemma MapsToIsMapEach<T, U>(ys: seq<U>, xs: seq<T>, f: T -> U)
    requires MapsTo(ys, xs, f)
    ensures ys == MapEach(xs, f)
  {
    forall j | 0 <= j < |xs| ensures ys[j] == MapEach(xs, f)[j] {
      MapEachAt(xs, f, j);
    }
  }

  lemma {:induction false} MapEachAll<T, U>(xs: seq<T>, f: T -> U, q: U -> bool)
    requires forall x | x in xs :: q(f(x))
    ensures forall y | y in MapEach(xs, f) :: q(y)
  {
    if xs != [] {
      assert forall x | x in xs[..|xs| - 1] :: x in xs;
      MapEachAll(xs[..|xs| - 1], f, q);
    }
  }

  // ---------------------------------------------------------------------------
  // filter

  /** `xs.filter(p)`. */
  function KeepIf<T>(xs: seq<T>, p: T -> bool): (r: seq<T>)
    ensures |r| <= |xs|
  {
    if xs == [] then [] else KeepIf(xs[..|xs| - 1], p) + (if p(xs[|xs| - 1]) then [xs[|xs| - 1]] else [])
  }

  lemma KeepIfSnoc<T>(xs: seq<T>, x: T, p: T -> bool)
    ensures KeepIf(xs + [x], p) == KeepIf(xs, p) + (if p(x) then [x] else [])
  {
    assert (xs + [x])[..|xs|] == xs;
  }

  /** The filter keeps exactly the elements satisfying `p`, in order. */
  lemma {:induction false} KeepIfFacts<T>(xs: seq<T>, p: T -> bool)
    ensures IsSubseqOf(KeepIf(xs, p), xs)
    ensures forall x | x in KeepIf(xs, p) :: p(x)
    ensures forall x | x in xs :: p(x) <==> x in KeepIf(xs, p)
  {
    if xs != [] {
      var init := xs[..|xs| - 1];
      var last := xs[|xs| - 1];
      KeepIfFacts(init, p);
      var r := KeepIf(xs, p);
      assert xs[..|xs| - 1] == init;
      if p(last) {
        assert r == KeepIf(init, p) + [last];
        assert r[..|r| - 1] == KeepIf(init, p);
        assert IsSubseqOf(r, xs);
      } else {
        assert r == KeepIf(init, p);
        assert IsSubseqOf(r, xs);
      }
      assert forall x | x in xs :: x in init || x == last;
      assert forall x | x in r :: x in KeepIf(init, p) || x == last;
    }
  }

  /** Every kept element is one of the list's. */
  lemma KeepIfWithin<T>(xs: seq<T>, p: T -> bool)
    ensures forall x | x in KeepIf(xs, p) :: x in xs
  {
    KeepIfFacts(xs, p);
  }

  /** A property of every element holds of every kept one. */
  lemma {:induction false} KeepIfAll<T>(xs: seq<T>, p: T -> bool, q: T -> bool)
    requires forall x | x in xs :: q(x)
    ensures forall y | y in KeepIf(xs, p) :: q(y) && p(y)
  {
    if xs != [] {
      assert forall x | x in xs[..|xs| - 1] :: x in xs;
      KeepIfAll(xs[..|xs| - 1], p, q);
    }
  }

  /** The last kept element sits at an index after which nothing is kept. */
  lemma {:induction false} KeepLast<T>(xs: seq<T>, p: T -> bool)
    requires |KeepIf(xs, p)| >= 1
    ensures exists j | 0 <= j < |xs| ::
      (xs[j] == KeepIf(xs, p)[|KeepIf(xs, p)| - 1] && p(xs[j]) && forall k | j < k < |xs| :: !p(xs[k]))
  {
    var n := |xs|;
    var init := xs[..n - 1];
    if !p(xs[n - 1]) {
      KeepLast(init, p);
      var j :| 0 <= j < |init| && init[j] == KeepIf(init, p)[|KeepIf(init, p)| - 1] && p(init[j])
        && forall k | j < k < |init| :: !p(init[k]);
      assert xs[j] == init[j];
      forall k | j < k < n ensures !p(xs[k]) {
        if k < n - 1 { assert xs[k] == init[k]; }
      }
    }
  }

  /** The last two kept elements sit at indices `i < j`, and nothing after
      `i` other than `j` is kept. */
  lemma {:induction false} KeepLastTwo<T>(xs: seq<T>, p: T -> bool)
    requires |KeepIf(xs, p)| >= 2
    ensures var f := KeepIf(xs, p);
      exists i, j | 0 <= i < j < |xs| ::
        (xs[i] == f[|f| - 2] && xs[j] == f[|f| - 1] && p(xs[i]) && p(xs[j])
         && forall k | i < k < |xs| && k != j :: !p(xs[k]))
  {
    var n := |xs|;
    var init := xs[..n - 1];
    var f := KeepIf(xs, p);
    var g := KeepIf(init, p);
    if p(xs[n - 1]) {
      assert f == g + [xs[n - 1]];
      KeepLast(init, p);
      var i :| 0 <= i < |init| && init[i] == g[|g| - 1] && p(init[i])
        && forall k | i < k < |init| :: !p(init[k]);
      assert xs[i] == init[i];
      forall k | i < k < n && k != n - 1 ensures !p(xs[k]) {
        assert xs[k] == init[k];
      }
      assert xs[i] == f[|f| - 2];
    } else {
      assert f == g;
      KeepLastTwo(init, p);
      var i, j :| 0 <= i < j < |init| && init[i] == g[|g| - 2] && init[j] == g[|g| - 1]
        && p(init[i]) && p(init[j])
        && forall k | i < k < |init| && k != j :: !p(init[k]);
      assert xs[i] == init[i] && xs[j] == init[j];
      forall k | i < k < n && k != j ensures !p(xs[k]) {
        if k < n - 1 { assert xs[k] == init[k]; }
      }
    }
  }

  // ---------------------------------------------------------------------------
  // First index

  /** The first index at or after `i` whose element satisfies `p`: a `for`
      loop that returns at the first hit. */
  function FirstIndex<T>(xs: seq<T>, p: T -> bool, i: nat): (r: Option<nat>)
    requires i <= |xs|
    ensures r.Some? ==> i <= r.value < |xs| && p(xs[r.value])
    decreases |xs| - i
  {
    if i == |xs| then None
    else if p(xs[i]) then Some(i)
    else FirstIndex(xs, p, i + 1)
  }

  /** Everything the search passes over fails `p`. */
  lemma {:induction false} FirstIndexFacts<T>(xs: seq<T>, p: T -> bool, i: nat)
    requires i <= |xs|
    ensures FirstIndex(xs, p, i).None? ==> forall k | i <= k < |xs| :: !p(xs[k])
    ensures FirstIndex(xs, p, i).Some? ==> forall k | i <= k < FirstIndex(xs, p, i).value :: !p(xs[k])
    decreases |xs| - i
  {
    if i < |xs| && !p(xs[i]) {
      FirstIndexFacts(xs, p, i + 1);
    }
  }

  // ---------------------------------------------------------------------------
  // First occurrence by key

  /** The keys of `out`: the `seen` set of a first-occurrence scan. */
  function KeysSeen<T(==), K>(out: seq<T>, key: T -> K): set<K> {
    set o | o in out :: key(o)
  }

  lemma KeysSeenSnoc<T, K>(out: seq<T>, x: T, key: T -> K)
    ensures KeysSeen(out + [x], key) == KeysSeen(out, key) + {key(x)}
  {
    assert forall o | o in out + [x] :: o in out || o == x;
  }

  /** The scan over the first `n` elements: an element is skipped when
      `drop` holds for it or its key was seen, otherwise it is kept. */
  function FirstByKey<T(==), K(==)>(xs: seq<T>, n: nat, key: T -> K, drop: T -> bool): seq<T>
    requires n <= |xs|
  {
    if n == 0 then []
    else
      var prev := FirstByKey(xs, n - 1, key, drop);
      var x := xs[n - 1];
      if drop(x) || key(x) in KeysSeen(prev, key) then prev else prev + [x]
  }

  /** The scan keeps an ordered selection with pairwise different keys and
      no dropped element, and every element among the first `n` that is not
      dropped has its key in the output. */
  lemma FirstByKeyFacts<T, K>(xs: seq<T>, n: nat, key: T -> K, drop: T -> bool)
    requires n <= |xs|
    ensures var r := FirstByKey(xs, n, key, drop);
      && IsSubseqOf(r, xs[..n])
      && (forall a, b | 0 <= a < b < |r| :: key(r[a]) != key(r[b]))
      && (forall x | x in r :: !drop(x))
      && (forall k | 0 <= k < n :: !drop(xs[k]) ==> key(xs[k]) in KeysSeen(r, key))
  {
    FirstByKeySelects(xs, n, key, drop);
    FirstByKeyDistinct(xs, n, key, drop);
    FirstByKeyCovers(xs, n, key, drop);
  }

  lemma {:induction false} FirstByKeySelects<T, K>(xs: seq<T>, n: nat, key: T -> K, drop: T -> bool)
    requires n <= |xs|
    ensures var r := FirstByKey(xs, n, key, drop);
      IsSubseqOf(r, xs[..n]) && forall x | x in r :: !drop(x)
  {
    if n > 0 {
      FirstByKeySelects(xs, n - 1, key, drop);
      var prev := FirstByKey(xs, n - 1, key, drop);
      var x := xs[n - 1];
      var r := FirstByKey(xs, n, key, drop);
      assert xs[..n][..n - 1] == xs[..n - 1];
      if r != prev {
        assert r == prev + [x];
        assert r[..|r| - 1] == prev;
        assert forall y | y in r :: y in prev || y == x;
      }
    }
  }

  lemma {:induction false} FirstByKeyDistinct<T, K>(xs: seq<T>, n: nat, key: T -> K, drop: T -> bool)
    requires n <= |xs|
    ensures var r := FirstByKey(xs, n, key, drop);
      forall a, b | 0 <= a < b < |r| :: key(r[a]) != key(r[b])
  {
    if n > 0 {
      var prev := FirstByKey(xs, n - 1, key, drop);
      FirstByKeyDistinct(xs, n - 1, key, drop);
      assert forall a, b | 0 <= a < b < |prev| :: key(prev[a]) != key(prev[b]) by {
        assert var q := FirstByKey(xs, n - 1, key, drop); forall a, b | 0 <= a < b < |q| :: key(q[a]) != key(q[b]);
      }
      var x := xs[n - 1];
      var r := FirstByKey(xs, n, key, drop);
      if !(drop(x) || key(x) in KeysSeen(prev, key)) {
        assert r == prev + [x];
        forall a, b | 0 <= a < b < |r| ensures key(r[a]) != key(r[b]) {
          if b == |r| - 1 {
            assert r[a] == prev[a] && r[b] == x;
            assert key(r[a]) in KeysSeen(prev, key);
          } else {
            assert r[a] == prev[a] && r[b] == prev[b];
          }
        }
      }
    }
  }

  lemma {:induction false} FirstByKeyCovers<T, K>(xs: seq<T>, n: nat, key: T -> K, drop: T -> bool)
    requires n <= |xs|
    ensures var r := FirstByKey(xs, n, key, drop);
      forall k | 0 <= k < n :: !drop(xs[k]) ==> key(xs[k]) in KeysSeen(r, key)
  {
    if n > 0 {
      FirstByKeyCovers(xs, n - 1, key, drop);
      var prev := FirstByKey(xs, n - 1, key, drop);
      var x := xs[n - 1];
      if !(drop(x) || key(x) in KeysSeen(prev, key)) {
        KeysSeenSnoc(prev, x, key);
      }
    }
  }

  /** `[...new Set(xs)]`: the first occurrence of every element, in order. */
  function Unique<T(==)>(xs: seq<T>): (r: seq<T>)
    ensures |r| <= |xs|
  {
    if xs == [] then []
    else
      var u := Unique(xs[..|xs| - 1]);
      if xs[|xs| - 1] in u then u else u + [xs[|xs| - 1]]
  }

  /** `x` occurs in `xs` before any occurrence of `y`. */
  predicate FirstSeenBefore<T(==)>(xs: seq<T>, x: T, y: T) {
    exists p | 0 <= p < |xs| && xs[p] == x :: forall q | 0 <= q <= p :: xs[q] != y
  }

  lemma FirstSeenBeforeSnoc<T>(xs: seq<T>, z: T, x: T, y: T)
    requires FirstSeenBefore(xs, x, y)
    ensures FirstSeenBefore(xs + [z], x, y)
  {
    var p :| 0 <= p < |xs| && xs[p] == x && forall q | 0 <= q <= p :: xs[q] != y;
    var ys := xs + [z];
    assert ys[p] == x;
    assert forall q | 0 <= q <= p :: ys[q] == xs[q];
  }

  /** The distinct elements, each once, in first-seen order: of any two
      elements of the result, the earlier one occurs in `xs` before the first
      occurrence of the later one. */
  lemma {:induction false} UniqueFacts<T>(xs: seq<T>)
    ensures IsSubseqOf(Unique(xs), xs)
    ensures forall a, b | 0 <= a < b < |Unique(xs)| :: Unique(xs)[a] != Unique(xs)[b]
    ensures forall x :: x in Unique(xs) <==> x in xs
    ensures forall a, b | 0 <= a < b < |Unique(xs)| :: FirstSeenBefore(xs, Unique(xs)[a], Unique(xs)[b])
  {
    if xs != [] {
      var init := xs[..|xs| - 1];
      var last := xs[|xs| - 1];
      UniqueFacts(init);
      var u := Unique(init);
      var r := Unique(xs);
      assert xs == init + [last];
      assert forall x | x in xs :: x in init || x == last;
      assert forall x | x in init :: x in xs;
      if last in u {
        assert r == u;
        assert IsSubseqOf(r, xs);
        forall a, b | 0 <= a < b < |r| ensures FirstSeenBefore(xs, r[a], r[b]) {
          FirstSeenBeforeSnoc(init, last, r[a], r[b]);
        }
      } else {
        assert r == u + [last];
        assert r[..|r| - 1] == u;
        assert IsSubseqOf(r, xs);
        forall a, b | 0 <= a < b < |r| ensures r[a] != r[b] {
          if b == |r| - 1 { assert r[a] in u; }
          else { assert r[a] == u[a] && r[b] == u[b]; }
        }
        forall a, b | 0 <= a < b < |r| ensures FirstSeenBefore(xs, r[a], r[b]) {
          if b == |r| - 1 {
            assert r[a] == u[a] && u[a] in init;
            var p :| 0 <= p < |init| && init[p] == r[a];
            assert xs[p] == r[a];
            assert forall q | 0 <= q <= p :: xs[q] == init[q] && xs[q] != last;
          } else {
            assert r[a] == u[a] && r[b] == u[b];
            FirstSeenBeforeSnoc(init, last, r[a], r[b]);
          }
        }
      }
    }
  }
}
