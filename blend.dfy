/**
 * `blendXyAndTextLines` of src/scraper.js: the hits of the XY pipeline and
 * of the text pipeline are merged key by key. When one side is empty the
 * other is the result as it is. Otherwise every hit without values gets the
 * numbers of its line, the hits are grouped by key (keys in first-seen order,
 * XY keys first), and for each key the i-th XY hit and the i-th text hit
 * compete: the one whose values fill more of the two year columns wins, the
 * XY hit on a tie, and a hit without a rival is kept.
 */
module Blend {
  import opened Selection
  import opened Numbers
  import Lists

  // ---------------------------------------------------------------------------
  // Values

  /** `Math.min(values.length, 2)`: how many of the two year columns a hit's
      values fill. */
  function Score(h: Hit): (n: nat)
    ensures n <= 2 && n <= |h.values|
    ensures n == 2 || n == |h.values|
  {
    if |h.values| >= 2 then 2 else |h.values|
  }

  /** `withValues` for one hit: a hit without values takes the numbers of its
      line, `extractNumbersFromLine(line, { preferredCount: 2 })`. */
  function WithValues(h: Hit): (r: Hit)
    ensures r.key == h.key && r.line == h.line && r.lineIndex == h.lineIndex && r.source == h.source
    ensures h.values != [] ==> r == h
  {
    if h.values != [] then h else h.(values := NumbersFromLine(h.line, 2, true))
  }

  /** `withValues(arr)`. */
  function FillValues(hs: seq<Hit>): (r: seq<Hit>)
    ensures |r| == |hs|
  {
    if hs == [] then [] else FillValues(hs[..|hs| - 1]) + [WithValues(hs[|hs| - 1])]
  }

  lemma {:induction false} FillValuesAt(hs: seq<Hit>, i: nat)
    requires i < |hs|
    ensures FillValues(hs)[i] == WithValues(hs[i])
  {
    if i < |hs| - 1 {
      FillValuesAt(hs[..|hs| - 1], i);
    }
  }

  /** Filling twice fills nothing more. */
  lemma WithValuesIdempotent(h: Hit)
    ensures WithValues(WithValues(h)) == WithValues(h)
  {
  }

  lemma {:induction false} FillValuesIdempotent(hs: seq<Hit>)
    ensures FillValues(FillValues(hs)) == FillValues(hs)
  {
    if hs != [] {
      var f := FillValues(hs);
      FillValuesIdempotent(hs[..|hs| - 1]);
      assert f[..|f| - 1] == FillValues(hs[..|hs| - 1]);
      WithValuesIdempotent(hs[|hs| - 1]);
    }
  }

  /** Filling keeps every key. */
  lemma {:induction false} FillValuesKeys(hs: seq<Hit>, k: string)
    ensures KeyHits(FillValues(hs), k) == KeyHits(hs, k)
  {
    if hs != [] {
      FillValuesKeys(hs[..|hs| - 1], k);
      var f := FillValues(hs);
      assert f[..|f| - 1] == FillValues(hs[..|hs| - 1]);
    }
  }

  // ---------------------------------------------------------------------------
  // Grouping by key

  /** The hits with key `k`, in order: `byKey(arr).get(k) || []`. */
  function Group(hs: seq<Hit>, k: string): seq<Hit> {
    if hs == [] then []
    else Group(hs[..|hs| - 1], k) + (if hs[|hs| - 1].key == k then [hs[|hs| - 1]] else [])
  }

  lemma {:induction false} GroupSize(hs: seq<Hit>, k: string)
    ensures |Group(hs, k)| == KeyHits(hs, k)
  {
    if hs != [] {
      GroupSize(hs[..|hs| - 1], k);
    }
  }

  lemma {:induction false} GroupKeys(hs: seq<Hit>, k: string)
    ensures forall h | h in Group(hs, k) :: h.key == k && h in hs
  {
    if hs != [] {
      GroupKeys(hs[..|hs| - 1], k);
      forall h | h in hs[..|hs| - 1] ensures h in hs { }
    }
  }

  /** The keys of the hits, in order. */
  function KeysOf(hs: seq<Hit>): (r: seq<string>)
    ensures |r| == |hs|
  {
    if hs == [] then [] else KeysOf(hs[..|hs| - 1]) + [hs[|hs| - 1].key]
  }

  lemma {:induction false} KeysOfHas(hs: seq<Hit>, k: string)
    ensures k in KeysOf(hs) <==> KeyHits(hs, k) > 0
  {
    if hs != [] {
      KeysOfHas(hs[..|hs| - 1], k);
    }
  }

  /** `new Set([...xyMap.keys(), ...txMap.keys()])`: the keys of the XY hits
      in first-seen order, then the keys only the text hits have. */
  function KeyOrder(xy: seq<Hit>, tx: seq<Hit>): seq<string> {
    Lists.Unique(Lists.Unique(KeysOf(xy)) + Lists.Unique(KeysOf(tx)))
  }

  lemma KeyOrderFacts(xy: seq<Hit>, tx: seq<Hit>, k: string)
    ensures Lists.Distinct(KeyOrder(xy, tx))
    ensures k in KeyOrder(xy, tx) <==> KeyHits(xy, k) > 0 || KeyHits(tx, k) > 0
    ensures var ks := Lists.Unique(KeysOf(xy)) + Lists.Unique(KeysOf(tx));
      forall a, b | 0 <= a < b < |KeyOrder(xy, tx)| ::
        Lists.FirstSeenBefore(ks, KeyOrder(xy, tx)[a], KeyOrder(xy, tx)[b])
  {
    Lists.UniqueFacts(KeysOf(xy));
    Lists.UniqueFacts(KeysOf(tx));
    Lists.UniqueFacts(Lists.Unique(KeysOf(xy)) + Lists.Unique(KeysOf(tx)));
    KeysOfHas(xy, k);
    KeysOfHas(tx, k);
  }

  // ---------------------------------------------------------------------------
  // Merging one key

  /** The winner at position `i`: the hit present when only one side has one,
      otherwise the one with the higher score, the XY hit on a tie. */
  function Pick(xa: seq<Hit>, ta: seq<Hit>, i: nat): (r: Hit)
    requires i < |xa| || i < |ta|
    ensures i >= |xa| ==> r == ta[i]
    ensures i >= |ta| ==> r == xa[i]
    ensures i < |xa| && i < |ta| ==>
              (r == xa[i] || r == ta[i]) && Score(r) == Max(Score(xa[i]), Score(ta[i]))
              && (Score(xa[i]) >= Score(ta[i]) ==> r == xa[i])
  {
    if i >= |xa| then ta[i]
    else if i >= |ta| then xa[i]
    else if Score(xa[i]) >= Score(ta[i]) then xa[i]
    else ta[i]
  }

  function MaxLen(xa: seq<Hit>, ta: seq<Hit>): nat {
    if |xa| >= |ta| then |xa| else |ta|
  }

  /** The winners at positions `0 .. n - 1`. */
  function MergeUpTo(xa: seq<Hit>, ta: seq<Hit>, n: nat): (r: seq<Hit>)
    requires n <= MaxLen(xa, ta)
    ensures |r| == n
  {
    if n == 0 then [] else MergeUpTo(xa, ta, n - 1) + [Pick(xa, ta, n - 1)]
  }

  /** The merged hits of one key. */
  function Merge(xa: seq<Hit>, ta: seq<Hit>): seq<Hit> {
    MergeUpTo(xa, ta, MaxLen(xa, ta))
  }

  lemma {:induction false} MergeUpToAt(xa: seq<Hit>, ta: seq<Hit>, n: nat, i: nat)
    requires n <= MaxLen(xa, ta) && i < n
    ensures MergeUpTo(xa, ta, n)[i] == Pick(xa, ta, i)
  {
    if i < n - 1 {
      MergeUpToAt(xa, ta, n - 1, i);
    }
  }

  /** As many hits as the longer side, each the better of the two at its
      position. */
  lemma MergeFacts(xa: seq<Hit>, ta: seq<Hit>)
    ensures |Merge(xa, ta)| == MaxLen(xa, ta)
    ensures forall i | 0 <= i < MaxLen(xa, ta) :: Merge(xa, ta)[i] == Pick(xa, ta, i)
  {
    forall i | 0 <= i < MaxLen(xa, ta) ensures Merge(xa, ta)[i] == Pick(xa, ta, i) {
      MergeUpToAt(xa, ta, MaxLen(xa, ta), i);
    }
  }

  /** A side merged with itself is itself. */
  lemma MergeSelf(a: seq<Hit>)
    ensures Merge(a, a) == a
  {
    MergeFacts(a, a);
  }

  /** Every merged hit is one of the two sides' hits. */
  lemma MergeFrom(xa: seq<Hit>, ta: seq<Hit>)
    ensures forall h | h in Merge(xa, ta) :: h in xa || h in ta
  {
    MergeFacts(xa, ta);
    forall h | h in Merge(xa, ta) ensures h in xa || h in ta {
      var i :| 0 <= i < |Merge(xa, ta)| && Merge(xa, ta)[i] == h;
      assert h == Pick(xa, ta, i);
    }
  }

  /** Merged hits of one key all have that key. */
  lemma MergeKeyHits(xa: seq<Hit>, ta: seq<Hit>, key: string, k: string)
    requires forall h | h in xa :: h.key == key
    requires forall h | h in ta :: h.key == key
    ensures KeyHits(Merge(xa, ta), k) == if key == k then MaxLen(xa, ta) else 0
  {
    MergeFrom(xa, ta);
    AllKeyHits(Merge(xa, ta), key, k);
  }

  lemma {:induction false} AllKeyHits(hs: seq<Hit>, key: string, k: string)
    requires forall h | h in hs :: h.key == key
    ensures KeyHits(hs, k) == if key == k then |hs| else 0
  {
    if hs != [] {
      AllKeyHits(hs[..|hs| - 1], key, k);
      assert hs[|hs| - 1] in hs;
    }
  }

  // ---------------------------------------------------------------------------
  // Blending

  /** The merged hits of each key, key after key. */
  function Combine(keys: seq<string>, xy: seq<Hit>, tx: seq<Hit>): seq<Hit> {
    if keys == [] then []
    else
      var k := keys[|keys| - 1];
      Combine(keys[..|keys| - 1], xy, tx) + Merge(Group(xy, k), Group(tx, k))
  }

  /** `blendXyAndTextLines(xyLines, textLines)`. */
  function BlendLines(x: seq<Hit>, t: seq<Hit>): seq<Hit> {
    if x == [] then t
    else if t == [] then x
    else
      var xy := FillValues(x);
      var tx := FillValues(t);
      Combine(KeyOrder(xy, tx), xy, tx)
  }

  lemma {:induction false} KeyHitsAppend(a: seq<Hit>, b: seq<Hit>, k: string)
    ensures KeyHits(a + b, k) == KeyHits(a, k) + KeyHits(b, k)
    decreases |b|
  {
    if b != [] {
      KeyHitsAppend(a, b[..|b| - 1], k);
      assert (a + b)[..|a + b| - 1] == a + b[..|b| - 1];
    } else {
      assert a + b == a;
    }
  }

  lemma {:induction false} CombineKeyHits(keys: seq<string>, xy: seq<Hit>, tx: seq<Hit>, k: string)
    requires Lists.Distinct(keys)
    ensures KeyHits(Combine(keys, xy, tx), k)
         == if k in keys then MaxLen(Group(xy, k), Group(tx, k)) else 0
  {
    if keys != [] {
      var init := keys[..|keys| - 1];
      var last := keys[|keys| - 1];
      assert Lists.Distinct(init);
      CombineKeyHits(init, xy, tx, k);
      KeyHitsAppend(Combine(init, xy, tx), Merge(Group(xy, last), Group(tx, last)), k);
      GroupKeys(xy, last);
      GroupKeys(tx, last);
      MergeKeyHits(Group(xy, last), Group(tx, last), last, k);
      assert k in keys <==> k in init || k == last;
      assert last !in init;
    }
  }

  /** When both sides have hits, each key has as many blended hits as the
      side with more hits of that key. */
  lemma BlendKeyHits(x: seq<Hit>, t: seq<Hit>, k: string)
    requires x != [] && t != []
    ensures KeyHits(BlendLines(x, t), k) == Max(KeyHits(x, k), KeyHits(t, k))
  {
    var xy := FillValues(x);
    var tx := FillValues(t);
    KeyOrderFacts(xy, tx, k);
    CombineKeyHits(KeyOrder(xy, tx), xy, tx, k);
    FillValuesKeys(x, k);
    FillValuesKeys(t, k);
    GroupSize(xy, k);
    GroupSize(tx, k);
  }

  lemma {:induction false} CombineFrom(keys: seq<string>, xy: seq<Hit>, tx: seq<Hit>)
    ensures forall h | h in Combine(keys, xy, tx) :: h in xy || h in tx
  {
    if keys != [] {
      var last := keys[|keys| - 1];
      CombineFrom(keys[..|keys| - 1], xy, tx);
      MergeFrom(Group(xy, last), Group(tx, last));
      GroupKeys(xy, last);
      GroupKeys(tx, last);
    }
  }

  /** Every blended hit is an XY hit or a text hit, values filled in when
      both sides have hits; an empty side leaves the other as it is. */
  lemma BlendFrom(x: seq<Hit>, t: seq<Hit>)
    ensures x == [] ==> BlendLines(x, t) == t
    ensures x != [] && t == [] ==> BlendLines(x, t) == x
    ensures x != [] && t != [] ==>
              forall h | h in BlendLines(x, t) :: h in FillValues(x) || h in FillValues(t)
  {
    if x != [] && t != [] {
      CombineFrom(KeyOrder(FillValues(x), FillValues(t)), FillValues(x), FillValues(t));
    }
  }

  // ---------------------------------------------------------------------------
  // What each key gets

  lemma {:induction false} GroupAppend(a: seq<Hit>, b: seq<Hit>, k: string)
    ensures Group(a + b, k) == Group(a, k) + Group(b, k)
    decreases |b|
  {
    if b != [] {
      GroupAppend(a, b[..|b| - 1], k);
      assert (a + b)[..|a + b| - 1] == a + b[..|b| - 1];
    } else {
      assert a + b == a;
    }
  }

  lemma {:induction false} GroupAll(hs: seq<Hit>, key: string, k: string)
    requires forall h | h in hs :: h.key == key
    ensures Group(hs, k) == if key == k then hs else []
  {
    if hs != [] {
      GroupAll(hs[..|hs| - 1], key, k);
      assert hs[|hs| - 1] in hs;
    }
  }

  lemma {:induction false} CombineGroup(keys: seq<string>, xy: seq<Hit>, tx: seq<Hit>, k: string)
    requires Lists.Distinct(keys)
    ensures Group(Combine(keys, xy, tx), k) == if k in keys then Merge(Group(xy, k), Group(tx, k)) else []
  {
    if keys != [] {
      var init := keys[..|keys| - 1];
      var last := keys[|keys| - 1];
      var merged := Merge(Group(xy, last), Group(tx, last));
      assert Lists.Distinct(init);
      CombineGroup(init, xy, tx, k);
      GroupAppend(Combine(init, xy, tx), merged, k);
      MergedGroup(xy, tx, last, k);
      assert k in keys <==> k in init || k == last;
      assert last !in init;
    }
  }

  /** The merged hits of one key hold that key only. */
  lemma MergedGroup(xy: seq<Hit>, tx: seq<Hit>, last: string, k: string)
    ensures Group(Merge(Group(xy, last), Group(tx, last)), k)
         == if k == last then Merge(Group(xy, k), Group(tx, k)) else []
  {
    GroupKeys(xy, last);
    GroupKeys(tx, last);
    MergeFrom(Group(xy, last), Group(tx, last));
    GroupAll(Merge(Group(xy, last), Group(tx, last)), last, k);
  }

  /** When both sides have hits, the blended hits of each key are exactly
      the merge of that key's XY hits and text hits, values filled in: the
      i-th is the better of the i-th of each side. */
  lemma BlendGroups(x: seq<Hit>, t: seq<Hit>, k: string)
    requires x != [] && t != []
    ensures Group(BlendLines(x, t), k) == Merge(Group(FillValues(x), k), Group(FillValues(t), k))
  {
    var xy := FillValues(x);
    var tx := FillValues(t);
    KeyOrderFacts(xy, tx, k);
    CombineGroup(KeyOrder(xy, tx), xy, tx, k);
    if k !in KeyOrder(xy, tx) {
      GroupSize(xy, k);
      GroupSize(tx, k);
    }
  }

  /** The hits of each key in turn: what blending a list with itself gives. */
  function Regroup(keys: seq<string>, hs: seq<Hit>): seq<Hit> {
    if keys == [] then [] else Regroup(keys[..|keys| - 1], hs) + Group(hs, keys[|keys| - 1])
  }

  lemma {:induction false} CombineSelf(keys: seq<string>, hs: seq<Hit>)
    ensures Combine(keys, hs, hs) == Regroup(keys, hs)
  {
    if keys != [] {
      CombineSelf(keys[..|keys| - 1], hs);
      MergeSelf(Group(hs, keys[|keys| - 1]));
    }
  }

  /** Blending a list with itself gathers the hits of each key together, in
      first-seen key order; it is not the identity when keys interleave. */
  lemma BlendSelf(x: seq<Hit>)
    requires x != []
    ensures BlendLines(x, x) == Regroup(KeyOrder(FillValues(x), FillValues(x)), FillValues(x))
  {
    CombineSelf(KeyOrder(FillValues(x), FillValues(x)), FillValues(x));
  }

  lemma ExampleFill(a: Hit, b: Hit, c: Hit)
    requires a.values != [] && b.values != [] && c.values != []
    ensures FillValues([a, b, c]) == [a, b, c]
  {
    var x := [a, b, c];
    assert x[..2] == [a, b] && [a, b][..1] == [a] && [a][..0] == [];
    assert FillValues([a]) == [a];
    assert FillValues([a, b]) == [a, b];
  }

  lemma ExampleKeys(a: Hit, b: Hit, c: Hit)
    requires a.key == c.key && a.key != b.key
    ensures KeyOrder([a, b, c], [a, b, c]) == [a.key, b.key]
  {
    var x := [a, b, c];
    assert x[..2] == [a, b] && [a, b][..1] == [a] && [a][..0] == [];
    assert KeysOf([a]) == [a.key];
    assert KeysOf([a, b]) == [a.key, b.key];
    var ks := [a.key, b.key, c.key];
    assert KeysOf(x) == ks;
    assert ks[..2] == [a.key, b.key] && [a.key, b.key][..1] == [a.key] && [a.key][..0] == [];
    assert Lists.Unique([a.key]) == [a.key];
    assert Lists.Unique([a.key, b.key]) == [a.key, b.key];
    assert Lists.Unique(ks) == [a.key, b.key];
    var d := [a.key, b.key, a.key, b.key];
    assert [a.key, b.key] + [a.key, b.key] == d;
    assert d[..3] == ks;
    assert Lists.Unique(d) == [a.key, b.key];
  }

  lemma ExampleGroups(a: Hit, b: Hit, c: Hit)
    requires a.key == c.key && a.key != b.key
    ensures Group([a, b, c], a.key) == [a, c]
    ensures Group([a, b, c], b.key) == [b]
  {
    var x := [a, b, c];
    assert x[..2] == [a, b] && [a, b][..1] == [a] && [a][..0] == [];
    assert Group([a], a.key) == [a];
    assert Group([a, b], a.key) == [a];
    assert Group([a], b.key) == [];
    assert Group([a, b], b.key) == [b];
  }

  /** Three hits with values whose keys run `a`, `b`, `a`: blended with
      themselves they come back as `a`, `a`, `b`. */
  lemma BlendSelfReorders(a: Hit, b: Hit, c: Hit)
    requires a.key == c.key && a.key != b.key
    requires a.values != [] && b.values != [] && c.values != []
    ensures BlendLines([a, b, c], [a, b, c]) == [a, c, b]
  {
    var x := [a, b, c];
    ExampleFill(a, b, c);
    ExampleKeys(a, b, c);
    ExampleGroups(a, b, c);
    BlendSelf(x);
    assert [a.key, b.key][..1] == [a.key] && [a.key][..0] == [];
    assert Regroup([a.key], x) == [a, c];
  }

  // ---------------------------------------------------------------------------
  // The loops

  /** `withValues(arr)`, hit by hit. */
  method FillValuesLoop(hs: seq<Hit>) returns (r: seq<Hit>)
    ensures r == FillValues(hs)
  {
    r := [];
    var i := 0;
    while i < |hs|
      invariant i <= |hs| && r == FillValues(hs[..i])
    {
      assert hs[..i + 1][..i] == hs[..i];
      var h := hs[i];
      if h.values == [] {
        var vs := ExtractNumbersFromLine(h.line, 2, true);
        h := h.(values := vs);
      }
      r := r + [h];
      i := i + 1;
    }
    assert hs[..i] == hs;
  }

  /** `byKey(arr)`: each key's hits in order, and the keys in first-seen
      order. */
  method ByKey(hs: seq<Hit>) returns (m: map<string, seq<Hit>>, order: seq<string>)
    ensures order == Lists.Unique(KeysOf(hs))
    ensures forall k :: k in m <==> k in order
    ensures forall k | k in m :: m[k] == Group(hs, k)
    ensures forall k | k !in m :: Group(hs, k) == []
  {
    m := map[];
    order := [];
    var i := 0;
    while i < |hs|
      invariant i <= |hs|
      invariant order == Lists.Unique(KeysOf(hs[..i]))
      invariant forall k :: k in m <==> k in order
      invariant forall k | k in m :: m[k] == Group(hs[..i], k)
      invariant forall k | k !in m :: Group(hs[..i], k) == []
    {
      m, order := ByKeyStep(hs, i, m, order);
      i := i + 1;
    }
    assert hs[..i] == hs;
  }

  /** One hit of the `byKey` loop. */
  method ByKeyStep(hs: seq<Hit>, i: nat, m0: map<string, seq<Hit>>, order0: seq<string>)
      returns (m: map<string, seq<Hit>>, order: seq<string>)
    requires i < |hs|
    requires order0 == Lists.Unique(KeysOf(hs[..i]))
    requires forall k :: k in m0 <==> k in order0
    requires forall k | k in m0 :: m0[k] == Group(hs[..i], k)
    requires forall k | k !in m0 :: Group(hs[..i], k) == []
    ensures order == Lists.Unique(KeysOf(hs[..i + 1]))
    ensures forall k :: k in m <==> k in order
    ensures forall k | k in m :: m[k] == Group(hs[..i + 1], k)
    ensures forall k | k !in m :: Group(hs[..i + 1], k) == []
  {
    m, order := m0, order0;
    var h := hs[i];
    assert hs[..i + 1][..i] == hs[..i];
    if h.key !in m {
      m := m[h.key := []];
      order := order + [h.key];
    }
    m := m[h.key := m[h.key] + [h]];
  }

  /** `new Set([...a, ...b])`, iterated in insertion order. */
  method DedupKeys(a: seq<string>, b: seq<string>) returns (keys: seq<string>)
    ensures keys == Lists.Unique(a + b)
  {
    var all := a + b;
    var seen: set<string> := {};
    keys := [];
    var i := 0;
    while i < |all|
      invariant i <= |all| && keys == Lists.Unique(all[..i])
      invariant forall s :: s in seen <==> s in keys
    {
      assert all[..i + 1][..i] == all[..i];
      if all[i] !in seen {
        seen := seen + {all[i]};
        keys := keys + [all[i]];
      }
      i := i + 1;
    }
    assert all[..i] == all;
  }

  /** The loop over the positions of one key. */
  method MergeInto(out0: seq<Hit>, xa: seq<Hit>, ta: seq<Hit>) returns (out: seq<Hit>)
    ensures out == out0 + Merge(xa, ta)
  {
    out := out0;
    var n := if |xa| >= |ta| then |xa| else |ta|;
    var i := 0;
    while i < n
      invariant i <= n && out == out0 + MergeUpTo(xa, ta, i)
    {
      if i >= |xa| {
        out := out + [ta[i]];
      } else if i >= |ta| {
        out := out + [xa[i]];
      } else {
        var xs := Score(xa[i]);
        var ts := Score(ta[i]);
        out := out + [if xs >= ts then xa[i] else ta[i]];
      }
      i := i + 1;
    }
  }

  /** The loop over the keys. */
  method CombineKeys(keys: seq<string>, xy: seq<Hit>, tx: seq<Hit>,
                     xyMap: map<string, seq<Hit>>, txMap: map<string, seq<Hit>>) returns (out: seq<Hit>)
    requires forall k | k in xyMap :: xyMap[k] == Group(xy, k)
    requires forall k | k !in xyMap :: Group(xy, k) == []
    requires forall k | k in txMap :: txMap[k] == Group(tx, k)
    requires forall k | k !in txMap :: Group(tx, k) == []
    ensures out == Combine(keys, xy, tx)
  {
    out := [];
    var j := 0;
    while j < |keys|
      invariant j <= |keys| && out == Combine(keys[..j], xy, tx)
    {
      assert keys[..j + 1][..j] == keys[..j];
      var key := keys[j];
      var xa := if key in xyMap then xyMap[key] else [];
      var ta := if key in txMap then txMap[key] else [];
      out := MergeInto(out, xa, ta);
      j := j + 1;
    }
    assert keys[..j] == keys;
  }

  /** `blendXyAndTextLines`, loop by loop. */
  method Blend(x: seq<Hit>, t: seq<Hit>) returns (out: seq<Hit>)
    ensures out == BlendLines(x, t)
  {
    if |x| == 0 {
      return t;
    }
    if |t| == 0 {
      return x;
    }
    var xy := FillValuesLoop(x);
    var tx := FillValuesLoop(t);
    var xyMap, xyOrder := ByKey(xy);
    var txMap, txOrder := ByKey(tx);
    var keys := DedupKeys(xyOrder, txOrder);
    out := CombineKeys(keys, xy, tx, xyMap, txMap);
  }
}
