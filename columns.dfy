/**
 * `extractValuesByX` and `lineWithoutNumbers` of src/pdfXYExtract.js: the
 * values of one clustered row are resolved from the x positions of its
 * numeric tokens, trying in order a single token that splits into the wanted
 * number of values, column anchors, gap groups (with a repair), and the whole
 * row's text.
 */
module Columns {
  import opened Wrappers
  import opened Strs
  import opened Sorting
  import opened Lexer
  import opened Scanner
  import opened Numbers
  import opened Layout

  /** `t.x + (t.w || 0) / 2`. */
  function Center(t: Token): real { t.x + t.w / 2.0 }

  /** `t.x + (t.w || 0)`. */
  function Right(t: Token): real { t.x + t.w }

  /** The tokens that look numeric, in order. */
  function NumericTokens(ts: seq<Token>): (r: seq<Token>)
    ensures forall t | t in r :: t in ts && LooksNumericToken(t.text)
    ensures forall t | t in ts && LooksNumericToken(t.text) :: t in r
  {
    if ts == [] then []
    else (if LooksNumericToken(ts[0].text) then [ts[0]] else []) + NumericTokens(ts[1..])
  }

  // ---------------------------------------------------------------------------
  // 1. A single token holding all the columns

  /** The per-token splits that have exactly `pc` values, in token order. */
  function DirectCandidates(nums: seq<Token>, pc: nat): (r: seq<seq<string>>)
    ensures forall c | c in r :: |c| == pc
  {
    if nums == [] then []
    else
      var c := NumbersFromText(nums[0].text, pc);
      (if |c| == pc then [c] else []) + DirectCandidates(nums[1..], pc)
  }

  /** Every candidate is the split of some token. */
  lemma {:induction false} DirectCandidatesSound(nums: seq<Token>, pc: nat)
    ensures forall c | c in DirectCandidates(nums, pc) :: exists t | t in nums :: c == NumbersFromText(t.text, pc)
  {
    if nums != [] {
      DirectCandidatesSound(nums[1..], pc);
      assert forall t | t in nums[1..] :: t in nums;
    }
  }

  /** Every token whose split has `pc` values contributes a candidate. */
  lemma {:induction false} DirectCandidatesComplete(nums: seq<Token>, pc: nat, t: Token)
    requires t in nums && |NumbersFromText(t.text, pc)| == pc
    ensures NumbersFromText(t.text, pc) in DirectCandidates(nums, pc)
  {
    if nums[0] != t {
      DirectCandidatesComplete(nums[1..], pc, t);
    }
  }

  /** The length of `vals.join("")`, the sort key of the candidates. */
  function JoinedLen(vals: seq<string>): nat { |Concat(vals)| }

  /** The first candidate of greatest `size`: the comparator of
      `directPairs.sort` puts a longer join first and otherwise keeps the
      order. */
  function Longest<T>(cands: seq<T>, size: T -> nat): (r: T)
    requires cands != []
    ensures r in cands
  {
    if |cands| == 1 then cands[0]
    else
      var init := cands[..|cands| - 1];
      var last := cands[|cands| - 1];
      var b := Longest(init, size);
      assert b in cands by { assert forall c | c in init :: c in cands; }
      if size(last) > size(b) then last else b
  }

  /** The chosen candidate has the greatest size. */
  lemma {:induction false} LongestIsMax<T>(cands: seq<T>, size: T -> nat)
    requires cands != []
    ensures forall c | c in cands :: size(c) <= size(Longest(cands, size))
  {
    if |cands| > 1 {
      var init := cands[..|cands| - 1];
      LongestIsMax(init, size);
      assert forall c | c in cands :: c in init || c == cands[|cands| - 1];
    }
  }

  /** Every candidate before the chosen one is strictly smaller. */
  lemma {:induction false} LongestIsFirst<T>(cands: seq<T>, size: T -> nat)
    requires cands != []
    ensures exists i | 0 <= i < |cands| :: cands[i] == Longest(cands, size)
              && forall j | 0 <= j < i :: size(cands[j]) < size(Longest(cands, size))
  {
    if |cands| == 1 {
      assert cands[0] == Longest(cands, size);
    } else {
      var n := |cands| - 1;
      var init := cands[..n];
      var last := cands[n];
      var b := Longest(init, size);
      LongestIsFirst(init, size);
      var i :| 0 <= i < |init| && init[i] == b && forall j | 0 <= j < i :: size(init[j]) < size(b);
      if size(last) > size(b) {
        LongestIsMax(init, size);
        assert forall j | 0 <= j < n :: size(cands[j]) < size(last) by {
          forall j | 0 <= j < n ensures size(cands[j]) < size(last) { assert cands[j] == init[j]; assert init[j] in init; }
        }
        assert cands[n] == Longest(cands, size);
      } else {
        assert cands[i] == Longest(cands, size);
        assert forall j | 0 <= j < i :: cands[j] == init[j];
      }
    }
  }

  // ---------------------------------------------------------------------------
  // 2. Column anchors

  /** A cluster of centres: its running mean and its size. */
  datatype Cluster = Cluster(mean: real, count: nat)

  /** The column tolerance of the anchor clustering. */
  const AnchorTol: real := 28.0

  /** Whether centre `c` starts a new cluster after `cs`. */
  predicate StartsCluster(cs: seq<Cluster>, c: real) {
    cs == [] || Abs(c - cs[|cs| - 1].mean) > AnchorTol
  }

  /** A centre joins the last cluster: the mean is updated exactly. */
  function Absorb(k: Cluster, c: real): Cluster {
    Cluster((k.mean * k.count as real + c) / (k.count as real + 1.0), k.count + 1)
  }

  /** The clusters of the sorted centres, built left to right. */
  function Clusters(centers: seq<real>): (r: seq<Cluster>)
    ensures |r| <= |centers| && (centers != [] ==> r != [])
  {
    if centers == [] then []
    else
      var cs := Clusters(centers[..|centers| - 1]);
      var c := centers[|centers| - 1];
      if StartsCluster(cs, c) then cs + [Cluster(c, 1)]
      else cs[..|cs| - 1] + [Absorb(cs[|cs| - 1], c)]
  }

  /** The loop that clusters the centres. */
  method ClusterCenters(centers: seq<real>) returns (cs: seq<Cluster>)
    ensures cs == Clusters(centers)
  {
    cs := [];
    var i := 0;
    while i < |centers|
      invariant i <= |centers|
      invariant cs == Clusters(centers[..i])
    {
      assert centers[..i + 1][..i] == centers[..i];
      cs := PlaceCenter(centers[..i + 1], cs);
      i := i + 1;
    }
    assert centers[..i] == centers;
  }

  /** The loop body of `ClusterCenters`: the last centre starts a cluster
      or joins the last one. */
  method PlaceCenter(centers: seq<real>, cs: seq<Cluster>) returns (r: seq<Cluster>)
    requires centers != [] && cs == Clusters(centers[..|centers| - 1])
    ensures r == Clusters(centers)
  {
    var c := centers[|centers| - 1];
    if StartsCluster(cs, c) {
      r := cs + [Cluster(c, 1)];
    } else {
      r := cs[..|cs| - 1] + [Absorb(cs[|cs| - 1], c)];
    }
  }

  function Sum(s: seq<real>): real {
    if s == [] then 0.0 else Sum(s[..|s| - 1]) + s[|s| - 1]
  }

  /** The centres each cluster took, under the same decisions. */
  function Members(centers: seq<real>): seq<seq<real>> {
    if centers == [] then []
    else
      var ms := Members(centers[..|centers| - 1]);
      var c := centers[|centers| - 1];
      if StartsCluster(Clusters(centers[..|centers| - 1]), c) || ms == [] then ms + [[c]]
      else ms[..|ms| - 1] + [ms[|ms| - 1] + [c]]
  }

  function Flatten<T>(gs: seq<seq<T>>): seq<T> {
    if gs == [] then [] else Flatten(gs[..|gs| - 1]) + gs[|gs| - 1]
  }

  /** A cluster's mean is the exact mean of the centres `m` it took. */
  predicate ExactMean(k: Cluster, m: seq<real>) {
    k.count == |m| > 0 && k.mean * k.count as real == Sum(m)
  }

  /** Each cluster's mean is the exact mean of the centres it took. */
  predicate MeansExact(cs: seq<Cluster>, ms: seq<seq<real>>) {
    |cs| == |ms| && forall k | 0 <= k < |cs| :: ExactMean(cs[k], ms[k])
  }

  lemma {:induction false} SumSnoc(m: seq<real>, c: real)
    ensures Sum(m + [c]) == Sum(m) + c
  {
    assert (m + [c])[..|m|] == m;
  }

  lemma AbsorbExact(k: Cluster, m: seq<real>, c: real)
    requires ExactMean(k, m)
    ensures ExactMean(Absorb(k, c), m + [c])
  {
    SumSnoc(m, c);
    var n := k.count as real;
    assert Absorb(k, c).mean * (n + 1.0) == k.mean * n + c;
  }

  lemma {:induction false} FlattenSnoc<T>(gs: seq<seq<T>>, g: seq<T>)
    ensures Flatten(gs + [g]) == Flatten(gs) + g
  {
    assert (gs + [g])[..|gs|] == gs;
  }

  /** A new cluster of one centre keeps the means exact. */
  lemma StartExact(cs: seq<Cluster>, ms: seq<seq<real>>, c: real)
    requires MeansExact(cs, ms)
    ensures MeansExact(cs + [Cluster(c, 1)], ms + [[c]])
  {
    assert ExactMean(Cluster(c, 1), [c]) by { SumSnoc([], c); assert [] + [c] == [c]; }
    var cs' := cs + [Cluster(c, 1)];
    var ms' := ms + [[c]];
    forall k | 0 <= k < |cs'|
      ensures ExactMean(cs'[k], ms'[k])
    {
      if k < |cs| { assert cs'[k] == cs[k] && ms'[k] == ms[k]; }
    }
  }

  /** Absorbing a centre into the last cluster keeps the means exact. */
  lemma AbsorbLastExact(cs: seq<Cluster>, ms: seq<seq<real>>, c: real)
    requires MeansExact(cs, ms) && cs != []
    ensures var k := |cs| - 1;
            MeansExact(cs[..k] + [Absorb(cs[k], c)], ms[..k] + [ms[k] + [c]])
  {
    var k := |cs| - 1;
    AbsorbExact(cs[k], ms[k], c);
    var cs' := cs[..k] + [Absorb(cs[k], c)];
    var ms' := ms[..k] + [ms[k] + [c]];
    forall j | 0 <= j < |cs'|
      ensures ExactMean(cs'[j], ms'[j])
    {
      if j < k { assert cs'[j] == cs[j] && ms'[j] == ms[j]; }
    }
  }

  lemma {:induction false} ClusterMeansExact(centers: seq<real>)
    ensures MeansExact(Clusters(centers), Members(centers))
    ensures Flatten(Members(centers)) == centers
  {
    if centers != [] {
      var init := centers[..|centers| - 1];
      var c := centers[|centers| - 1];
      var cs := Clusters(init);
      var ms := Members(init);
      ClusterMeansExact(init);
      assert centers == init + [c];
      if StartsCluster(cs, c) {
        assert Clusters(centers) == cs + [Cluster(c, 1)];
        assert Members(centers) == ms + [[c]];
        StartExact(cs, ms, c);
        FlattenSnoc(ms, [c]);
      } else {
        var k := |ms| - 1;
        assert Clusters(centers) == cs[..k] + [Absorb(cs[k], c)];
        assert Members(centers) == ms[..k] + [ms[k] + [c]];
        AbsorbLastExact(cs, ms, c);
        assert ms == ms[..k] + [ms[k]];
        FlattenSnoc(ms[..k], ms[k]);
        FlattenSnoc(ms[..k], ms[k] + [c]);
      }
    }
  }

  predicate MeanLe(a: Cluster, b: Cluster) { a.mean <= b.mean }

  function Means(cs: seq<Cluster>): (r: seq<real>)
    ensures |r| == |cs| && forall k {:trigger r[k]} | 0 <= k < |cs| :: r[k] == cs[k].mean
  {
    if cs == [] then [] else [cs[0].mean] + Means(cs[1..])
  }

  function Centers(ts: seq<Token>): (r: seq<real>)
    ensures |r| == |ts| && forall k {:trigger r[k]} | 0 <= k < |ts| :: r[k] == Center(ts[k])
  {
    if ts == [] then [] else [Center(ts[0])] + Centers(ts[1..])
  }

  /** `Math.max(1, preferredCount || 2)`. */
  function AnchorCount(pc: nat): (k: nat)
    ensures k >= 1
  {
    if pc == 0 then 2 else pc
  }

  /** The means of the right-most `AnchorCount(pc)` clusters, ascending
      (`slice(-k)` keeps them all when there are fewer). */
  function Anchors(nums: seq<Token>, pc: nat): (r: seq<real>)
    ensures nums != [] ==> r != []
    ensures |r| <= AnchorCount(pc)
    ensures forall i, j | 0 <= i < j < |r| :: r[i] <= r[j]
  {
    var cs := SortBy(Clusters(SortReals(Centers(nums))), MeanLe);
    var k := AnchorCount(pc);
    var kept := if |cs| <= k then cs else cs[|cs| - k..];
    SortReals(Means(kept))
  }

  /** The index of the anchor nearest to `cx`, the lowest one on a tie
      (`d < bestDist` is strict); 0 when there is no anchor. */
  function Nearest(anchors: seq<real>, cx: real): (r: nat)
    ensures anchors != [] ==> r < |anchors|
    ensures anchors == [] ==> r == 0
  {
    if |anchors| <= 1 then 0
    else
      var b := Nearest(anchors[..|anchors| - 1], cx);
      if Abs(cx - anchors[|anchors| - 1]) < Abs(cx - anchors[b]) then |anchors| - 1 else b
  }

  /** The chosen anchor is at least as near as every anchor and strictly
      nearer than every anchor before it. */
  lemma {:induction false} NearestIsNearest(anchors: seq<real>, cx: real)
    requires anchors != []
    ensures var r := Nearest(anchors, cx);
            && (forall k | 0 <= k < |anchors| :: Abs(cx - anchors[r]) <= Abs(cx - anchors[k]))
            && (forall k | 0 <= k < r :: Abs(cx - anchors[r]) < Abs(cx - anchors[k]))
  {
    if |anchors| > 1 {
      var init := anchors[..|anchors| - 1];
      NearestIsNearest(init, cx);
      assert forall k | 0 <= k < |init| :: init[k] == anchors[k];
    }
  }

  lemma {:induction false} NearestStep(anchors: seq<real>, i: nat, cx: real)
    requires 1 <= i < |anchors|
    ensures var b := Nearest(anchors[..i], cx);
            Nearest(anchors[..i + 1], cx) == if Abs(cx - anchors[i]) < Abs(cx - anchors[b]) then i else b
  {
    assert anchors[..i + 1][..i] == anchors[..i];
  }

  /** The inner loop over the anchors. */
  method NearestAnchor(anchors: seq<real>, cx: real) returns (bestIdx: nat)
    ensures bestIdx == Nearest(anchors, cx)
  {
    bestIdx := 0;
    if |anchors| == 0 {
      return;
    }
    var bestDist := Abs(cx - anchors[0]);
    var i := 1;
    while i < |anchors|
      invariant 1 <= i <= |anchors|
      invariant bestIdx == Nearest(anchors[..i], cx) && bestIdx < i
      invariant bestDist == Abs(cx - anchors[bestIdx])
    {
      NearestStep(anchors, i, cx);
      var d := Abs(cx - anchors[i]);
      if d < bestDist {
        bestDist := d;
        bestIdx := i;
      }
      i := i + 1;
    }
    assert anchors[..i] == anchors;
  }

  /** Every numeric token goes to the bucket of its nearest anchor. */
  function Buckets(nums: seq<Token>, anchors: seq<real>): (r: seq<seq<Token>>)
    ensures |r| == |anchors|
  {
    if nums == [] then seq(|anchors|, _ => [])
    else
      var b := Buckets(nums[..|nums| - 1], anchors);
      var t := nums[|nums| - 1];
      var i := Nearest(anchors, Center(t));
      if i < |b| then b[i := b[i] + [t]] else b
  }

  /** The loop that fills the buckets. */
  method AssignBuckets(nums: seq<Token>, anchors: seq<real>) returns (buckets: seq<seq<Token>>)
    ensures buckets == Buckets(nums, anchors)
  {
    buckets := seq(|anchors|, _ => []);
    var k := 0;
    while k < |nums|
      invariant k <= |nums|
      invariant buckets == Buckets(nums[..k], anchors)
    {
      assert nums[..k + 1][..k] == nums[..k];
      var t := nums[k];
      var i := NearestAnchor(anchors, Center(t));
      if i < |buckets| {
        buckets := buckets[i := buckets[i] + [t]];
      }
      k := k + 1;
    }
    assert nums[..k] == nums;
  }

  /** Each token in bucket `i` has anchor `i` as its nearest anchor. */
  lemma {:induction false} BucketsNearest(nums: seq<Token>, anchors: seq<real>)
    ensures forall i, t | 0 <= i < |anchors| && t in Buckets(nums, anchors)[i] ::
              t in nums && Nearest(anchors, Center(t)) == i
  {
    if nums != [] {
      var init := nums[..|nums| - 1];
      BucketsNearest(init, anchors);
      assert forall t | t in init :: t in nums;
    }
  }

  /** `extractNumbersFromText(text, 1)[0]`, when there is one. */
  function FirstValue(text: string): (r: Option<string>)
    ensures r.Some? ==> r.value != "" && Normalized(r.value)
  {
    var n := NumbersFromText(text, 1);
    TextValuesClean(text, 1);
    if n == [] then None else assert n[0] in n; Some(n[0])
  }

  /** `extractNumbersFromText(text, 1)` and its first value. */
  method FirstValueOf(text: string) returns (r: Option<string>)
    ensures r == FirstValue(text)
  {
    var n := ExtractNumbersFromText(text, 1);
    r := if |n| > 0 then Some(n[0]) else None;
  }

  /** A bucket's value: the first value of its left-to-right text, or "". */
  function BucketValue(bucket: seq<Token>): (r: string)
    ensures r != "" ==> Normalized(r)
  {
    if bucket == [] then ""
    else
      match FirstValue(TextOf(SortBy(bucket, TokenXAsc)))
      case None => ""
      case Some(v) => v
  }

  /** `bucketValues.filter(Boolean)`. */
  function AnchorValues(buckets: seq<seq<Token>>): (r: seq<string>)
    ensures |r| <= |buckets|
    ensures forall v | v in r :: v != "" && Normalized(v)
  {
    if buckets == [] then []
    else
      var v := BucketValue(buckets[0]);
      (if v == "" then [] else [v]) + AnchorValues(buckets[1..])
  }

  // ---------------------------------------------------------------------------
  // 3. Gap groups

  /** The gaps between consecutive numeric tokens, in token order. */
  function Gaps(nums: seq<Token>): (r: seq<real>)
    ensures |nums| > 0 ==> |r| == |nums| - 1
    ensures forall i {:trigger r[i]} | 0 <= i < |nums| - 1 :: r[i] == nums[i + 1].x - Right(nums[i])
  {
    if |nums| <= 1 then [] else [nums[1].x - Right(nums[0])] + Gaps(nums[1..])
  }

  /** `Math.max(8, medianGap * 1.8)`, the gap median being the upper median,
      or 0 when there is no gap. */
  function SplitGap(nums: seq<Token>): (g: real)
    ensures g >= 8.0
  {
    var gs := SortReals(Gaps(nums));
    var median := if gs == [] then 0.0 else gs[|gs| / 2];
    if median * 1.8 > 8.0 then median * 1.8 else 8.0
  }

  /** The groups of consecutive tokens, a new group starting after every gap
      wider than `split`. */
  function GapGroups(nums: seq<Token>, split: real): (r: seq<seq<Token>>)
    requires nums != []
    ensures r != []
  {
    if |nums| == 1 then [[nums[0]]]
    else
      var gs := GapGroups(nums[..|nums| - 1], split);
      var prev := nums[|nums| - 2];
      var next := nums[|nums| - 1];
      if next.x - Right(prev) > split then gs + [[next]]
      else gs[..|gs| - 1] + [gs[|gs| - 1] + [next]]
  }

  predicate NoEmptyGroup<T>(gs: seq<seq<T>>) { forall i | 0 <= i < |gs| :: gs[i] != [] }

  /** A new group of one token extends the partition. */
  lemma {:induction false} NewGroupPartition<T>(gs: seq<seq<T>>, t: T)
    requires NoEmptyGroup(gs)
    ensures Flatten(gs + [[t]]) == Flatten(gs) + [t] && NoEmptyGroup(gs + [[t]])
  {
    FlattenSnoc(gs, [t]);
    var r := gs + [[t]];
    forall i | 0 <= i < |r| ensures r[i] != [] { if i < |gs| { assert r[i] == gs[i]; } }
  }

  /** A token appended to the last group extends the partition. */
  lemma {:induction false} ExtendGroupPartition<T>(gs: seq<seq<T>>, t: T)
    requires gs != [] && NoEmptyGroup(gs)
    ensures var k := |gs| - 1;
            Flatten(gs[..k] + [gs[k] + [t]]) == Flatten(gs) + [t] && NoEmptyGroup(gs[..k] + [gs[k] + [t]])
  {
    var k := |gs| - 1;
    var pre := gs[..k];
    assert gs == pre + [gs[k]];
    FlattenSnoc(pre, gs[k]);
    FlattenSnoc(pre, gs[k] + [t]);
    assert Flatten(pre) + (gs[k] + [t]) == (Flatten(pre) + gs[k]) + [t];
    ExtendNoEmpty(gs, t);
  }

  lemma ExtendNoEmpty<T>(gs: seq<seq<T>>, t: T)
    requires gs != [] && NoEmptyGroup(gs)
    ensures var k := |gs| - 1; NoEmptyGroup(gs[..k] + [gs[k] + [t]])
  {
    var k := |gs| - 1;
    var r := gs[..k] + [gs[k] + [t]];
    forall i | 0 <= i < |r| ensures r[i] != [] { if i < k { assert r[i] == gs[i]; } }
  }

  /** The groups cut the tokens into consecutive non-empty pieces, in order. */
  lemma {:induction false} GapGroupsPartition(nums: seq<Token>, split: real)
    requires nums != []
    ensures Flatten(GapGroups(nums, split)) == nums
    ensures NoEmptyGroup(GapGroups(nums, split))
  {
    if |nums| == 1 {
      NewGroupPartition([], nums[0]);
    } else {
      var init := nums[..|nums| - 1];
      var next := nums[|nums| - 1];
      var gs := GapGroups(init, split);
      GapGroupsPartition(init, split);
      assert nums == init + [next];
      if next.x - Right(nums[|nums| - 2]) > split {
        NewGroupPartition(gs, next);
      } else {
        ExtendGroupPartition(gs, next);
      }
    }
  }

  /** The loop that builds the gap groups with a current group `cur`. */
  method GroupByGaps(nums: seq<Token>, split: real) returns (groups: seq<seq<Token>>)
    requires nums != []
    ensures groups == GapGroups(nums, split)
  {
    groups := [];
    var cur := [nums[0]];
    var i := 1;
    while i < |nums|
      invariant 1 <= i <= |nums|
      invariant groups + [cur] == GapGroups(nums[..i], split)
    {
      assert nums[..i + 1][..i] == nums[..i];
      assert nums[..i + 1][i - 1] == nums[i - 1];
      var prev := nums[i - 1];
      var next := nums[i];
      if next.x - Right(prev) > split {
        groups := groups + [cur];
        cur := [next];
      } else {
        assert (groups + [cur])[..|groups|] == groups;
        cur := cur + [next];
      }
      i := i + 1;
    }
    assert nums[..i] == nums;
    groups := groups + [cur];
  }

  /** A group's value, if its text has one. */
  function GroupValue(g: seq<Token>): seq<string> {
    match FirstValue(TextOf(g))
    case None => []
    case Some(v) => [v]
  }

  /** The first value of each group's text, groups without one skipped. */
  function GroupValues(groups: seq<seq<Token>>): (r: seq<string>)
    ensures |r| <= |groups|
  {
    if groups == [] then []
    else GroupValues(groups[..|groups| - 1]) + GroupValue(groups[|groups| - 1])
  }

  /** Every group value is non-empty normalised text. */
  lemma {:induction false} GroupValuesClean(groups: seq<seq<Token>>)
    ensures forall v | v in GroupValues(groups) :: v != "" && Normalized(v)
  {
    if groups != [] {
      GroupValuesClean(groups[..|groups| - 1]);
    }
  }

  lemma GroupValuesStep(groups: seq<seq<Token>>, k: nat)
    requires k < |groups|
    ensures GroupValues(groups[..k + 1]) == GroupValues(groups[..k]) + GroupValue(groups[k])
  {
    assert groups[..k + 1][..k] == groups[..k];
  }

  /** The loop that reads one value from each group. */
  method CollectGroupValues(groups: seq<seq<Token>>) returns (values: seq<string>)
    ensures values == GroupValues(groups)
  {
    values := [];
    var k := 0;
    while k < |groups|
      invariant k <= |groups|
      invariant values == GroupValues(groups[..k])
    {
      values := CollectGroupValue(groups, k, values);
      k := k + 1;
    }
    assert groups[..k] == groups;
  }

  /** The body of that loop: the value of group `k`, if any, is appended. */
  method CollectGroupValue(groups: seq<seq<Token>>, k: nat, values: seq<string>) returns (r: seq<string>)
    requires k < |groups| && values == GroupValues(groups[..k])
    ensures r == GroupValues(groups[..k + 1])
  {
    GroupValuesStep(groups, k);
    var v := FirstValueOf(TextOf(groups[k]));
    r := values;
    if v.Some? {
      r := r + [v.value];
    }
  }

  // ---------------------------------------------------------------------------
  // The strategies in order

  /** The values of the gap groups. */
  function GapValues(nums: seq<Token>): (r: seq<string>)
    requires nums != []
    ensures forall v | v in r :: v != "" && Normalized(v)
  {
    GroupValuesClean(GapGroups(nums, SplitGap(nums)));
    GroupValues(GapGroups(nums, SplitGap(nums)))
  }

  /** The last strategies: a lone gap value repaired into `pc` values, the
      first `pc` values of the whole row, the gap values, or the whole row's
      values. */
  function Fallback(nums: seq<Token>, pc: nat, values: seq<string>): seq<string> {
    var repair := if pc > 0 && |values| == 1 then NumbersFromText(values[0], pc) else [];
    if pc > 0 && |values| == 1 && |repair| == pc then repair
    else
      var rowNums := NumbersFromText(TextOf(nums), pc);
      if pc > 0 && |rowNums| >= pc then rowNums[..pc]
      else if values != [] then values
      else rowNums
  }

  /** The values of the anchor buckets. */
  function AnchoredValues(nums: seq<Token>, pc: nat): (r: seq<string>)
    ensures forall v | v in r :: v != "" && Normalized(v)
  {
    AnchorValues(Buckets(nums, Anchors(nums, pc)))
  }

  /** The strategies for two or more numeric tokens. */
  function ColumnValues(nums: seq<Token>, pc: nat): seq<string>
    requires |nums| >= 2
  {
    var direct := DirectCandidates(nums, pc);
    if pc > 0 && direct != [] then Longest(direct, JoinedLen)
    else AfterDirect(nums, pc)
  }

  /** The anchor values when there are exactly `pc` of them, else the last
      strategies. */
  function AfterDirect(nums: seq<Token>, pc: nat): seq<string>
    requires nums != []
  {
    var anchored := AnchoredValues(nums, pc);
    if pc > 0 && |anchored| == pc then anchored
    else Fallback(nums, pc, GapValues(nums))
  }

  /** `extractValuesByX(tokens, preferredCount)`. */
  function ValuesByX(tokens: seq<Token>, pc: nat): seq<string> {
    var nums := NumericTokens(tokens);
    if nums == [] then []
    else if |nums| == 1 then NumbersFromText(nums[0].text, pc)
    else ColumnValues(nums, pc)
  }

  /** `extractValuesByX`, step by step. */
  method ExtractValuesByX(tokens: seq<Token>, pc: nat) returns (r: seq<string>)
    ensures r == ValuesByX(tokens, pc)
  {
    var nums := NumericTokens(tokens);
    if |nums| == 0 {
      return [];
    }
    if |nums| == 1 {
      r := ExtractNumbersFromText(nums[0].text, pc);
      return;
    }
    r := ExtractColumnValues(nums, pc);
  }

  /** The strategies for two or more numeric tokens, with the early returns
      of the source. */
  method ExtractColumnValues(nums: seq<Token>, pc: nat) returns (r: seq<string>)
    requires |nums| >= 2
    ensures r == ColumnValues(nums, pc)
  {
    var direct := DirectCandidates(nums, pc);
    if pc > 0 && |direct| > 0 {
      return Longest(direct, JoinedLen);
    }
    r := ExtractAfterDirect(nums, pc);
  }

  /** The anchor values, or the last strategies. */
  method ExtractAfterDirect(nums: seq<Token>, pc: nat) returns (r: seq<string>)
    requires nums != []
    ensures r == AfterDirect(nums, pc)
  {
    var anchored := AnchoredValuesOf(nums, pc);
    if pc > 0 && |anchored| == pc {
      return anchored;
    }
    var values := GapValuesOf(nums);
    r := FallbackValues(nums, pc, values);
  }

  /** Anchors, buckets and the bucket values. */
  method AnchoredValuesOf(nums: seq<Token>, pc: nat) returns (anchored: seq<string>)
    ensures anchored == AnchoredValues(nums, pc)
  {
    var anchors := AnchorsOf(nums, pc);
    var buckets := AssignBuckets(nums, anchors);
    anchored := AnchorValues(buckets);
  }

  /** Gap groups and their values. */
  method GapValuesOf(nums: seq<Token>) returns (values: seq<string>)
    requires nums != []
    ensures values == GapValues(nums)
  {
    var groups := GroupByGaps(nums, SplitGap(nums));
    values := CollectGroupValues(groups);
  }

  /** The anchors, the centres clustered by the loop. */
  method AnchorsOf(nums: seq<Token>, pc: nat) returns (anchors: seq<real>)
    ensures anchors == Anchors(nums, pc)
  {
    var centers := SortReals(Centers(nums));
    var clustered := ClusterCenters(centers);
    var cs := SortBy(clustered, MeanLe);
    var k := AnchorCount(pc);
    var kept := if |cs| <= k then cs else cs[|cs| - k..];
    anchors := SortReals(Means(kept));
  }

  /** The last strategies, with the early returns of the source. */
  method FallbackValues(nums: seq<Token>, pc: nat, values: seq<string>) returns (r: seq<string>)
    ensures r == Fallback(nums, pc, values)
  {
    var repair: seq<string> := [];
    if pc > 0 && |values| == 1 {
      repair := ExtractNumbersFromText(values[0], pc);
    }
    if pc > 0 && |values| == 1 && |repair| == pc {
      r := repair;
    } else {
      var rowNums := ExtractNumbersFromText(TextOf(nums), pc);
      r := if pc > 0 && |rowNums| >= pc then rowNums[..pc] else if |values| > 0 then values else rowNums;
    }
  }

  // ---------------------------------------------------------------------------
  // What the strategies promise

  lemma {:induction false} NoDigitsNoNumeric(tokens: seq<Token>)
    requires forall t | t in tokens :: !HasDigit(t.text)
    ensures NumericTokens(tokens) == []
  {
    if tokens != [] {
      assert !HasDigit(tokens[0].text);
      NoDigitsNoNumeric(tokens[1..]);
    }
  }

  /** A row without a digit in any token has no values. */
  lemma NoNumbersNoValues(tokens: seq<Token>, pc: nat)
    requires forall t | t in tokens :: !HasDigit(t.text)
    ensures ValuesByX(tokens, pc) == []
  {
    NoDigitsNoNumeric(tokens);
  }

  /** When some numeric token (of two or more) splits into exactly `pc`
      values, the answer is such a split, and the first of greatest joined
      length among them. */
  lemma {:induction false} DirectWins(tokens: seq<Token>, pc: nat)
    requires pc > 0 && |NumericTokens(tokens)| >= 2
    requires exists t | t in NumericTokens(tokens) :: |NumbersFromText(t.text, pc)| == pc
    ensures var r := ValuesByX(tokens, pc);
            && |r| == pc
            && (exists t | t in NumericTokens(tokens) :: r == NumbersFromText(t.text, pc))
            && forall t | t in NumericTokens(tokens) && |NumbersFromText(t.text, pc)| == pc ::
                 JoinedLen(NumbersFromText(t.text, pc)) <= JoinedLen(r)
  {
    var nums := NumericTokens(tokens);
    var direct := DirectCandidates(nums, pc);
    DirectCandidatesSound(nums, pc);
    var t :| t in nums && |NumbersFromText(t.text, pc)| == pc;
    DirectCandidatesComplete(nums, pc, t);
    assert ValuesByX(tokens, pc) == Longest(direct, JoinedLen);
    LongestIsMax(direct, JoinedLen);
    forall u | u in nums && |NumbersFromText(u.text, pc)| == pc
      ensures JoinedLen(NumbersFromText(u.text, pc)) <= JoinedLen(Longest(direct, JoinedLen))
    {
      DirectCandidatesComplete(nums, pc, u);
    }
  }

  lemma {:induction false} TextValuesClean(text: string, pc: nat)
    ensures forall v | v in NumbersFromText(text, pc) :: v != "" && Normalized(v)
  {
    FlatValuesClean(Runs(MapDashes(CleanNumberText(text)), 0), pc, false);
  }

  lemma FallbackClean(nums: seq<Token>, pc: nat, values: seq<string>)
    requires forall v | v in values :: v != "" && Normalized(v)
    ensures forall v | v in Fallback(nums, pc, values) :: v != "" && Normalized(v)
  {
    if pc > 0 && |values| == 1 {
      assert values[0] in values;
      TextValuesClean(values[0], pc);
    }
    var rowNums := NumbersFromText(TextOf(nums), pc);
    TextValuesClean(TextOf(nums), pc);
    if pc > 0 && |rowNums| >= pc {
      assert forall v | v in rowNums[..pc] :: v in rowNums;
    }
  }

  lemma ColumnValuesClean(nums: seq<Token>, pc: nat)
    requires |nums| >= 2
    ensures forall v | v in ColumnValues(nums, pc) :: v != "" && Normalized(v)
  {
    var direct := DirectCandidates(nums, pc);
    if pc > 0 && direct != [] {
      var r := Longest(direct, JoinedLen);
      DirectCandidatesSound(nums, pc);
      var t :| t in nums && r == NumbersFromText(t.text, pc);
      TextValuesClean(t.text, pc);
    } else {
      AfterDirectClean(nums, pc);
    }
  }

  lemma AfterDirectClean(nums: seq<Token>, pc: nat)
    requires nums != []
    ensures forall v | v in AfterDirect(nums, pc) :: v != "" && Normalized(v)
  {
    FallbackClean(nums, pc, GapValues(nums));
  }

  /** Whatever strategy answers, every value is non-empty normalised text. */
  lemma ValuesByXClean(tokens: seq<Token>, pc: nat)
    ensures forall v | v in ValuesByX(tokens, pc) :: v != "" && Normalized(v)
  {
    var nums := NumericTokens(tokens);
    if |nums| == 1 {
      TextValuesClean(nums[0].text, pc);
    } else if |nums| > 1 {
      ColumnValuesClean(nums, pc);
    }
  }

  /** With `pc > 0` every strategy but the last two fallbacks yields exactly
      `pc` values: a result of another length is the gap-group values, or the
      whole row's values when it has fewer than `pc`. */
  lemma {:induction false} ValuesByXCount(tokens: seq<Token>, pc: nat)
    requires pc > 0 && |NumericTokens(tokens)| >= 2
    ensures var r := ValuesByX(tokens, pc);
            var nums := NumericTokens(tokens);
            |r| == pc
            || r == GapValues(nums)
            || (r == NumbersFromText(TextOf(nums), pc) && |r| < pc)
  {
    var nums := NumericTokens(tokens);
    var direct := DirectCandidates(nums, pc);
    if direct != [] {
      assert Longest(direct, JoinedLen) in direct;
    } else if |AnchoredValues(nums, pc)| != pc {
      FallbackCount(nums, pc, GapValues(nums));
    }
  }

  /** With `pc > 0` the repair and the row prefix give `pc` values; any other
      length is the gap values or a short whole-row result. */
  lemma FallbackCount(nums: seq<Token>, pc: nat, values: seq<string>)
    requires pc > 0
    ensures var r := Fallback(nums, pc, values);
            |r| == pc || r == values || (r == NumbersFromText(TextOf(nums), pc) && |r| < pc)
  {
  }

  // ---------------------------------------------------------------------------
  // lineWithoutNumbers

  /** The tokens that do not look numeric, in order. */
  function LabelTokens(ts: seq<Token>): (r: seq<Token>)
    ensures forall t | t in r :: t in ts && !LooksNumericToken(t.text)
  {
    if ts == [] then []
    else (if LooksNumericToken(ts[0].text) then [] else [ts[0]]) + LabelTokens(ts[1..])
  }

  /** `lineWithoutNumbers(tokens)`: the normalised text of the non-numeric
      tokens, a doubled label collapsed. */
  function LineWithoutNumbers(ts: seq<Token>): string {
    CollapseDoubled(TextOf(LabelTokens(ts)))
  }

  /** The label is normalised text. */
  lemma LineWithoutNumbersNormalized(ts: seq<Token>)
    ensures Normalized(LineWithoutNumbers(ts))
  {
    CollapseNormalized(TextOf(LabelTokens(ts)));
  }
}
