/**
 * `buildStructuredLineColumns` of src/processor.js and its variant in
 * src/wide_report.js: the matched lines of a record are bucketed by the
 * canonical form of their keyword, and every requested keyword gets a fixed
 * grid of CSV cells — per line slot the line text, its page-line index and
 * its first values — with "" wherever the bucket runs out.
 *
 * The output object is modelled as a map from a `Field` (keyword, line slot,
 * cell kind) to the cell text; `FieldName` renders the property name the
 * source builds for a field, and `FieldNameInjective` shows that distinct
 * fields get distinct names, so the object has exactly one property per
 * field.
 */
module LineColumns {
  import opened Wrappers
  import opened Strs
  import opened Lists
  import opened Reporting
  import Money

  // ---------------------------------------------------------------------------
  // Buckets

  /** What `add` stores for an item. */
  datatype Row = Row(key: string, line: string, lineIndex: nat, values: seq<string>)

  /** The row an item contributes, if any: a non-empty string goes under
      "Unknown" without index or values; an object needs a non-blank line,
      and a missing key becomes "Unknown". */
  function RowOf(it: LineItem): (r: Option<Row>)
    ensures r.Some? ==> r.value.line != ""
  {
    match it
    case Text(s) => if s == "" then None else Some(Row("Unknown", s, 0, []))
    case Keyed(h) =>
      if Trim(h.line) == "" then None
      else Some(Row(if h.key == "" then "Unknown" else h.key, h.line, h.lineIndex, h.values))
  }

  /** The bucket of canonical key `ck` after `add` has seen `items`: a row
      joins while the bucket holds fewer than `maxLines` rows. */
  function Bucket(items: seq<LineItem>, ck: string, maxLines: nat): (b: seq<Row>)
    ensures |b| <= maxLines
    ensures forall j | 0 <= j < |b| :: b[j].line != ""
  {
    if items == [] then []
    else
      var b := Bucket(items[..|items| - 1], ck, maxLines);
      match RowOf(items[|items| - 1])
      case Some(row) => if CanonicalKey(row.key) == ck && |b| < maxLines then b + [row] else b
      case None => b
  }

  /** Every row the items contribute, in order. */
  function Rows(items: seq<LineItem>): seq<Row> {
    if items == [] then []
    else
      Rows(items[..|items| - 1])
        + (match RowOf(items[|items| - 1]) case Some(row) => [row] case None => [])
  }

  function HasKey(ck: string): Row -> bool {
    (row: Row) => CanonicalKey(row.key) == ck
  }

  function Take<T>(xs: seq<T>, n: nat): (r: seq<T>)
    ensures |r| <= n
  {
    if |xs| <= n then xs else xs[..n]
  }

  /** A bucket is the first `maxLines` rows whose key canonicalises to `ck`:
      later rows for a full bucket are dropped. */
  lemma {:induction false} BucketIsFirstRows(items: seq<LineItem>, ck: string, maxLines: nat)
    ensures Bucket(items, ck, maxLines) == Take(KeepIf(Rows(items), HasKey(ck)), maxLines)
  {
    if items != [] {
      var init := items[..|items| - 1];
      BucketIsFirstRows(init, ck, maxLines);
      var o := BucketStep(items, ck, maxLines);
      TakeKeepSnoc(Bucket(init, ck, maxLines), Rows(init), o, HasKey(ck), maxLines);
    }
  }

  /** One more item: the row it contributes, if any, joins the rows and,
      when its key matches and there is room, the bucket. */
  lemma BucketStep(items: seq<LineItem>, ck: string, maxLines: nat) returns (o: Option<Row>)
    requires items != []
    ensures o == RowOf(items[|items| - 1])
    ensures var init := items[..|items| - 1];
      && Rows(items) == Rows(init) + (if o.Some? then [o.value] else [])
      && Bucket(items, ck, maxLines)
         == if o.Some? && HasKey(ck)(o.value) && |Bucket(init, ck, maxLines)| < maxLines
            then Bucket(init, ck, maxLines) + [o.value] else Bucket(init, ck, maxLines)
  {
    o := RowOf(items[|items| - 1]);
    var init := items[..|items| - 1];
    if o.None? {
      assert Rows(items) == Rows(init) + [];
    }
  }

  lemma TakeKeepSnoc<T>(b: seq<T>, xs: seq<T>, o: Option<T>, p: T -> bool, n: nat)
    requires b == Take(KeepIf(xs, p), n)
    ensures (if o.Some? && p(o.value) && |b| < n then b + [o.value] else b)
            == Take(KeepIf(xs + (if o.Some? then [o.value] else []), p), n)
  {
    if o.Some? {
      KeepIfSnoc(xs, o.value, p);
      TakeSnoc(KeepIf(xs, p), o.value, n);
    } else {
      assert xs + [] == xs;
    }
  }

  lemma TakeSnoc<T>(xs: seq<T>, x: T, n: nat)
    ensures Take(xs + [x], n) == if |xs| < n then xs + [x] else Take(xs, n)
  {
    if |xs| >= n {
      assert (xs + [x])[..n] == xs[..n];
    }
  }

  // ---------------------------------------------------------------------------
  // Fields and their names

  /** A cell of the grid: the line text, its index, or its `n`-th value, of
      line slot `i` of keyword `ck` (slots and values counted from 0). */
  datatype Field = Line(ck: string, i: nat) | Idx(ck: string, i: nat) | Num(ck: string, i: nat, n: nat)

  function Suffix(f: Field): string {
    match f
    case Line(_, _) => ""
    case Idx(_, _) => "_Idx"
    case Num(_, _, n) => "_Num" + Money.Dec(n + 1)
  }

  /** `${prefix}_${ck}_Line${i + 1}`, then `_Idx` or `_Num${n + 1}`. */
  function FieldName(prefix: string, f: Field): string {
    prefix + "_" + f.ck + "_Line" + Money.Dec(f.i + 1) + Suffix(f)
  }

  /** Position of the first `sep` in `s`, or `|s|` when there is none. */
  function SepIndex(s: string, sep: char): (k: nat)
    ensures k <= |s|
  {
    if s == [] || s[0] == sep then 0 else 1 + SepIndex(s[1..], sep)
  }

  lemma {:induction false} SepIndexAfter(a: string, r: string, sep: char)
    requires sep !in a
    requires r == [] || r[0] == sep
    ensures SepIndex(a + r, sep) == |a|
  {
    if a != [] {
      assert (a + r)[1..] == a[1..] + r;
      SepIndexAfter(a[1..], r, sep);
    }
  }

  /** `a + r` splits uniquely when `a` holds no `sep` and `r` is empty or
      starts with it. */
  lemma SplitAtSep(a: string, r: string, b: string, t: string, sep: char)
    requires sep !in a && sep !in b
    requires r == [] || r[0] == sep
    requires t == [] || t[0] == sep
    requires a + r == b + t
    ensures a == b && r == t
  {
    SepIndexAfter(a, r, sep);
    SepIndexAfter(b, t, sep);
    assert a == (a + r)[..|a|];
    assert r == (a + r)[|a|..];
  }

  lemma NoUnderscoreInDigits(d: string)
    requires AllDigits(d)
    ensures '_' !in d
  {
    assert forall k | 0 <= k < |d| :: d[k] != '_';
  }

  /** The name as prefix, keyword, slot number and suffix. */
  lemma FieldNameParts(prefix: string, f: Field)
    ensures FieldName(prefix, f) == (prefix + "_") + (f.ck + ("_Line" + (Money.Dec(f.i + 1) + Suffix(f))))
  {
  }

  /** The suffix tells the cell kinds and value positions apart. */
  lemma SuffixInjective(f: Field, g: Field)
    requires Suffix(f) == Suffix(g)
    ensures f.Line? == g.Line? && f.Idx? == g.Idx? && f.Num? == g.Num?
    ensures f.Num? && g.Num? ==> f.n == g.n
  {
    if f.Num? && g.Num? {
      assert Money.Dec(f.n + 1) == Suffix(f)[4..];
      assert Money.Dec(g.n + 1) == Suffix(g)[4..];
      Money.DecValue(f.n + 1);
      Money.DecValue(g.n + 1);
    } else if f.Idx? || g.Idx? {
      assert Suffix(f)[1] == Suffix(g)[1];
    }
  }

  /** Distinct fields of keywords without '_' get distinct property names:
      the keyword ends at the first '_', the slot number at the next one,
      and the suffix tells the cell kinds apart. */
  lemma FieldNameInjective(prefix: string, f: Field, g: Field)
    requires '_' !in f.ck && '_' !in g.ck
    requires FieldName(prefix, f) == FieldName(prefix, g)
    ensures f == g
  {
    var p := prefix + "_";
    var df := Money.Dec(f.i + 1);
    var dg := Money.Dec(g.i + 1);
    var rf := "_Line" + (df + Suffix(f));
    var rg := "_Line" + (dg + Suffix(g));
    FieldNameParts(prefix, f);
    FieldNameParts(prefix, g);
    assert f.ck + rf == (p + (f.ck + rf))[|p|..];
    assert g.ck + rg == (p + (g.ck + rg))[|p|..];
    SplitAtSep(f.ck, rf, g.ck, rg, '_');
    assert df + Suffix(f) == rf[5..];
    assert dg + Suffix(g) == rg[5..];
    NoUnderscoreInDigits(df);
    NoUnderscoreInDigits(dg);
    SplitAtSep(df, Suffix(f), dg, Suffix(g), '_');
    Money.DecValue(f.i + 1);
    Money.DecValue(g.i + 1);
    SuffixInjective(f, g);
  }

  /** Canonical keys never contain '_', so grid field names never collide. */
  lemma CanonicalNoUnderscore(s: string)
    ensures '_' !in CanonicalKey(s)
  {
    CanonicalKeyFacts(s);
  }

  // ---------------------------------------------------------------------------
  // The grid

  predicate InSlots(f: Field, maxLines: nat, maxNums: nat) {
    f.i < maxLines && (f.Num? ==> f.n < maxNums)
  }

  /** Field `f` is a value cell `0..n` of slot `i` of keyword `ck`. */
  predicate OfNums(f: Field, ck: string, i: nat, n: nat) { f.Num? && f.ck == ck && f.i == i && f.n < n }

  /** Field `f` is a cell of slot `i` of keyword `ck`. */
  predicate OfSlot(f: Field, ck: string, i: nat, maxNums: nat) { f.ck == ck && f.i == i && (f.Num? ==> f.n < maxNums) }

  /** Field `f` is a cell of the first `m` slots of keyword `ck`. */
  predicate OfKey(f: Field, ck: string, m: nat, maxNums: nat) { f.ck == ck && InSlots(f, m, maxNums) }

  predicate InGrid(f: Field, cks: seq<string>, maxLines: nat, maxNums: nat) {
    f.ck in cks && InSlots(f, maxLines, maxNums)
  }

  function NumFields(ck: string, i: nat, n: nat): seq<Field> {
    if n == 0 then [] else NumFields(ck, i, n - 1) + [Num(ck, i, n - 1)]
  }

  /** The cells of line slot `i`, in the order the loop writes them. */
  function LineFields(ck: string, i: nat, maxNums: nat): seq<Field> {
    [Line(ck, i), Idx(ck, i)] + NumFields(ck, i, maxNums)
  }

  function KeyFields(ck: string, m: nat, maxNums: nat): seq<Field> {
    if m == 0 then [] else KeyFields(ck, m - 1, maxNums) + LineFields(ck, m - 1, maxNums)
  }

  /** Every cell of the grid, in the order the loops write them. */
  function GridFields(cks: seq<string>, maxLines: nat, maxNums: nat): seq<Field> {
    if cks == [] then [] else GridFields(cks[..|cks| - 1], maxLines, maxNums) + KeyFields(cks[|cks| - 1], maxLines, maxNums)
  }

  lemma {:induction false} NumFieldsFacts(ck: string, i: nat, n: nat)
    ensures |NumFields(ck, i, n)| == n
    ensures Distinct(NumFields(ck, i, n))
    ensures forall f :: f in NumFields(ck, i, n) <==> OfNums(f, ck, i, n)
  {
    if n > 0 {
      NumFieldsFacts(ck, i, n - 1);
      DistinctAppend(NumFields(ck, i, n - 1), [Num(ck, i, n - 1)]);
    }
  }

  lemma LineFieldsFacts(ck: string, i: nat, maxNums: nat)
    ensures |LineFields(ck, i, maxNums)| == 2 + maxNums
    ensures Distinct(LineFields(ck, i, maxNums))
    ensures forall f :: f in LineFields(ck, i, maxNums) <==> OfSlot(f, ck, i, maxNums)
  {
    NumFieldsFacts(ck, i, maxNums);
    DistinctAppend([Line(ck, i), Idx(ck, i)], NumFields(ck, i, maxNums));
  }

  lemma {:induction false} KeyFieldsCount(ck: string, m: nat, maxNums: nat)
    ensures |KeyFields(ck, m, maxNums)| == m * (2 + maxNums)
  {
    if m > 0 {
      KeyFieldsCount(ck, m - 1, maxNums);
      LineFieldsFacts(ck, m - 1, maxNums);
      assert (m - 1) * (2 + maxNums) + (2 + maxNums) == m * (2 + maxNums);
    }
  }

  lemma {:induction false} KeyFieldsMembership(ck: string, m: nat, maxNums: nat)
    ensures forall f :: f in KeyFields(ck, m, maxNums) <==> OfKey(f, ck, m, maxNums)
  {
    if m > 0 {
      var prev := KeyFields(ck, m - 1, maxNums);
      var last := LineFields(ck, m - 1, maxNums);
      assert KeyFields(ck, m, maxNums) == prev + last;
      KeyFieldsMembership(ck, m - 1, maxNums);
      LineFieldsMembers(ck, m - 1, maxNums);
      forall f: Field ensures f in prev + last <==> OfKey(f, ck, m, maxNums) {
        assert f in prev + last <==> f in prev || f in last;
      }
    }
  }

  lemma {:induction false} KeyFieldsMembers(ck: string, m: nat, maxNums: nat)
    ensures Distinct(KeyFields(ck, m, maxNums))
    ensures forall f :: f in KeyFields(ck, m, maxNums) <==> OfKey(f, ck, m, maxNums)
  {
    KeyFieldsMembership(ck, m, maxNums);
    KeyFieldsDistinct(ck, m, maxNums);
  }

  lemma LineFieldsMembers(ck: string, i: nat, maxNums: nat)
    ensures forall f :: f in LineFields(ck, i, maxNums) <==> OfSlot(f, ck, i, maxNums)
  {
    LineFieldsFacts(ck, i, maxNums);
  }

  lemma LineFieldsAt(ck: string, i: nat, maxNums: nat)
    ensures Distinct(LineFields(ck, i, maxNums))
    ensures forall f | f in LineFields(ck, i, maxNums) :: f.i == i
  {
    LineFieldsFacts(ck, i, maxNums);
  }

  lemma KeyFieldsBelow(ck: string, m: nat, maxNums: nat)
    ensures forall f | f in KeyFields(ck, m, maxNums) :: f.i < m
  {
    KeyFieldsMembership(ck, m, maxNums);
  }

  lemma {:induction false} KeyFieldsDistinct(ck: string, m: nat, maxNums: nat)
    ensures Distinct(KeyFields(ck, m, maxNums))
  {
    if m > 0 {
      var prev := KeyFields(ck, m - 1, maxNums);
      var last := LineFields(ck, m - 1, maxNums);
      assert KeyFields(ck, m, maxNums) == prev + last;
      KeyFieldsDistinct(ck, m - 1, maxNums);
      KeyFieldsBelow(ck, m - 1, maxNums);
      LineFieldsAt(ck, m - 1, maxNums);
      DistinctAppend(prev, last);
    }
  }

  lemma {:induction false} GridFieldsCount(cks: seq<string>, maxLines: nat, maxNums: nat)
    ensures |GridFields(cks, maxLines, maxNums)| == |cks| * (maxLines * (2 + maxNums))
  {
    if cks != [] {
      GridFieldsCount(cks[..|cks| - 1], maxLines, maxNums);
      KeyFieldsCount(cks[|cks| - 1], maxLines, maxNums);
      var w := maxLines * (2 + maxNums);
      assert (|cks| - 1) * w + w == |cks| * w;
    }
  }

  lemma {:induction false} GridFieldsMembers(cks: seq<string>, maxLines: nat, maxNums: nat)
    ensures forall f :: f in GridFields(cks, maxLines, maxNums) <==> InGrid(f, cks, maxLines, maxNums)
  {
    if cks != [] {
      var init := cks[..|cks| - 1];
      var ck := cks[|cks| - 1];
      GridFieldsMembers(init, maxLines, maxNums);
      KeyFieldsMembers(ck, maxLines, maxNums);
      assert forall c | c in cks :: c in init || c == ck;
      assert forall c | c in init :: c in cks;
    }
  }

  /** The grid holds exactly the cells of the listed keywords: `maxLines`
      slots each with a line, an index and `maxNums` values, each cell once,
      so `maxLines * (2 + maxNums)` cells per distinct keyword. */
  lemma {:induction false} GridFieldsFacts(cks: seq<string>, maxLines: nat, maxNums: nat)
    requires Distinct(cks)
    ensures |GridFields(cks, maxLines, maxNums)| == |cks| * (maxLines * (2 + maxNums))
    ensures Distinct(GridFields(cks, maxLines, maxNums))
    ensures forall f :: f in GridFields(cks, maxLines, maxNums) <==> InGrid(f, cks, maxLines, maxNums)
  {
    GridFieldsCount(cks, maxLines, maxNums);
    GridFieldsMembers(cks, maxLines, maxNums);
    if cks != [] {
      var init := cks[..|cks| - 1];
      var ck := cks[|cks| - 1];
      assert Distinct(init) by {
        forall a, b | 0 <= a < b < |init| ensures init[a] != init[b] { assert init[a] == cks[a] && init[b] == cks[b]; }
      }
      assert ck !in init by {
        forall k | 0 <= k < |init| ensures init[k] != ck { assert init[k] == cks[k]; }
      }
      GridFieldsFacts(init, maxLines, maxNums);
      KeyFieldsMembers(ck, maxLines, maxNums);
      DistinctAppend(GridFields(init, maxLines, maxNums), KeyFields(ck, maxLines, maxNums));
    }
  }

  // ---------------------------------------------------------------------------
  // Cells

  /** One value of a row: NBSP to space and trimmed; the processor.js copy
      (`strip`) also deletes whitespace, dots and commas. */
  function CleanValue(v: string, strip: bool): string {
    var t := Trim(NbspToSpace(v));
    if strip then StripSeparators(t) else t
  }

  function CleanValues(vs: seq<string>, strip: bool): (r: seq<string>)
    ensures |r| == |vs|
  {
    if vs == [] then [] else CleanValues(vs[..|vs| - 1], strip) + [CleanValue(vs[|vs| - 1], strip)]
  }

  lemma {:induction false} CleanValuesAt(vs: seq<string>, strip: bool, k: nat)
    requires k < |vs|
    ensures CleanValues(vs, strip)[k] == CleanValue(vs[k], strip)
  {
    if k < |vs| - 1 { CleanValuesAt(vs[..|vs| - 1], strip, k); }
  }

  /** The values of a slot: the row's own values, cleaned, when it has any,
      otherwise the numbers found in its line. */
  function NumsOf(row: Option<Row>, maxNums: nat, strip: bool): seq<string> {
    match row
    case None => []
    case Some(r) =>
      if |r.values| > 0 then Take(CleanValues(r.values, strip), maxNums)
      else ExtractNumericTokens(r.line, maxNums)
  }

  function Slot(b: seq<Row>, i: nat): Option<Row> {
    if i < |b| then Some(b[i]) else None
  }

  /** The text of a cell. */
  function Cell(f: Field, items: seq<LineItem>, maxLines: nat, maxNums: nat, strip: bool): string {
    var row := Slot(Bucket(items, f.ck, maxLines), f.i);
    match f
    case Line(_, _) => if row.Some? then row.value.line else ""
    case Idx(_, _) => if row.Some? && row.value.lineIndex != 0 then Money.Dec(row.value.lineIndex) else ""
    case Num(_, _, n) =>
      var nums := NumsOf(row, maxNums, strip);
      if n < |nums| then nums[n] else ""
  }

  /** The requested keywords: canonicalised, blanks dropped, deduplicated. */
  function CanonicalKeys(keys: seq<string>): seq<string> {
    Unique(KeepIf(MapEach(keys, CanonicalKey), NonEmpty))
  }

  /** `Number(x || d)` for a non-negative option. */
  function OrDefault(x: nat, d: nat): nat { if x == 0 then d else x }

  /** The object `buildStructuredLineColumns` returns. */
  function StructuredColumns(items: seq<LineItem>, keys: seq<string>, maxLinesOpt: nat, maxNumsOpt: nat, strip: bool)
    : map<Field, string>
  {
    var maxLines := OrDefault(maxLinesOpt, 10);
    var maxNums := OrDefault(maxNumsOpt, 10);
    map f | f in GridFields(CanonicalKeys(keys), maxLines, maxNums) :: Cell(f, items, maxLines, maxNums, strip)
  }

  function BucketIn(buckets: map<string, seq<Row>>, k: string): seq<Row> {
    if k in buckets then buckets[k] else []
  }

  lemma CanonicalKeysFacts(keys: seq<string>)
    ensures Distinct(CanonicalKeys(keys))
    ensures forall ck | ck in CanonicalKeys(keys) :: ck != "" && '_' !in ck
    ensures forall ck :: ck in CanonicalKeys(keys) <==> ck != "" && exists k | k in keys :: CanonicalKey(k) == ck
  {
    var canon := MapEach(keys, CanonicalKey);
    var kept := KeepIf(canon, NonEmpty);
    UniqueFacts(kept);
    KeepIfFacts(canon, NonEmpty);
    Lists.SubseqMembers(kept, canon);
    forall ck | ck in kept ensures '_' !in ck && exists k | k in keys :: CanonicalKey(k) == ck {
      assert ck in canon;
      var j :| 0 <= j < |canon| && canon[j] == ck;
      MapEachAt(keys, CanonicalKey, j);
      CanonicalNoUnderscore(keys[j]);
      assert keys[j] in keys;
    }
    forall ck | ck != "" && exists k | k in keys :: CanonicalKey(k) == ck ensures ck in kept {
      var k :| k in keys && CanonicalKey(k) == ck;
      var j :| 0 <= j < |keys| && keys[j] == k;
      MapEachAt(keys, CanonicalKey, j);
      assert canon[j] in canon;
    }
  }

  /** The object has a property for exactly the grid cells of the requested
      keywords. */
  lemma StructuredColumnsDomain(items: seq<LineItem>, keys: seq<string>, maxLinesOpt: nat, maxNumsOpt: nat, strip: bool)
    ensures var out := StructuredColumns(items, keys, maxLinesOpt, maxNumsOpt, strip);
      forall f :: f in out <==> InGrid(f, CanonicalKeys(keys), OrDefault(maxLinesOpt, 10), OrDefault(maxNumsOpt, 10))
  {
    GridFieldsMembers(CanonicalKeys(keys), OrDefault(maxLinesOpt, 10), OrDefault(maxNumsOpt, 10));
  }

  /** Each distinct requested keyword contributes `maxLines * (2 + maxNums)`
      properties: per slot a line, an index and `maxNums` values. */
  lemma StructuredColumnsCount(items: seq<LineItem>, keys: seq<string>, maxLinesOpt: nat, maxNumsOpt: nat, strip: bool)
    ensures var maxLines := OrDefault(maxLinesOpt, 10);
      var maxNums := OrDefault(maxNumsOpt, 10);
      |StructuredColumns(items, keys, maxLinesOpt, maxNumsOpt, strip)| == |CanonicalKeys(keys)| * (maxLines * (2 + maxNums))
  {
    var maxLines := OrDefault(maxLinesOpt, 10);
    var maxNums := OrDefault(maxNumsOpt, 10);
    var cks := CanonicalKeys(keys);
    var fs := GridFields(cks, maxLines, maxNums);
    GridFieldsCount(cks, maxLines, maxNums);
    assert Distinct(fs) by {
      CanonicalKeysFacts(keys);
      GridFieldsFacts(cks, maxLines, maxNums);
    }
    ColumnsCard(StructuredColumns(items, keys, maxLinesOpt, maxNumsOpt, strip), fs);
  }

  lemma ColumnsCard(out: map<Field, string>, fs: seq<Field>)
    requires Distinct(fs)
    requires forall f :: f in out <==> f in fs
    ensures |out| == |fs|
  {
    DistinctCard(fs);
    assert out.Keys == set f | f in fs;
  }

  /** Distinct cells of one object get distinct property names. */
  lemma StructuredColumnsNames(prefix: string, items: seq<LineItem>, keys: seq<string>, maxLinesOpt: nat, maxNumsOpt: nat, strip: bool)
    ensures var out := StructuredColumns(items, keys, maxLinesOpt, maxNumsOpt, strip);
      forall f, g | f in out && g in out && f != g :: FieldName(prefix, f) != FieldName(prefix, g)
  {
    var out := StructuredColumns(items, keys, maxLinesOpt, maxNumsOpt, strip);
    StructuredColumnsDomain(items, keys, maxLinesOpt, maxNumsOpt, strip);
    CanonicalKeysFacts(keys);
    forall f, g | f in out && g in out && f != g ensures FieldName(prefix, f) != FieldName(prefix, g) {
      if FieldName(prefix, f) == FieldName(prefix, g) {
        FieldNameInjective(prefix, f, g);
      }
    }
  }

  /** Slot `i` of a keyword shows the line of the `i`-th row filed under it
      (the first `maxLines` rows whose key canonicalises to it), or "" when
      there are fewer rows. */
  lemma LineCellFacts(items: seq<LineItem>, ck: string, i: nat, maxLines: nat, maxNums: nat, strip: bool)
    ensures var rows := Take(KeepIf(Rows(items), HasKey(ck)), maxLines);
      var c := Cell(Line(ck, i), items, maxLines, maxNums, strip);
      && (c != "" <==> i < |rows|)
      && (i < |rows| ==> c == rows[i].line)
  {
    BucketIsFirstRows(items, ck, maxLines);
  }

  /** The index cell is the decimal page-line index of the slot's row, and
      "" when there is no row or it has no index. */
  lemma IdxCellFacts(items: seq<LineItem>, ck: string, i: nat, maxLines: nat, maxNums: nat, strip: bool)
    ensures var rows := Take(KeepIf(Rows(items), HasKey(ck)), maxLines);
      var c := Cell(Idx(ck, i), items, maxLines, maxNums, strip);
      && (c != "" <==> i < |rows| && rows[i].lineIndex > 0)
      && (c != "" ==> AllDigits(c) && Money.Value(c) == rows[i].lineIndex)
  {
    BucketIsFirstRows(items, ck, maxLines);
    var b := Bucket(items, ck, maxLines);
    if i < |b| && b[i].lineIndex > 0 {
      Money.DecValue(b[i].lineIndex);
    }
  }

  /** Value `n` of a slot: "" without a row; the row's own value `n`, cleaned,
      when the row has values (and "" past them or past `maxNums`);
      otherwise "" or a number token found in the line. */
  lemma NumCellFacts(items: seq<LineItem>, ck: string, i: nat, n: nat, maxLines: nat, maxNums: nat, strip: bool)
    ensures var row := Slot(Bucket(items, ck, maxLines), i);
      var c := Cell(Num(ck, i, n), items, maxLines, maxNums, strip);
      && (row.None? ==> c == "")
      && (row.Some? && row.value.values != [] ==>
            c == if n < |row.value.values| && n < maxNums then CleanValue(row.value.values[n], strip) else "")
      && (row.Some? && row.value.values == [] ==> c == "" || SignedDigits(c))
  {
    var row := Slot(Bucket(items, ck, maxLines), i);
    if row.Some? {
      var vs := row.value.values;
      if vs != [] {
        if n < |vs| && n < maxNums {
          CleanValuesAt(vs, strip, n);
        }
      } else {
        TokenCell(row.value.line, n, maxNums);
      }
    }
  }

  lemma TokenCell(line: string, n: nat, maxNums: nat)
    ensures var nums := ExtractNumericTokens(line, maxNums);
      n < |nums| ==> SignedDigits(nums[n])
  {
    var nums := ExtractNumericTokens(line, maxNums);
    if n < |nums| {
      ExtractNumericTokensFacts(line, maxNums);
      assert nums[n] in nums;
    }
  }

  lemma {:induction false} StripSeparatorsClean(m: string)
    ensures forall j | 0 <= j < |StripSeparators(m)| :: !IsStripped(StripSeparators(m)[j])
  {
    if m != [] {
      StripSeparatorsClean(m[1..]);
    }
  }

  lemma SignedDigitsClean(t: string)
    requires SignedDigits(t)
    ensures forall j | 0 <= j < |t| :: !IsStripped(t[j])
    ensures Trim(t) == t
  {
    TrimNoop(t);
  }

  /** A cleaned value: with `strip` it holds no whitespace, dot or comma;
      without it, it is trimmed. */
  lemma CleanValueFacts(v: string, strip: bool)
    ensures strip ==> forall j | 0 <= j < |CleanValue(v, strip)| :: !IsStripped(CleanValue(v, strip)[j])
    ensures !strip ==> Trim(CleanValue(v, strip)) == CleanValue(v, strip)
  {
    var t := Trim(NbspToSpace(v));
    if strip {
      StripSeparatorsClean(t);
    } else {
      TrimTwice(NbspToSpace(v));
    }
  }

  /** Every value cell is clean in the sense of `CleanValueFacts`, whether it
      came from the row's values or from the numbers in its line. */
  lemma NumCellClean(items: seq<LineItem>, ck: string, i: nat, n: nat, maxLines: nat, maxNums: nat, strip: bool)
    ensures var c := Cell(Num(ck, i, n), items, maxLines, maxNums, strip);
      && (strip ==> forall j | 0 <= j < |c| :: !IsStripped(c[j]))
      && (!strip ==> Trim(c) == c)
  {
    var row := Slot(Bucket(items, ck, maxLines), i);
    var c := Cell(Num(ck, i, n), items, maxLines, maxNums, strip);
    NumCellFacts(items, ck, i, n, maxLines, maxNums, strip);
    if row.Some? && row.value.values != [] && n < |row.value.values| && n < maxNums {
      CleanValueFacts(row.value.values[n], strip);
    } else if c != "" {
      SignedDigitsClean(c);
    }
  }

  // ---------------------------------------------------------------------------
  // The imperative builder

  /** Writes the cells of line slot `i` of keyword `ck`: the line, its index
      and `maxNums` values, each "" where the bucket has no row or the row
      has no such value. */
  method WriteSlot(out: map<Field, string>, items: seq<LineItem>, ck: string, i: nat, arr: seq<Row>,
                   maxLines: nat, maxNums: nat, strip: bool)
    returns (r: map<Field, string>)
    requires arr == Bucket(items, ck, maxLines)
    requires forall f | f in out :: out[f] == Cell(f, items, maxLines, maxNums, strip)
    ensures forall f | f in r :: r[f] == Cell(f, items, maxLines, maxNums, strip)
    ensures forall f :: f in r <==> f in out || OfSlot(f, ck, i, maxNums)
  {
    var row := if i < |arr| then Some(arr[i]) else None;
    r := out[Line(ck, i) := if row.Some? then row.value.line else ""];
    r := r[Idx(ck, i) := if row.Some? && row.value.lineIndex != 0 then Money.Dec(row.value.lineIndex) else ""];
    var nums := NumsOf(row, maxNums, strip);
    ghost var cell := (f: Field) => Cell(f, items, maxLines, maxNums, strip);
    assert forall f | f in r :: r[f] == cell(f);
    forall n: nat | n < maxNums
      ensures cell(Num(ck, i, n)) == if n < |nums| then nums[n] else ""
    {
    }
    var r0 := r;
    r := WriteNums(r, ck, i, nums, maxNums, cell);
    assert forall f | f in r :: r[f] == Cell(f, items, maxLines, maxNums, strip) by {
      forall f | f in r ensures r[f] == Cell(f, items, maxLines, maxNums, strip) {
        assert r[f] == cell(f);
      }
    }
  }

  /** The inner loop of `WriteSlot`: value cells `0..maxNums` of slot `i`,
      each the `n`-th of `nums` or "". */
  method WriteNums(out: map<Field, string>, ck: string, i: nat, nums: seq<string>, maxNums: nat,
                   ghost cell: Field -> string)
    returns (r: map<Field, string>)
    requires forall n: nat | n < maxNums :: cell(Num(ck, i, n)) == if n < |nums| then nums[n] else ""
    requires forall f | f in out :: out[f] == cell(f)
    ensures forall f | f in r :: r[f] == cell(f)
    ensures forall f :: f in r <==> f in out || OfNums(f, ck, i, maxNums)
  {
    r := out;
    var n := 0;
    while n < maxNums
      invariant n <= maxNums
      invariant forall f | f in r :: r[f] == cell(f)
      invariant forall f :: f in r <==> f in out || OfNums(f, ck, i, n)
    {
      r := r[Num(ck, i, n) := if n < |nums| then nums[n] else ""];
      n := n + 1;
    }
  }

  /** The bucketing loop with its `add`: each row goes to the bucket of its
      canonical key, created on first use, unless that bucket is full. */
  method CollectBuckets(items: seq<LineItem>, maxLines: nat) returns (buckets: map<string, seq<Row>>)
    ensures forall k | k != "" :: BucketIn(buckets, k) == Bucket(items, k, maxLines)
  {
    buckets := map[];
    var j := 0;
    while j < |items|
      invariant j <= |items|
      invariant forall k | k != "" :: BucketIn(buckets, k) == Bucket(items[..j], k, maxLines)
    {
      assert items[..j + 1][..j] == items[..j];
      buckets := AddRow(buckets, items[..j + 1], maxLines);
      j := j + 1;
    }
    assert items[..j] == items;
  }

  /** The loop body of `CollectBuckets`: `add` for the last item. */
  method AddRow(buckets: map<string, seq<Row>>, items: seq<LineItem>, maxLines: nat)
    returns (r: map<string, seq<Row>>)
    requires items != []
    requires forall k | k != "" :: BucketIn(buckets, k) == Bucket(items[..|items| - 1], k, maxLines)
    ensures forall k | k != "" :: BucketIn(r, k) == Bucket(items, k, maxLines)
  {
    var row := RowOf(items[|items| - 1]);
    r := buckets;
    if row.Some? {
      var k := CanonicalKey(row.value.key);
      if k != "" {
        if k !in r {
          r := r[k := []];
        }
        if |r[k]| < maxLines {
          r := r[k := r[k] + [row.value]];
        }
      }
    }
    forall k | k != "" ensures BucketIn(r, k) == Bucket(items, k, maxLines) {
      var o := BucketStep(items, k, maxLines);
      assert BucketIn(buckets, k) == Bucket(items[..|items| - 1], k, maxLines);
      if o.Some? && HasKey(k)(o.value) {
        assert CanonicalKey(row.value.key) == k;
      } else {
        assert row.None? || CanonicalKey(row.value.key) != k;
        assert BucketIn(r, k) == BucketIn(buckets, k);
      }
    }
  }

  /** Writes the `maxLines` slots of keyword `ck`. */
  method WriteKey(out: map<Field, string>, items: seq<LineItem>, ck: string, arr: seq<Row>,
                  maxLines: nat, maxNums: nat, strip: bool)
    returns (r: map<Field, string>)
    requires arr == Bucket(items, ck, maxLines)
    requires forall f | f in out :: out[f] == Cell(f, items, maxLines, maxNums, strip)
    ensures forall f | f in r :: r[f] == Cell(f, items, maxLines, maxNums, strip)
    ensures forall f :: f in r <==> f in out || OfKey(f, ck, maxLines, maxNums)
  {
    r := out;
    var i := 0;
    while i < maxLines
      invariant i <= maxLines
      invariant forall f | f in r :: r[f] == Cell(f, items, maxLines, maxNums, strip)
      invariant forall f :: f in r <==> f in out || OfKey(f, ck, i, maxNums)
    {
      r := WriteSlot(r, items, ck, i, arr, maxLines, maxNums, strip);
      i := i + 1;
    }
  }

  /** `buildStructuredLineColumns`: bucket the items by canonical key, then
      write the grid of every requested keyword. The result is exactly
      `StructuredColumns`. */
  method BuildStructuredLineColumns(items: seq<LineItem>, keys: seq<string>, maxLinesOpt: nat, maxNumsOpt: nat, strip: bool)
    returns (out: map<Field, string>)
    ensures out == StructuredColumns(items, keys, maxLinesOpt, maxNumsOpt, strip)
  {
    var maxLines := OrDefault(maxLinesOpt, 10);
    var maxNums := OrDefault(maxNumsOpt, 10);
    var buckets := CollectBuckets(items, maxLines);
    var cks := CanonicalKeys(keys);
    out := map[];
    var c := 0;
    while c < |cks|
      invariant c <= |cks|
      invariant forall f | f in out :: out[f] == Cell(f, items, maxLines, maxNums, strip)
      invariant forall f :: f in out <==> InGrid(f, cks[..c], maxLines, maxNums)
    {
      var ck := cks[c];
      assert ck != "" by {
        CanonicalKeysFacts(keys);
        assert ck in cks;
      }
      out := WriteKey(out, items, ck, BucketIn(buckets, ck), maxLines, maxNums, strip);
      assert forall x | x in cks[..c + 1] :: x in cks[..c] || x == ck;
      assert forall x | x in cks[..c] :: x in cks[..c + 1];
      c := c + 1;
    }
    assert cks[..c] == cks;
    GridFieldsMembers(cks, maxLines, maxNums);
  }
}
