/**
 * The one-row-per-company wide report of src/wide_report.js: finance
 * records (one per JSONL line) are folded into a table keyed by
 * organisation number. The first record of a company creates its row; later
 * records only fill cells that are still blank. Each row carries the
 * Kreditinstitut grid of `buildStructuredLineColumns` (10 line slots of 10
 * values), of which the CSV header shows the first 2 slots and 2 values.
 */
module WideReport {
  import opened Wrappers
  import opened Strs
  import opened Lists
  import opened Sorting
  import opened Reporting
  import opened LineColumns
  import Money
  import PostProcess

  /** A parsed finance record; an absent array is `None`, an absent text "". */
  datatype Record = Record(
    org: string,
    name: string,
    email: string,
    phone: string,
    lenderKeywords: Option<seq<string>>,
    lenderKeywordLines: Option<seq<LineItem>>,
    skulderLines: Option<seq<LineItem>>)

  /** One CSV row. */
  datatype WideRow = WideRow(
    orgNr: string,
    name: string,
    email: string,
    phone: string,
    keywords: string,
    keywordLines: string,
    skulderLines: string,
    grid: map<Field, string>)

  // ---------------------------------------------------------------------------
  // Cells of one record

  /** `obj.name || "Unknown"`. */
  function NameOf(rec: Record): (r: string)
    ensures r != ""
    ensures rec.name != "" ==> r == rec.name
  {
    if rec.name == "" then "Unknown" else rec.name
  }

  /** `Array.from(new Set(xs)).sort(...)`. */
  function SortedSet(xs: seq<string>, le: (string, string) -> bool): seq<string> {
    SortBy(Unique(xs), le)
  }

  /** A deduplicated, sorted copy that keeps every element. */
  lemma SortedSetFacts(xs: seq<string>, le: (string, string) -> bool)
    requires TotalPreorder(le)
    ensures SortedBy(SortedSet(xs, le), le)
    ensures |SortedSet(xs, le)| == |Unique(xs)| <= |xs|
    ensures forall x :: x in SortedSet(xs, le) <==> x in xs
  {
    UniqueFacts(xs);
    SortBySorted(Unique(xs), le);
    SortByMembers(Unique(xs), le);
  }

  /** The Pdf_Lender_Keywords cell: the record's own keyword list when it is
      non-empty, else the keywords the PDF scan found for the company, each
      deduplicated, sorted and joined with ";". */
  function KeywordsCell(rec: Record, pdfKeywords: map<string, seq<string>>, le: (string, string) -> bool): string {
    if rec.lenderKeywords.Some? && rec.lenderKeywords.value != [] then
      Join(";", SortedSet(rec.lenderKeywords.value, le))
    else if rec.org in pdfKeywords && pdfKeywords[rec.org] != [] then
      Join(";", SortedSet(pdfKeywords[rec.org], le))
    else ""
  }

  /** The keywords joined into the cell come from the record when it has
      any, and from the PDF scan only otherwise; the cell is blank when
      neither has any, and not blank when the chosen list has a non-blank
      keyword. */
  lemma KeywordsCellFacts(rec: Record, pdfKeywords: map<string, seq<string>>, le: (string, string) -> bool)
    requires TotalPreorder(le)
    ensures var own := rec.lenderKeywords.Some? && rec.lenderKeywords.value != [];
      var scanned := rec.org in pdfKeywords && pdfKeywords[rec.org] != [];
      && (!own && !scanned ==> KeywordsCell(rec, pdfKeywords, le) == "")
      && (own && (exists x | x in rec.lenderKeywords.value :: x != "") ==> KeywordsCell(rec, pdfKeywords, le) != "")
      && (!own && scanned && (exists x | x in pdfKeywords[rec.org] :: x != "") ==> KeywordsCell(rec, pdfKeywords, le) != "")
      && (own ==> exists parts ::
            && KeywordsCell(rec, pdfKeywords, le) == Join(";", parts)
            && SortedBy(parts, le)
            && (forall x :: x in parts <==> x in rec.lenderKeywords.value))
      && (!own && scanned ==> exists parts ::
            && KeywordsCell(rec, pdfKeywords, le) == Join(";", parts)
            && SortedBy(parts, le)
            && (forall x :: x in parts <==> x in pdfKeywords[rec.org]))
  {
    if rec.lenderKeywords.Some? && rec.lenderKeywords.value != [] {
      var xs := rec.lenderKeywords.value;
      SortedSetFacts(xs, le);
      if x :| x in xs && x != "" {
        JoinNonEmpty(";", SortedSet(xs, le), x);
      }
    } else if rec.org in pdfKeywords && pdfKeywords[rec.org] != [] {
      var xs := pdfKeywords[rec.org];
      SortedSetFacts(xs, le);
      if x :| x in xs && x != "" {
        JoinNonEmpty(";", SortedSet(xs, le), x);
      }
    }
  }

  /** A join with a non-blank part is not blank. */
  lemma JoinNonEmpty(sep: string, parts: seq<string>, x: string)
    requires x in parts && x != ""
    ensures Join(sep, parts) != ""
  {
    if |parts| > 1 {
      assert |Join(sep, parts)| >= |parts[0]| + |sep|;
      if parts[0] == x {
        assert |parts[0]| > 0;
      } else {
        assert x in parts[1..];
        JoinNonEmpty(sep, parts[1..], x);
      }
    }
  }

  /** A line as the report prints it: a string as is, an object as
      "key: line" (the separator even when the key is blank). */
  function RenderItem(it: LineItem): string {
    match it
    case Text(s) => s
    case Keyed(h) => h.key + ": " + h.line
  }

  /** The rendered lines that are not blank, in order. */
  function RenderedParts(items: seq<LineItem>): seq<string> {
    KeepIf(MapEach(items, RenderItem), NonEmpty)
  }

  /** `.map(render).filter(Boolean).join(" || ")`. */
  function RenderLines(items: seq<LineItem>): string {
    Join(" || ", RenderedParts(items))
  }

  /** Only blank strings are dropped: every object line and every non-blank
      string appears, in the order of the items. */
  lemma RenderedPartsFacts(items: seq<LineItem>)
    ensures forall p | p in RenderedParts(items) :: p != ""
    ensures forall p :: p in RenderedParts(items) <==> p != "" && exists it | it in items :: RenderItem(it) == p
    ensures forall h | Keyed(h) in items :: h.key + ": " + h.line in RenderedParts(items)
    ensures IsSubseqOf(RenderedParts(items), MapEach(items, RenderItem))
  {
    var rendered := MapEach(items, RenderItem);
    KeepIfFacts(rendered, NonEmpty);
    Lists.SubseqMembers(RenderedParts(items), rendered);
    forall p ensures p in rendered <==> exists it | it in items :: RenderItem(it) == p {
      if p in rendered {
        var j :| 0 <= j < |rendered| && rendered[j] == p;
        MapEachAt(items, RenderItem, j);
        assert items[j] in items;
      }
      if it :| it in items && RenderItem(it) == p {
        var j :| 0 <= j < |items| && items[j] == it;
        MapEachAt(items, RenderItem, j);
        assert rendered[j] == p;
      }
    }
    forall h | Keyed(h) in items ensures h.key + ": " + h.line in RenderedParts(items) {
      assert RenderItem(Keyed(h)) == h.key + ": " + h.line;
      assert (h.key + ": " + h.line)[|h.key|] == ':';
    }
  }

  /** The Pdf_Lender_Keyword_Lines cell. */
  function KeywordLinesCell(rec: Record): string {
    if rec.lenderKeywordLines.Some? then RenderLines(rec.lenderKeywordLines.value) else ""
  }

  /** The debt filter of the report: a keyed line whose key is
      "kreditinstitut" and whose line mentions "skuld"; strings never pass. */
  predicate IsSkuldItem(it: LineItem) {
    it.Keyed? && PostProcess.KreditSkuld(it.hit.key, it.hit.line)
  }

  /** The debt lines of a record: its own list when it has one, else the
      filtered keyword lines, else none. */
  function SkulderSource(rec: Record): Option<seq<LineItem>> {
    if rec.skulderLines.Some? then rec.skulderLines
    else if rec.lenderKeywordLines.Some? then Some(KeepIf(rec.lenderKeywordLines.value, IsSkuldItem))
    else None
  }

  /** Without a list of its own, a record's debt lines are exactly its
      keyword lines that pass the filter, in order. */
  lemma SkulderSourceFacts(rec: Record)
    ensures rec.skulderLines.Some? ==> SkulderSource(rec) == rec.skulderLines
    ensures rec.skulderLines.None? && rec.lenderKeywordLines.Some? ==>
      && SkulderSource(rec).Some?
      && IsSubseqOf(SkulderSource(rec).value, rec.lenderKeywordLines.value)
      && forall it | it in rec.lenderKeywordLines.value :: it in SkulderSource(rec).value <==> IsSkuldItem(it)
    ensures SkulderSource(rec).None? <==> rec.skulderLines.None? && rec.lenderKeywordLines.None?
  {
    if rec.skulderLines.None? && rec.lenderKeywordLines.Some? {
      KeepIfFacts(rec.lenderKeywordLines.value, IsSkuldItem);
    }
  }

  /** The Kreditinstitut_Skulder_Lines cell. */
  function SkulderCell(rec: Record): string {
    match SkulderSource(rec)
    case Some(items) => RenderLines(items)
    case None => ""
  }

  /** The keyword whose lines get a grid of columns. */
  const GridKeyword := "Kreditinstitut"

  /** `[canonicalKey(keyword)].filter(Boolean)`. */
  function StructuredKeys(keyword: string): seq<string> {
    KeepIf([CanonicalKey(keyword)], NonEmpty)
  }

  function LinesOrEmpty(rec: Record): seq<LineItem> {
    if rec.lenderKeywordLines.Some? then rec.lenderKeywordLines.value else []
  }

  /** The Kreditinstitut grid of a record (10 slots of 10 values, no
      separator stripping). */
  function GridOf(rec: Record, keys: seq<string>): map<Field, string> {
    StructuredColumns(LinesOrEmpty(rec), keys, 10, 10, false)
  }

  // ---------------------------------------------------------------------------
  // Rows

  /** The row the first record of a company creates. */
  function NewRow(rec: Record, kw: string, grid: map<Field, string>): WideRow {
    WideRow(rec.org, NameOf(rec), rec.email, rec.phone, kw, KeywordLinesCell(rec), SkulderCell(rec), grid)
  }

  /** `if (!r[k] && v) r[k] = v` over the entries of `h`. */
  function FillBlanks(g: map<Field, string>, h: map<Field, string>): map<Field, string> {
    map k | k in g.Keys + (set k | k in h && h[k] != "") ::
      if k in h && h[k] != "" && (k !in g || g[k] == "") then h[k] else g[k]
  }

  /** Filling never overwrites a non-blank cell, fills every blank one the
      new grid has a value for, and adds no cell the new grid leaves blank. */
  lemma FillBlanksFacts(g: map<Field, string>, h: map<Field, string>)
    ensures forall k :: k in FillBlanks(g, h) <==> k in g || (k in h && h[k] != "")
    ensures forall k | k in g && g[k] != "" :: FillBlanks(g, h)[k] == g[k]
    ensures forall k | k in h && h[k] != "" && (k !in g || g[k] == "") :: FillBlanks(g, h)[k] == h[k]
    ensures forall k | k in g && (k !in h || h[k] == "") :: FillBlanks(g, h)[k] == g[k]
  {
  }

  /** Filling twice from the same grid changes nothing more. */
  lemma FillBlanksIdempotent(g: map<Field, string>, h: map<Field, string>)
    ensures FillBlanks(FillBlanks(g, h), h) == FillBlanks(g, h)
  {
    var once := FillBlanks(g, h);
    var twice := FillBlanks(once, h);
    FillBlanksFacts(g, h);
    FillBlanksFacts(once, h);
    assert twice.Keys == once.Keys;
    forall k | k in once ensures twice[k] == once[k] {
      if k in h && h[k] != "" && (k !in g || g[k] == "") {
        assert once[k] == h[k];
      }
    }
  }

  /** A grid filled from itself is unchanged. */
  lemma FillBlanksSelf(g: map<Field, string>)
    ensures FillBlanks(g, g) == g
  {
    FillBlanksFacts(g, g);
    assert FillBlanks(g, g).Keys == g.Keys;
  }

  /** A later record of a known company: the name is replaced while it is
      blank or "Unknown"; every other text cell and every grid cell is only
      filled while blank. */
  function MergeRow(r: WideRow, rec: Record, kw: string, grid: map<Field, string>): WideRow {
    WideRow(
      r.orgNr,
      if r.name == "" || r.name == "Unknown" then NameOf(rec) else r.name,
      if r.email == "" && rec.email != "" then rec.email else r.email,
      if r.phone == "" && rec.phone != "" then rec.phone else r.phone,
      if r.keywords == "" && kw != "" then kw else r.keywords,
      if r.keywordLines == "" && rec.lenderKeywordLines.Some? then KeywordLinesCell(rec) else r.keywordLines,
      if r.skulderLines == "" && SkulderSource(rec).Some? then SkulderCell(rec) else r.skulderLines,
      FillBlanks(r.grid, grid))
  }

  /** What the first non-blank value of a cell was stays: a merge changes a
      text cell only while it is blank (the name also while "Unknown"). */
  lemma MergeRowKeeps(r: WideRow, rec: Record, kw: string, grid: map<Field, string>)
    requires r.name != ""
    ensures var m := MergeRow(r, rec, kw, grid);
      && m.orgNr == r.orgNr
      && (r.name != "" && r.name != "Unknown" ==> m.name == r.name)
      && (r.email != "" ==> m.email == r.email)
      && (r.phone != "" ==> m.phone == r.phone)
      && (r.keywords != "" ==> m.keywords == r.keywords)
      && (r.keywordLines != "" ==> m.keywordLines == r.keywordLines)
      && (r.skulderLines != "" ==> m.skulderLines == r.skulderLines)
      && (forall k | k in r.grid && r.grid[k] != "" :: m.grid[k] == r.grid[k])
      && m.name != ""
  {
    FillBlanksFacts(r.grid, grid);
  }

  /** The row for a record given the company's current row, if any. */
  function RowAfter(existing: Option<WideRow>, rec: Record, pdfKeywords: map<string, seq<string>>, le: (string, string) -> bool, keys: seq<string>): WideRow {
    var kw := KeywordsCell(rec, pdfKeywords, le);
    match existing
    case None => NewRow(rec, kw, GridOf(rec, keys))
    case Some(r) => MergeRow(r, rec, kw, GridOf(rec, keys))
  }

  /** Feeding the same record twice leaves the row as feeding it once. */
  lemma RowAfterIdempotent(existing: Option<WideRow>, rec: Record, pdfKeywords: map<string, seq<string>>, le: (string, string) -> bool, keys: seq<string>)
    ensures var once := RowAfter(existing, rec, pdfKeywords, le, keys);
      RowAfter(Some(once), rec, pdfKeywords, le, keys) == once
  {
    var grid := GridOf(rec, keys);
    match existing
    case None =>
      FillBlanksSelf(grid);
    case Some(r) =>
      FillBlanksIdempotent(r.grid, grid);
  }

  /** The grid of every row has exactly the cells of the Kreditinstitut
      grid. */
  ghost predicate GridShaped(g: map<Field, string>, keys: seq<string>) {
    forall f :: f in g <==> InGrid(f, CanonicalKeys(keys), 10, 10)
  }

  lemma GridOfShaped(rec: Record, keys: seq<string>)
    ensures GridShaped(GridOf(rec, keys), keys)
  {
    StructuredColumnsDomain(LinesOrEmpty(rec), keys, 10, 10, false);
  }

  /** Merging keeps the grid's shape. */
  lemma RowAfterShaped(existing: Option<WideRow>, rec: Record, pdfKeywords: map<string, seq<string>>, le: (string, string) -> bool, keys: seq<string>)
    requires existing.Some? ==> GridShaped(existing.value.grid, keys)
    ensures GridShaped(RowAfter(existing, rec, pdfKeywords, le, keys).grid, keys)
  {
    GridOfShaped(rec, keys);
    if existing.Some? {
      FillBlanksFacts(existing.value.grid, GridOf(rec, keys));
    }
  }

  // ---------------------------------------------------------------------------
  // The table

  function CurrentRow(rows: map<string, WideRow>, org: string): Option<WideRow> {
    if org in rows then Some(rows[org]) else None
  }

  /** The rows are keyed by their own non-blank organisation number, listed
      once each in `order`, named, and carry the full grid. */
  ghost predicate TableValid(rows: map<string, WideRow>, order: seq<string>, keys: seq<string>) {
    && Distinct(order)
    && (forall o :: o in rows <==> o in order)
    && (forall o | o in rows :: o != "" && rows[o].orgNr == o && rows[o].name != "" && GridShaped(rows[o].grid, keys))
  }

  /** The row a record leaves behind is keyed by the record's number, named
      and carries the full grid, when the row it found was. */
  lemma RowAfterKeyed(existing: Option<WideRow>, rec: Record, pdfKeywords: map<string, seq<string>>, le: (string, string) -> bool, keys: seq<string>)
    requires existing.Some? ==> existing.value.orgNr == rec.org && existing.value.name != "" && GridShaped(existing.value.grid, keys)
    ensures var row := RowAfter(existing, rec, pdfKeywords, le, keys);
      row.orgNr == rec.org && row.name != "" && GridShaped(row.grid, keys)
  {
    RowAfterShaped(existing, rec, pdfKeywords, le, keys);
    if existing.Some? {
      MergeRowKeeps(existing.value, rec, KeywordsCell(rec, pdfKeywords, le), GridOf(rec, keys));
    }
  }

  /** Storing a well-formed row under its own number keeps the table valid,
      the number joining the order when it is new. */
  lemma PutKeepsValid(rows: map<string, WideRow>, order: seq<string>, keys: seq<string>, org: string, row: WideRow)
    requires TableValid(rows, order, keys)
    requires org != "" && row.orgNr == org && row.name != "" && GridShaped(row.grid, keys)
    ensures TableValid(rows[org := row], order + (if org in rows then [] else [org]), keys)
  {
    if org !in rows {
      DistinctAppend(order, [org]);
    }
  }

  /** Adding a record of a company with a number keeps the table valid. */
  lemma AddKeepsValid(rows: map<string, WideRow>, order: seq<string>, keys: seq<string>,
                      rec: Record, pdfKeywords: map<string, seq<string>>, le: (string, string) -> bool)
    requires TableValid(rows, order, keys)
    requires rec.org != ""
    ensures TableValid(rows[rec.org := RowAfter(CurrentRow(rows, rec.org), rec, pdfKeywords, le, keys)],
                       order + (if rec.org in rows then [] else [rec.org]), keys)
  {
    var existing := CurrentRow(rows, rec.org);
    RowAfterKeyed(existing, rec, pdfKeywords, le, keys);
    PutKeepsValid(rows, order, keys, rec.org, RowAfter(existing, rec, pdfKeywords, le, keys));
  }

  /** `rowsByOrg`: the rows by organisation number, and the order in which
      the companies were first seen (the CSV row order). */
  class WideTable {
    var rows: map<string, WideRow>
    var order: seq<string>
    /** `structuredKeysCanonical`: the keywords that get a grid. */
    var gridKeys: seq<string>

    ghost predicate Valid()
      reads this
    {
      TableValid(rows, order, gridKeys)
    }

    constructor()
      ensures Valid()
      ensures rows == map[] && order == []
      ensures gridKeys == StructuredKeys(GridKeyword)
    {
      rows := map[];
      order := [];
      gridKeys := StructuredKeys(GridKeyword);
    }

    /** One record of the JSONL loop: skipped without an organisation number;
        otherwise it creates the company's row or fills the blanks of it. */
    method AddRecord(rec: Record, pdfKeywords: map<string, seq<string>>, le: (string, string) -> bool)
      requires Valid()
      modifies this
      ensures Valid()
      ensures gridKeys == old(gridKeys)
      ensures rec.org == "" ==> rows == old(rows) && order == old(order)
      ensures rec.org != "" ==> rows == old(rows)[rec.org := RowAfter(CurrentRow(old(rows), rec.org), rec, pdfKeywords, le, gridKeys)]
      ensures rec.org != "" ==> order == old(order) + (if rec.org in old(rows) then [] else [rec.org])
    {
      if rec.org == "" {
        return;
      }
      AddKeepsValid(rows, order, gridKeys, rec, pdfKeywords, le);
      var kw := KeywordsCell(rec, pdfKeywords, le);
      var grid := BuildStructuredLineColumns(LinesOrEmpty(rec), gridKeys, 10, 10, false);
      var row: WideRow;
      if rec.org !in rows {
        row := NewRow(rec, kw, grid);
        order := order + [rec.org];
      } else {
        row := MergeInto(rows[rec.org], rec, kw, grid);
      }
      rows := rows[rec.org := row];
    }
  }

  /** The updates to a known company's row, field by field. */
  method MergeInto(r: WideRow, rec: Record, kw: string, grid: map<Field, string>) returns (m: WideRow)
    ensures m == MergeRow(r, rec, kw, grid)
  {
    var filled := FillGrid(r.grid, grid);
    var name, email, phone, keywords, keywordLines, skulderLines := r.name, r.email, r.phone, r.keywords, r.keywordLines, r.skulderLines;
    if name == "" || name == "Unknown" {
      name := NameOf(rec);
    }
    if email == "" && rec.email != "" {
      email := rec.email;
    }
    if phone == "" && rec.phone != "" {
      phone := rec.phone;
    }
    if keywords == "" && kw != "" {
      keywords := kw;
    }
    if keywordLines == "" && rec.lenderKeywordLines.Some? {
      keywordLines := KeywordLinesCell(rec);
    }
    if skulderLines == "" && (rec.skulderLines.Some? || rec.lenderKeywordLines.Some?) {
      skulderLines := SkulderCell(rec);
    }
    m := WideRow(r.orgNr, name, email, phone, keywords, keywordLines, skulderLines, filled);
  }

  /** The loop over the entries of a freshly built grid. */
  method FillGrid(g: map<Field, string>, h: map<Field, string>) returns (r: map<Field, string>)
    ensures r == FillBlanks(g, h)
  {
    r := g;
    var todo := h.Keys;
    ghost var done: set<Field> := {};
    while todo != {}
      invariant todo + done == h.Keys && todo !! done
      invariant forall k :: k in r <==> k in g || (k in done && h[k] != "")
      invariant forall k | k in r :: r[k] == if k in done && h[k] != "" && (k !in g || g[k] == "") then h[k] else g[k]
      decreases todo
    {
      var k :| k in todo;
      if (k !in r || r[k] == "") && h[k] != "" {
        r := r[k := h[k]];
      }
      todo := todo - {k};
      done := done + {k};
    }
  }

  // ---------------------------------------------------------------------------
  // The CSV header

  datatype Column = Column(id: string, title: string)

  /** `${ck}_L${i + 1}`, then `_Idx` or `_N${n + 1}`. */
  function ShortName(f: Field): string {
    f.ck + "_L" + Money.Dec(f.i + 1)
      + match f
        case Line(_, _) => ""
        case Idx(_, _) => "_Idx"
        case Num(_, _, n) => "_N" + Money.Dec(n + 1)
  }

  function GridColumn(f: Field): Column {
    Column(FieldName("Pdf_Lender", f), ShortName(f))
  }

  function FixedColumns(): seq<Column> {
    [Column("OrgNr", "OrgNr"), Column("Name", "Name"), Column("Email", "Email"), Column("Phone", "Phone"),
     Column("Pdf_Lender_Keywords", "Pdf_Lender_Keywords"),
     Column("Pdf_Lender_Keyword_Lines", "Pdf_Lender_Keyword_Lines"),
     Column("Kreditinstitut_Skulder_Lines", "Kreditinstitut_Skulder_Lines")]
  }

  /** `addKey`: appends the 2 slots of keyword `ck`, each its line, its
      index and 2 values; `done` are the fields of the columns so far. */
  method AddKeyColumns(cols0: seq<Column>, ghost done0: seq<Field>, ck: string)
    returns (cols: seq<Column>, ghost done: seq<Field>)
    requires MapsTo(cols0, done0, GridColumn)
    ensures done == done0 + KeyFields(ck, 2, 2)
    ensures MapsTo(cols, done, GridColumn)
  {
    cols, done := cols0, done0;
    var i := 0;
    while i < 2
      invariant i <= 2
      invariant done == done0 + KeyFields(ck, i, 2)
      invariant MapsTo(cols, done, GridColumn)
    {
      ghost var slotStart := done;
      MapsToSnoc(cols, done, GridColumn, Line(ck, i));
      cols, done := cols + [GridColumn(Line(ck, i))], done + [Line(ck, i)];
      MapsToSnoc(cols, done, GridColumn, Idx(ck, i));
      cols, done := cols + [GridColumn(Idx(ck, i))], done + [Idx(ck, i)];
      var n := 0;
      while n < 2
        invariant n <= 2
        invariant done == slotStart + ([Line(ck, i), Idx(ck, i)] + NumFields(ck, i, n))
        invariant MapsTo(cols, done, GridColumn)
      {
        MapsToSnoc(cols, done, GridColumn, Num(ck, i, n));
        cols, done := cols + [GridColumn(Num(ck, i, n))], done + [Num(ck, i, n)];
        n := n + 1;
      }
      i := i + 1;
    }
  }

  /** The header: the fixed columns, then 2 slots of 2 values per key. */
  method BuildHeader(cks: seq<string>) returns (hdr: seq<Column>)
    ensures hdr == FixedColumns() + MapEach(GridFields(cks, 2, 2), GridColumn)
  {
    var cols: seq<Column> := [];
    ghost var done: seq<Field> := [];
    var c := 0;
    while c < |cks|
      invariant c <= |cks|
      invariant done == GridFields(cks[..c], 2, 2)
      invariant MapsTo(cols, done, GridColumn)
    {
      assert cks[..c + 1][..c] == cks[..c];
      cols, done := AddKeyColumns(cols, done, cks[c]);
      c := c + 1;
    }
    assert cks[..c] == cks;
    MapsToIsMapEach(cols, done, GridColumn);
    hdr := FixedColumns() + cols;
  }

  /** The header has the 7 fixed columns and 8 grid columns per keyword
      (2 slots, each a line, an index and 2 values). */
  lemma HeaderWidth(cks: seq<string>)
    ensures |FixedColumns() + MapEach(GridFields(cks, 2, 2), GridColumn)| == 7 + |cks| * 8
  {
    var fs := GridFields(cks, 2, 2);
    GridFieldsCount(cks, 2, 2);
    assert |fs| == |cks| * 8;
  }

  /** The grid columns of the header have distinct ids. */
  lemma HeaderIdsDistinct(cks: seq<string>)
    requires Distinct(cks)
    requires forall ck | ck in cks :: '_' !in ck
    ensures var cols := MapEach(GridFields(cks, 2, 2), GridColumn);
      forall j, k | 0 <= j < k < |cols| :: cols[j].id != cols[k].id
  {
    var fs := GridFields(cks, 2, 2);
    var cols := MapEach(fs, GridColumn);
    assert Distinct(fs) by { GridFieldsFacts(cks, 2, 2); }
    GridFieldsMembers(cks, 2, 2);
    forall j, k | 0 <= j < k < |cols| ensures cols[j].id != cols[k].id {
      MapEachAt(fs, GridColumn, j);
      MapEachAt(fs, GridColumn, k);
      assert fs[j] in fs && fs[k] in fs;
      if cols[j].id == cols[k].id {
        FieldNameInjective("Pdf_Lender", fs[j], fs[k]);
      }
    }
  }

  /** Every grid column of the header names a cell of 2 slots of 2 values. */
  lemma HeaderColumnsOfGrid(cks: seq<string>)
    ensures forall col | col in MapEach(GridFields(cks, 2, 2), GridColumn) ::
      exists f | InGrid(f, cks, 2, 2) :: col == GridColumn(f)
  {
    var fs := GridFields(cks, 2, 2);
    var cols := MapEach(fs, GridColumn);
    GridFieldsMembers(cks, 2, 2);
    forall col | col in cols ensures exists f | InGrid(f, cks, 2, 2) :: col == GridColumn(f) {
      var j :| 0 <= j < |cols| && cols[j] == col;
      MapEachAt(fs, GridColumn, j);
      assert fs[j] in fs;
    }
  }

  lemma StructuredKeysCanonical(keyword: string)
    ensures Distinct(StructuredKeys(keyword))
    ensures forall ck | ck in StructuredKeys(keyword) :: '_' !in ck && ck in CanonicalKeys(StructuredKeys(keyword))
  {
    var k := CanonicalKey(keyword);
    assert [k][..0] == [];
    assert StructuredKeys(keyword) == if k != "" then [k] else [];
    if k != "" {
      CanonicalNoUnderscore(keyword);
      assert CanonicalKey(k) == k by { CanonicalKeyFacts(keyword); }
      assert MapEach([k], CanonicalKey) == [k] by { assert [k][..0] == []; }
      assert KeepIf([k], NonEmpty) == [k];
      assert Unique([k]) == [k] by { assert [k][..0] == []; }
    }
  }

  /** Every grid column of the report's header names a cell that every row's
      grid has: the header shows a corner of each row's grid. */
  lemma HeaderNamesRowCells(g: map<Field, string>, keyword: string)
    requires GridShaped(g, StructuredKeys(keyword))
    ensures forall col | col in MapEach(GridFields(StructuredKeys(keyword), 2, 2), GridColumn) ::
      exists f | f in g :: col.id == FieldName("Pdf_Lender", f)
  {
    var keys := StructuredKeys(keyword);
    StructuredKeysCanonical(keyword);
    HeaderColumnsOfGrid(keys);
    forall col | col in MapEach(GridFields(keys, 2, 2), GridColumn)
      ensures exists f | f in g :: col.id == FieldName("Pdf_Lender", f)
    {
      var f :| InGrid(f, keys, 2, 2) && col == GridColumn(f);
      assert InGrid(f, CanonicalKeys(keys), 10, 10);
    }
  }
}
