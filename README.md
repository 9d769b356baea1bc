# hittascraper core, modelled in Dafny

hittascraper collects Swedish company data from hitta.se and from the annual
report PDFs it downloads. This project models and proves the core that turns
text into report rows:

- **Finding the numbers in a line of an annual report.** Grouped thousands
  such as `"4 990 429 295 000"` are split into separate values
  (`splitGroupedNumberRun`). The split is a dynamic program over the
  whitespace-separated tokens. Three copies of it exist:
  `src/pdfXYExtract.js`, `scripts/backfill_matched_lines.js`, and
  `src/scraper.js`, whose copy adds footnote repairs and a fixed 3+2 split.
  All three copies share the pair repair. One function models all three,
  with a `repairs` flag for the scraper copy.
- **Extracting from the laid-out PDF text** (`src/pdfXYExtract.js`): text items
  become tokens, tokens are clustered into rows, numbers are read by column
  position, and matched rows are selected under per-key and total quotas.
- **Extracting from the plain text** (`src/scraper.js`): text is split into
  lines, keyword matchers are applied to each line, and hits are deduplicated
  and capped. The XY hits are then blended with the text hits. Each hit is
  normalised: its values are repaired and the numbers are stripped from its
  label. Hits that differ only by a doubled first digit are reduced to one.
- **The keyword scan of PDF files** (`src/pdfKeywordScan.js`).
- **Money, year and label parsing** (`src/utils.js`).
- **The report side** (`src/processor.js`, `src/wide_report.js`):
  - canonical keys;
  - numeric tokens;
  - the structured `Pdf_Lender_*` columns;
  - keyword and line cells;
  - `upsertBest` / `pickLatestNonNull`;
  - the wide table, which merges records per organisation, and its header.

Pure code is modelled as functions with lemmas. Code that updates state step
by step is modelled as methods with loops, each proved to return what a pure
function of its inputs returns:

- the dynamic program works in place on an `array`;
- `upsertBest` is a class over a map;
- the wide table is a class with `rows`, `order` and `gridKeys` fields.

Properties are proved about those functions: round trips, digit
preservation, minimality of the split, quotas, deduplication, partitioning, and
the validity of the wide table.

Some costs in the dynamic program are fractions. They are multiplied by 20 so
that they are exact integers: 1.2 becomes 24, 0.1 becomes 2, 0.6 becomes 12,
0.15 becomes 3, 4 becomes 80 and 2 becomes 40. Scaling by a positive constant
changes no comparison between costs.

## Where the code and its description disagree

The model follows the code in each case.

- **Row clustering.** `clusterRows` (src/pdfXYExtract.js:161-162) sets a
  row's y to `(row.y + t.y) / 2` whenever a token joins the row. This is not a
  running mean of the row's tokens. `Layout.Bands` does the same.
- **Only the scraper copy splits a run 3+2.** With two preferred values, only
  the src/scraper.js copy of the split turns `"4 990 429 295 000"` into
  `["4 990 429", "295 000"]` (`SegmenterExamples.ScraperSplitsThreeTwo`). The
  copies in src/pdfXYExtract.js and scripts/backfill_matched_lines.js give
  `["4 990", "429 295 000"]`: both splits cost 5, and the first one found
  wins (`SegmenterExamples.PlainSplitsTwoThree`).
- **Only the footnote repairs and the 3+2 split are specific to src/scraper.js.**
  The pair repair (`"9 1330"` to `["9133", "0"]`) is in all three copies
  (src/pdfXYExtract.js:44-52, scripts/backfill_matched_lines.js:27-36).
- **The duplicated-digit repair can rewrite a genuine value.** In src/scraper.js
  the repair (539-550) rewrites a genuine `"22 875 000"` into `"2 875 000"`
  when two values are expected
  (`SegmenterExamples.DuplicatedDigitRepairRewritesRealValue`). With one
  expected value the run is kept (`SegmenterExamples.OneValueKept`).
- **Blending a list with itself is not the identity.** `blendXyAndTextLines`
  regroups the hits by key, in order of first appearance (`Blend.BlendSelf`,
  `Blend.BlendSelfReorders`).
- **The two pipelines deduplicate differently.**
  - The text pipeline (`extractMatchedLines`) deduplicates on `key|line` and
    attaches no values. Values and label stripping come later, in
    `normalizeMatched`.
  - The XY pipeline deduplicates on `key|line|values`.
  - A matcher without a regular expression matches every line in the text
    pipeline, and no row in the XY pipeline.

## Model

| member | source | states |
|---|---|---|
| Strs.NormalizeText | src/pdfXYExtract.js:1-7 | the result has no whitespace but single spaces, none at either end, and is no longer than the input |
| Strs.NormalizeTextIdempotent | src/pdfXYExtract.js:1-7 | normalising twice is normalising once |
| Strs.NormalizedFixpoint | src/utils.js:6-8 | an already normalised text is returned unchanged |
| Strs.NormalizeKeepsNonWs | src/pdfXYExtract.js:1-7 | normalising keeps every non-whitespace character, in order |
| Strs.DigitsOfNormalized | src/pdfXYExtract.js:1-7 | normalising keeps the digit sequence |
| Strs.SpaceOutWs | src/pdfXYExtract.js:3-5 | each whitespace character becomes a space and every other character is kept |
| Strs.SqueezeSpaces | src/pdfXYExtract.js:3-5 | no two spaces remain adjacent; the first and last characters are kept |
| Strs.SqueezeKeepsNonWs | src/pdfXYExtract.js:3-5 | squeezing drops only spaces |
| Strs.SqueezeNoop | src/pdfXYExtract.js:3-5 | a text without double spaces is unchanged |
| Strs.Trim | src/pdfXYExtract.js:6 | the result neither starts nor ends with whitespace and keeps the single-space shape |
| Strs.TrimKeepsNonWs | src/pdfXYExtract.js:6 | trimming removes only whitespace |
| Strs.TrimNoop | src/pdfXYExtract.js:6 | a text without whitespace at either end is unchanged |
| Strs.TrimTwice | src/pdfXYExtract.js:6 | trimming is idempotent |
| Strs.Words | src/pdfXYExtract.js:24-25 | splitting on spaces and dropping empty pieces gives non-empty words without spaces |
| Strs.JoinWords | src/pdfXYExtract.js:24-25 | for a normalised text, joining its words with single spaces gives back the text |
| Strs.WordsOfJoin | src/pdfXYExtract.js:24-25 | splitting a space-join of space-free non-empty words gives back the words |
| Strs.JoinIsNormalized | src/pdfXYExtract.js:24-25 | a space-join of words is a normalised text |
| Strs.DigitsOfJoin | src/pdfXYExtract.js:24-25 | joining with spaces keeps the digits of the pieces |
| Strs.Lower | src/utils.js:28 | each character is replaced by its lower-case form |
| Strs.LowerMatches | src/utils.js:28 | lower-casing a text does not change where a pattern occurs in it, case ignored |
| Strs.LowerIdempotent | src/utils.js:28 | lower-casing twice is lower-casing once |
| Lists.UniqueFacts | src/scraper.js:1071 | `[...new Set(xs)]` keeps each element once, drops no element, and keeps first-seen order: an earlier element occurs in the input before the first occurrence of a later one |
| Sorting.SortBy | src/pdfXYExtract.js:137 | sorting is a permutation of its input |
| Sorting.SortBySorted | src/pdfXYExtract.js:137 | under a total preorder the result is sorted |
| Sorting.InsertSorted | src/pdfXYExtract.js:137 | inserting into a sorted list keeps it sorted |
| Sorting.SortReals | src/pdfXYExtract.js:142-143 | the sorted heights are a permutation of the input, in ascending order |
| Lexer.LooksNumericToken | src/pdfXYExtract.js:9-14 | a token looks numeric exactly when its normalised text is an optional sign, a digit, then digits, spaces, dots, commas, colons or hyphens; such a token has a digit |
| Lexer.SepsAt | src/pdfXYExtract.js:16-20 | a position becomes a space exactly when it is a dot or comma followed by exactly three digits; any other position keeps its character |
| Lexer.CleanKeepsDigits | src/pdfXYExtract.js:16-20 | cleaning a number text never loses, invents or reorders a digit |
| Lexer.HasDigitIffDigits | src/pdfXYExtract.js:12 | a text has a digit exactly when its digit sequence is non-empty |
| Lexer.CollapseDoubled | src/scraper.js:678-680 | the text is kept, or it is an even-length doubled text of at least 8 characters and the result is its trimmed first half |
| Lexer.CollapseTwice | src/pdfXYExtract.js:300-302 | a piece of at least four characters written twice collapses to the trimmed piece |
| Lexer.CollapseNormalized | scripts/backfill_matched_lines.js:128-130 | collapsing a normalised text keeps it normalised |
| Scanner.RunEnd | src/scraper.js:649 | a run extends over digits and spaces and stops at the first other character |
| Scanner.RunsShape | src/scraper.js:649-652 | each match of `[+-]?\d[\d ]*` is an optional sign, a digit, then digits and spaces |
| Scanner.RunsCoverDigits | src/pdfXYExtract.js:121-124 | together the matches hold every digit of the text, in order |
| Scanner.ReplaceRunsNoDigits | src/scraper.js:670 | replacing every match by a digit-free text leaves no digit |
| Scanner.Exec | src/scraper.js:649-652 | one search from a position: either no match remains, or it returns the next match and the remaining matches start after it |
| Segmenter.SignOf | src/pdfXYExtract.js:31-33 | the sign followed by the unsigned digits gives back the token |
| Segmenter.ExpandToken | src/pdfXYExtract.js:31-42 | expansion keeps the text; it splits into two non-empty pieces exactly when the token is a signed integer of 4 to 6 digits that is not a 20xx year |
| Segmenter.ExpandCut | src/pdfXYExtract.js:38-40 | the two pieces re-join to the token, are non-empty, carry the sign on the first piece, and cut the digits at the given position (3 for 4 or 6 digits, 2 for 5) |
| Segmenter.NonEmptyOnly | src/pdfXYExtract.js:56-60 | only non-empty pieces of the input are kept |
| Segmenter.WorkingConcat | src/pdfXYExtract.js:54-61 | the working tokens spell the same text as the original tokens |
| Segmenter.WorkingNoWs | src/pdfXYExtract.js:54-61 | working tokens contain no whitespace when the tokens do not |
| Segmenter.TailCost | src/pdfXYExtract.js:69-87 | the cost of a group is never negative |
| Segmenter.Relax | src/pdfXYExtract.js:97-112 | relaxing one group length changes only the cell it ends at, and only to a cheaper path |
| Segmenter.RelaxWF | src/pdfXYExtract.js:97-112 | relaxing keeps every cell a chain of groups whose cost is its path cost |
| Segmenter.RelaxSettles | src/pdfXYExtract.js:97-112 | after relaxing, the target cell is no more expensive than extending from the source |
| Segmenter.RelaxEachLenOrder | src/pdfXYExtract.js:97 | trying the lengths in the source's order is four single relaxations in sequence |
| Segmenter.InitTable | src/pdfXYExtract.js:89-92 | the table starts with cost 0 at position 0 and nothing elsewhere |
| Segmenter.DpWellFormed | src/pdfXYExtract.js:89-112 | every filled cell of the table is a chain of groups whose cost is its path cost |
| Segmenter.DpFilled | src/pdfXYExtract.js:89-112 | every position up to the one reached has a path |
| Segmenter.DpSettled | src/pdfXYExtract.js:89-112 | no group of one to four tokens from a finished position can improve the table |
| Segmenter.StepKeepsSettled | src/pdfXYExtract.js:89-112 | a step keeps earlier positions settled |
| Segmenter.Groups | src/pdfXYExtract.js:114-116 | the path becomes one value per group |
| Segmenter.RelaxInPlace | src/pdfXYExtract.js:97-112 | the in-place update of the array equals the functional relaxation |
| Segmenter.RelaxAll | src/pdfXYExtract.js:97-112 | the inner loop over lengths equals relaxing with the four lengths in order |
| Segmenter.RunDp | src/pdfXYExtract.js:89-113 | the array-based dynamic program ends with the last cell of `DpTable`, the table the minimality lemmas are about |
| Segmenter.PushNonEmpty | src/pdfXYExtract.js:56-60 | the pushed pieces are the non-empty ones, in order, after the existing tokens |
| Segmenter.BuildWorking | src/pdfXYExtract.js:54-61 | the loop builds exactly the working token list |
| Segmenter.SplitGroupedNumberRun | src/scraper.js:431-637 | the imperative split returns exactly `SplitRun`, about which the SegmenterFacts and SegmenterClean lemmas speak |
| SegmenterFacts.GroupsRejoin | src/pdfXYExtract.js:114-116 | the groups of a chain are 1 to 4 consecutive tokens and re-join to the tokens' text |
| SegmenterFacts.DpReachesEnd | src/pdfXYExtract.js:89-113 | the last cell always holds a non-empty chain covering all tokens, whose cost is its path cost |
| SegmenterFacts.ChainMinimal | src/pdfXYExtract.js:89-113 | a settled table is no more expensive than any chain of groups |
| SegmenterFacts.DpMinimalWithoutPreference | src/pdfXYExtract.js:89-113 | with no preferred count, each cell is the cheapest over all chains reaching it |
| SegmenterFacts.SplitMinimalWithoutPreference | src/pdfXYExtract.js:89-113 | with no preferred count, the chosen split costs no more than any other split into groups of 1 to 4 tokens |
| SegmenterFacts.SplitRejoinsWithoutPreference | src/pdfXYExtract.js:22-117 | with no preferred count, joining the values with spaces gives back the normalised run |
| SegmenterFacts.AssembleRejoins | src/pdfXYExtract.js:113-116 | the values of the last cell re-join to the working tokens |
| SegmenterFacts.WorkingWithoutPreference | src/pdfXYExtract.js:54-61 | with no preferred count, no token is expanded |
| SegmenterFacts.PairRepairKeepsDigits | src/pdfXYExtract.js:44-52 | the pair repair moves digits between the two tokens but never loses, invents or reorders one |
| SegmenterFacts.SplitKeepsDigits | scripts/backfill_matched_lines.js:5-93 | without the footnote repairs, the values hold the digits of the run, in order |
| SegmenterFacts.SmallTokenKept | src/pdfXYExtract.js:31-35 | a token of at most three digits is never expanded |
| SegmenterFacts.SmallGroupsReachDp | src/pdfXYExtract.js:63-67 | three or more tokens of at most three digits go straight to the dynamic program |
| SegmenterClean.GroupsClean | src/pdfXYExtract.js:114-116 | every group value is a non-empty normalised text |
| SegmenterClean.FootnoteClean | src/scraper.js:489-585 | every value produced by a footnote repair is a non-empty normalised text |
| SegmenterClean.PairClean | src/scraper.js:461-470 | every value produced by the pair repair is a non-empty normalised text |
| SegmenterClean.SplitClean | src/scraper.js:431-637 | every value of a split, in all three copies, is a non-empty normalised text |
| SegmenterExamples.PlainSplitsTwoThree | src/pdfXYExtract.js:22-117 | `"4 990 429 295 000"` with two preferred values splits as `["4 990", "429 295 000"]` |
| SegmenterExamples.ScraperSplitsThreeTwo | src/scraper.js:552-563 | the scraper copy splits the same run as `["4 990 429", "295 000"]` |
| SegmenterExamples.OneValueKept | src/scraper.js:605-636 | `"22 875 000"` with one preferred value stays one value |
| SegmenterExamples.DuplicatedDigitRepairRewritesRealValue | src/scraper.js:539-550 | `"22 875 000"` with two preferred values becomes `["2 875 000"]` in the scraper copy |
| SegmenterExamples.MergedFootnoteRepaired | src/scraper.js:525-537 | `"404 965 842"` becomes `["0", "4 965 842"]` |
| SegmenterExamples.DuplicatedNoteRepaired | src/scraper.js:502-512 | `"4 4 990 429"` becomes `["4 990 429"]` |
| SegmenterExamples.NoteBeforeZeroRepaired | src/scraper.js:565-583 | `"4 0 4 965 842"` becomes `["0", "4 965 842"]` |
| SegmenterExamples.PairRepaired | src/scraper.js:461-470 | `"9 1330"` becomes `["9133", "0"]` |
| SegmenterExamples.SingleTokenKept | src/pdfXYExtract.js:26 | a single token such as `"2023"` is returned whole |
| SegmenterExamples.Grouped5Table | src/pdfXYExtract.js:89-113 | the dynamic-program table of the five-group run, cell by cell |
| Numbers.MapDashes | src/scraper.js:643-646 | mapping dash variants keeps the length |
| Numbers.PrepKeepsDigits | src/scraper.js:643-646 | preparing a line keeps its digits |
| Numbers.TidyOfClean | src/scraper.js:656-659 | tidying values that are already clean leaves them unchanged |
| Numbers.RunValuesAreSplit | src/scraper.js:653-655 | the values of one match are exactly its split |
| Numbers.LineValuesClean | src/scraper.js:639-662 | every value taken from a line is a non-empty normalised text |
| Numbers.LineValuesKeepDigits | scripts/backfill_matched_lines.js:95-116 | without the footnote repairs, the values of a line hold every digit of the line, in order |
| Numbers.TextValuesKeepDigits | src/pdfXYExtract.js:119-134 | the values of a text hold every digit of the text, in order |
| Numbers.PushParts | src/scraper.js:656-659 | the push loop appends exactly the tidied parts |
| Numbers.CollectValues | src/scraper.js:649-660 | the search loop collects the values of every match, in order |
| Numbers.ExtractNumbersFromLine | src/scraper.js:639-662 | the imperative extraction returns exactly `NumbersFromLine` |
| Numbers.ExtractNumbersFromText | src/pdfXYExtract.js:119-134 | the imperative extraction returns exactly `NumbersFromText` |
| Numbers.DropTrailingPunct | src/scraper.js:674 | the result ends in none of the trailing punctuation characters |
| Numbers.StripLeavesLabel | src/scraper.js:664-681 | stripping numbers leaves a normalised label without digits |
| Numbers.TableValues | src/scraper.js:683-702 | no values give none; with no expected count, or enough values, each value is tidied; otherwise the cells are split and flattened, and the flattened list is used only when it has exactly the expected count |
| Numbers.NormalizeTableValues | src/scraper.js:683-702 | the imperative normalisation returns exactly `TableValues` |
| Numbers.FlattenCell | src/scraper.js:692-698 | one loop step flattens one more cell |
| Layout.OrdersArePreorders | src/pdfXYExtract.js:137 | the token and row orders are total preorders |
| Layout.PositiveHeights | src/pdfXYExtract.js:139-141 | only positive heights are kept |
| Layout.PositiveHeightsComplete | src/pdfXYExtract.js:139-141 | every positive height is kept |
| Layout.MedianHeight | src/pdfXYExtract.js:142-144 | the median is positive and is one of the heights when there are any |
| Layout.MedianSplitsHeights | src/pdfXYExtract.js:142-144 | at least half of the heights lie on each side of the median |
| Layout.Tolerance | src/pdfXYExtract.js:145 | the row tolerance lies between 2.5 and 10 and is 0.6 times the median inside those bounds |
| Layout.BestRow | src/pdfXYExtract.js:149-157 | a chosen row is within the tolerance of the token |
| Layout.BestRowFacts | src/pdfXYExtract.js:149-157 | the chosen row is the nearest within tolerance, the first on ties, and none is chosen exactly when no row is within tolerance |
| Layout.FindBestRow | src/pdfXYExtract.js:149-157 | the search loop returns exactly `BestRow` |
| Layout.Bands | src/pdfXYExtract.js:147-164 | there are never more rows than tokens |
| Layout.PlaceTokens | src/pdfXYExtract.js:147-164 | the placing loop builds exactly `Bands` |
| Layout.BandsKeepTokens | src/pdfXYExtract.js:147-164 | every token lands in exactly one row |
| Layout.ClusterRowsMethod | src/pdfXYExtract.js:136-172 | the imperative clustering returns exactly `ClusterRows` |
| Layout.FinishRows | src/pdfXYExtract.js:166-170 | the finishing loop finishes every row |
| Layout.FinishRow | src/pdfXYExtract.js:166-169 | one row is sorted by x and its text is set |
| Layout.SortKeepsTokens | src/pdfXYExtract.js:171 | sorting the rows keeps their tokens |
| Layout.ClusterKeepsTokens | src/pdfXYExtract.js:136-172 | the clustered rows hold exactly the input tokens, with multiplicity |
| Layout.ClusterShape | src/pdfXYExtract.js:136-172 | the rows are sorted top to bottom and each row's tokens are sorted left to right |
| Columns.NumericTokens | src/pdfXYExtract.js:175 | exactly the tokens that look numeric are kept |
| Columns.DirectCandidatesSound | src/pdfXYExtract.js:182-190 | each candidate is the value list of some numeric token |
| Columns.DirectCandidatesComplete | src/pdfXYExtract.js:182-190 | every token giving exactly the preferred count of values is a candidate |
| Columns.LongestIsMax | src/pdfXYExtract.js:187-190 | the chosen candidate has the greatest joined length |
| Columns.LongestIsFirst | src/pdfXYExtract.js:187-190 | the chosen candidate is the first of greatest length |
| Columns.Clusters | src/pdfXYExtract.js:197-207 | there are never more column clusters than centres, and at least one when there are centres |
| Columns.ClusterCenters | src/pdfXYExtract.js:197-207 | the clustering loop returns exactly `Clusters` |
| Columns.ClusterMeansExact | src/pdfXYExtract.js:197-207 | each cluster's mean is the exact mean of its members, and the members partition the centres in order |
| Columns.AnchorCount | src/pdfXYExtract.js:209 | at least one anchor is used |
| Columns.Anchors | src/pdfXYExtract.js:209-214 | there are anchors when there are numbers, at most the anchor count, in ascending order |
| Columns.Nearest | src/pdfXYExtract.js:217-229 | the chosen index is within the anchors |
| Columns.NearestIsNearest | src/pdfXYExtract.js:217-229 | the chosen anchor is nearest, the lowest index on ties |
| Columns.NearestAnchor | src/pdfXYExtract.js:218-228 | the search loop returns exactly `Nearest` |
| Columns.Buckets | src/pdfXYExtract.js:217-229 | there is one bucket per anchor |
| Columns.BucketsNearest | src/pdfXYExtract.js:217-229 | each bucket holds only tokens whose nearest anchor is that bucket |
| Columns.AssignBuckets | src/pdfXYExtract.js:217-229 | the assignment loop returns exactly `Buckets` |
| Columns.AnchorValues | src/pdfXYExtract.js:231-242 | at most one value per bucket, each non-empty and normalised |
| Columns.Gaps | src/pdfXYExtract.js:244-249 | one gap between neighbours: the next token's x minus the current token's right edge |
| Columns.SplitGap | src/pdfXYExtract.js:250-254 | the split gap is at least 8 |
| Columns.GapGroupsPartition | src/pdfXYExtract.js:256-269 | the gap groups are non-empty and partition the tokens in order |
| Columns.GroupByGaps | src/pdfXYExtract.js:256-269 | the grouping loop returns exactly `GapGroups` |
| Columns.GroupValuesClean | src/pdfXYExtract.js:271-276 | every group value is non-empty and normalised |
| Columns.CollectGroupValues | src/pdfXYExtract.js:271-276 | the collecting loop returns exactly `GroupValues` |
| Columns.ExtractValuesByX | src/pdfXYExtract.js:174-293 | the imperative extraction returns exactly `ValuesByX` |
| Columns.FallbackValues | src/pdfXYExtract.js:278-292 | the fallback step returns exactly `Fallback` |
| Columns.NoNumbersNoValues | src/pdfXYExtract.js:175-176 | a row without digits yields no values |
| Columns.DirectWins | src/pdfXYExtract.js:182-190 | when a token gives exactly the preferred count, its values are the answer |
| Columns.ValuesByXClean | src/pdfXYExtract.js:174-293 | every value read from a row is non-empty and normalised |
| Columns.ValuesByXCount | src/pdfXYExtract.js:278-292 | the result has the preferred count, or is the gap grouping, or is a shorter text reading |
| Columns.FallbackCount | src/pdfXYExtract.js:278-292 | the fallback keeps a list of the preferred count, else tries the joined text |
| Columns.LabelTokens | src/pdfXYExtract.js:296-297 | only non-numeric tokens make up the label |
| Columns.LineWithoutNumbersNormalized | src/pdfXYExtract.js:295-303 | the label of a row is normalised |
| XyLines.ItemToken | src/pdfXYExtract.js:345-356 | an item gives a token exactly when its normalised text is non-empty; the token carries that text and a non-zero height |
| XyLines.PageTokens | src/pdfXYExtract.js:344-356 | every token of a page has a non-empty normalised text |
| XyLines.CollectTokens | src/pdfXYExtract.js:344-356 | the item loop returns exactly `PageTokens` |
| XyLines.PageCount | src/pdfXYExtract.js:336 | the number of pages read is capped by the document and is at least one when it has pages |
| XyLines.XyLine | src/pdfXYExtract.js:372 | a row gives an empty line only when its text is empty |
| XyLines.OfferRow | src/pdfXYExtract.js:364-392 | offering a row's matches continues the selection `Select` over the row's candidates |
| XyLines.OfferPage | src/pdfXYExtract.js:358-393 | offering a page's rows continues `Select` over the page's candidates |
| XyLines.ExtractXyLoop | src/pdfXYExtract.js:313-400 | the page loop returns exactly `ExtractXy` |
| XyLines.ExtractXyFacts | src/pdfXYExtract.js:313-400 | no matchers give no hits; the total and per-key caps (defaults 60 and 10) hold; no two hits share a dedupe key; hits come in line order |
| XyLines.ExtractXyHitsOk | src/pdfXYExtract.js:364-385 | each hit names a row whose text a matcher accepts, with that row's line and values |
| XyLines.ExtractXyValuesClean | src/pdfXYExtract.js:371-382 | every value of every hit is non-empty and normalised |
| XyCandidates.XyCandsOrdered | src/pdfXYExtract.js:358-393 | candidates come in row order |
| XyCandidates.SelectXyFacts | src/pdfXYExtract.js:364-391 | the selection respects both caps and keeps dedupe keys distinct |
| Selection.Quota | src/scraper.js:728-729 | a zero option means the default, any other value is used as given |
| Selection.SelectInv | src/scraper.js:738-761 | the selection keeps its invariant: the caps hold, each key is counted and each dedupe key is seen once |
| Selection.SelectMaximal | src/scraper.js:741-761 | every skipped candidate was a duplicate, or its key was full, or the total cap was reached |
| Selection.SelectSubseq | src/scraper.js:741-761 | the hits are an in-order subsequence of the candidates |
| Selection.SelectAfterDone | src/scraper.js:759 | once the total cap is reached, later candidates change nothing |
| Selection.OfferStep | src/scraper.js:745-759 | one offer updates the hits, counts and seen set as `Offer` does |
| TextLines.ScanText | src/scraper.js:421-427 | the scan text contains no carriage return and no NUL |
| TextLines.ScanTextNoop | src/scraper.js:421-427 | a text without them is unchanged |
| TextLines.ScanTextIdempotent | src/scraper.js:421-427 | normalising the scan text twice is normalising it once |
| TextLines.SplitLinesJoin | src/scraper.js:733-734 | joining the split lines with newlines gives back the text |
| TextLines.SplitLinesOfJoin | src/scraper.js:733-734 | splitting a newline-join of newline-free lines gives back the lines |
| TextLines.CleanLines | src/scraper.js:735-736 | the kept lines are non-empty and normalised |
| TextLines.LinesOfJoin | src/scraper.js:732-736 | clean lines joined by newlines come back unchanged |
| TextLines.OneLine | src/scraper.js:732-736 | a text without line breaks is one normalised line, or none if it is blank |
| TextLines.ExtractMatchedLinesLoop | src/scraper.js:726-764 | the nested line and matcher loops return exactly `ExtractMatchedLines` |
| TextLines.ExtractMatchedLinesFacts | src/scraper.js:726-764 | the caps hold; each hit has a key, no values, the text source, and the line at its 1-based index, which a matcher accepts; no two hits share key and line; hits come in line order |
| TextLines.ExtractMatchedLinesMaximal | src/scraper.js:741-761 | an accepted line is left out only as a duplicate, or because its key or the total was full |
| TextLines.DedupeKeyInjective | src/scraper.js:752 | for keys without `|`, equal dedupe strings mean the same key and line |
| Keywords.Escape | src/pdfKeywordScan.js:19 | escaping never shortens the keyword |
| Keywords.EscapeRoundTrip | src/pdfKeywordScan.js:19 | the escaped pattern is a literal, and unescaping it gives back the keyword |
| Keywords.BuildKeywordMatchers | src/pdfKeywordScan.js:13-21 | at most one matcher per keyword, each with a non-empty key and a pattern |
| Keywords.KeywordMatcherTest | src/scraper.js:397-405 | a keyword matcher accepts a text exactly when the text contains the keyword, ignoring case |
| Keywords.BuildKeywordMatchersKeys | src/pdfKeywordScan.js:13-21 | every matcher is a trimmed non-empty keyword with its case-insensitive literal pattern |
| Keywords.BuildKeepsCleanKeywords | src/pdfKeywordScan.js:13-21 | trimmed non-empty keywords are all kept, in order |
| Keywords.Basename | src/pdfKeywordScan.js:8 | the base name contains no slash |
| Keywords.OrgFromFilename | src/pdfKeywordScan.js:7-11 | a found organisation number has exactly ten digits |
| Keywords.OrgFromFilenameOf | src/pdfKeywordScan.js:7-11 | a name of ten digits, an underscore and a rest gives those ten digits |
| Keywords.OrgFromFilenameNone | src/pdfKeywordScan.js:7-11 | a name without that prefix gives none |
| Keywords.ScanFilesExact | src/pdfKeywordScan.js:35-58 | an organisation has a keyword exactly when one of its files with text matches it |
| Keywords.ScanFilesNonEmpty | src/pdfKeywordScan.js:54-55 | no organisation is recorded with an empty set |
| Keywords.ScanLenderKeywordsExact | src/pdfKeywordScan.js:23-61 | from the keyword list: an organisation has a keyword exactly when one of its files contains it, ignoring case |
| Keywords.AddFileMatches | src/pdfKeywordScan.js:52-57 | the matcher loop adds exactly the matched keywords |
| Keywords.ScanPdfLenderKeywords | src/pdfKeywordScan.js:23-61 | the file loop returns exactly `ScanLenderKeywords` |
| Blend.Score | src/scraper.js:1090-1097 | a hit's score is the number of its values, capped at two |
| Blend.WithValues | src/scraper.js:1045-1054 | filling values keeps key, line, index and source, and keeps existing values |
| Blend.FillValuesIdempotent | src/scraper.js:1045-1054 | filling values twice is filling them once |
| Blend.FillValuesKeys | src/scraper.js:1045-1054 | filling values keeps each key's number of hits |
| Blend.KeyOrderFacts | src/scraper.js:1071 | the key order has no repeats, holds exactly the keys of either list, and lists them in first-seen order over the XY keys followed by the text keys |
| Blend.Pick | src/scraper.js:1079-1098 | where one list is short the other's hit is taken; otherwise the better-scored hit, the XY one on ties |
| Blend.MergeFacts | src/scraper.js:1077-1099 | a key's merged hits are as many as the longer list, each picked position by position |
| Blend.MergeSelf | src/scraper.js:1077-1099 | merging a group with itself gives the group |
| Blend.BlendKeyHits | src/scraper.js:1039-1103 | when both lists are non-empty, each key has as many hits as in the list with more of them |
| Blend.BlendFrom | src/scraper.js:1039-1103 | an empty list yields the other list; otherwise every blended hit comes from one of the filled lists |
| Blend.BlendGroups | src/scraper.js:1039-1103 | the blended hits of a key are the position-wise merge of the two lists' hits of that key |
| Blend.BlendSelf | src/scraper.js:1039-1103 | blending a list with itself regroups the filled list by key |
| Blend.BlendSelfReorders | src/scraper.js:1039-1103 | `[a, b, c]` blended with itself is `[a, c, b]` when a and c share a key |
| Blend.FillValuesLoop | src/scraper.js:1045-1054 | the fill returns exactly `FillValues` |
| Blend.ByKey | src/scraper.js:1059-1067 | the map holds each key's hits, in order, and the key order is the first appearance of each key |
| Blend.DedupKeys | src/scraper.js:1071 | the key set loop returns exactly `Lists.Unique` of both key lists |
| Blend.MergeInto | src/scraper.js:1077-1099 | the position loop appends the merge of one key |
| Blend.Blend | src/scraper.js:1039-1103 | the imperative blend returns exactly `BlendLines` |
| PostProcess.Existing | src/scraper.js:1564-1568 | the kept existing values are no more than the values |
| PostProcess.ExistingOfClean | src/scraper.js:1564-1568 | values that are already clean are kept as they are |
| PostProcess.CleanNumberNormalized | src/scraper.js:1570-1572 | a value of the clean-number shape is non-empty and normalised |
| PostProcess.CleanExamples | src/scraper.js:1570-1572 | `"22 875 000"` and `"-4990"` have the clean shape |
| PostProcess.RejectExamples | src/scraper.js:1570-1572 | `"22 87"` and the empty text do not |
| PostProcess.ValuesForFacts | src/scraper.js:1555-1585 | values are clean; a line with digits is re-read unless its existing values are a clean pair; a line without digits keeps its existing values |
| PostProcess.ValuesKeepDigits | scripts/backfill_matched_lines.js:133-161 | re-read values hold every digit of the line |
| PostProcess.Substantials | src/scraper.js:1600-1608 | the substantial values are among the values |
| PostProcess.KreditValuesFacts | src/scraper.js:1594-1614 | for a Kreditinstitut debt line with more than two values and at least two of four or more digits, only those are kept; otherwise the values are unchanged |
| PostProcess.LabelFacts | src/scraper.js:1586-1618 | the label is empty exactly when the line is, and is the line or a digit-free normalised text |
| PostProcess.KreditKeepsClean | src/scraper.js:1594-1614 | the Kreditinstitut filter keeps values clean |
| PostProcess.NormalizeMatchedFacts | src/scraper.js:1553-1625 | key, index and source are kept; the line becomes its label; the values are clean |
| PostProcess.CopiesAgreeOnCleanPairs | scripts/backfill_matched_lines.js:133-161 | the scraper and backfill copies agree on digit-free lines with a clean pair of values |
| PostProcess.NormalizeMatchedArrayAt | scripts/backfill_matched_lines.js:133-161 | each entry is normalised by the backfill rule, keeping its key and index |
| PostProcess.SkulderLinesFacts | src/scraper.js:1630-1643 | the debt lines are exactly the Kreditinstitut lines that mention skuld, in order |
| PostProcess.CleanVariantKept | src/scraper.js:1654-1666 | a hit is dropped only when its clean variant is present and kept |
| PostProcess.DedupeVariantsFacts | src/scraper.js:1645-1684 | the result is an in-order subsequence with distinct keys, and no kept hit is shadowed by a clean variant |
| PostProcess.DedupeKreditinstitutValueVariants | src/scraper.js:1645-1684 | the loop returns exactly `DedupeVariants` |
| Money.DigitChar | src/utils.js:10-19 | a digit below ten becomes the character with that value |
| Money.DecValue | src/utils.js:10-19 | reading back the decimal text of a number gives the number |
| Money.Pad3Value | src/utils.js:10-19 | a three-digit padded group reads back as its number |
| Money.LeadingDigits | src/utils.js:16 | the leading digits are a digit-only prefix |
| Money.ParseMoneyCompact | src/utils.js:10-19 | parsing keeps digits and minus signs, reads an integer, and rejects values above the sanity limit |
| Money.ParseMoneyBounds | src/utils.js:10-19 | a parsed value came from a text with a digit and is within the sanity limit |
| Money.GroupedDigits | src/utils.js:10-19 | a number written in space-separated thousands has the digits of the number |
| Money.ParseGrouped | src/utils.js:10-19 | writing a number in thousands groups and parsing it gives the number back, or nothing above the limit; also for negatives |
| Money.ParseExample | src/utils.js:10-19 | `"22 875 000"` parses to 22875000 |
| Money.YearsApart | src/utils.js:21-25 | two year matches never overlap |
| Money.YearsFromFacts | src/utils.js:21-25 | every year found is from 2000 to 2039 and comes from a match in the text |
| Money.ExtractYearsFacts | src/utils.js:21-25 | none when the text has fewer than two distinct years; otherwise at least two distinct years from 2000 to 2039, exactly the years of the text |
| Money.FirstLabelFacts | src/utils.js:27-33 | no label exactly when no rule matches; otherwise the first matching rule's name |
| Money.NormalizeLabelIgnoresCase | src/utils.js:27-33 | label matching works on the normalised text, ignoring case |
| Money.MoneyMatchAfter | src/utils.js:35-43 | a money match consumes at least one character |
| Money.MoneyRunsShape | src/utils.js:35-43 | every money match is an optional minus, one to three digits, then space-separated groups of three |
| Money.ParseRun | src/utils.js:35-43 | a money match parses to its value, or nothing above the limit |
| Money.MoneyGroupsFacts | src/utils.js:35-43 | the money groups of a line are the values of its matches, all within the limit |
| Money.ParseLineFacts | src/utils.js:45-71 | a line parses exactly when it is non-empty, has a known label, is not excluded and has values; each year is paired with one of the last values |
| Money.ParsedLabelKnown | src/utils.js:45-71 | a parsed line carries a label of the label map |
| Money.ParsedValuesBounded | src/utils.js:45-71 | every parsed value is within the sanity limit |
| LineColumns.RowOf | src/processor.js:65-80 | an item gives a row only when its line is non-empty |
| LineColumns.Bucket | src/processor.js:56-81 | a key's bucket holds at most the line cap of rows, all non-empty |
| LineColumns.BucketIsFirstRows | src/processor.js:56-81 | a key's bucket is the first rows of that key, up to the cap |
| LineColumns.FieldNameParts | src/processor.js:91-115 | a column name is the prefix, the key, the 1-based line number and the field suffix |
| LineColumns.FieldNameInjective | src/processor.js:91-115 | for keys without underscores, different fields get different column names |
| LineColumns.CanonicalNoUnderscore | src/processor.js:9-15 | a canonical key contains no underscore |
| LineColumns.KeyFieldsCount | src/processor.js:89-117 | a key has lines times (two plus numbers-per-line) columns |
| LineColumns.KeyFieldsMembership | src/processor.js:89-117 | exactly the line, index and number fields of the key's slots are columns |
| LineColumns.KeyFieldsDistinct | src/processor.js:89-117 | a key's columns are distinct |
| LineColumns.GridFieldsFacts | src/processor.js:87-118 | for distinct keys, the grid has keys times lines times (two plus numbers) distinct columns |
| LineColumns.CleanValues | src/processor.js:98-108 | cleaning keeps one value per value |
| LineColumns.CanonicalKeysFacts | src/processor.js:83-85 | the canonical keys are distinct, non-empty, without underscores, and exactly those of the given keys |
| LineColumns.StructuredColumnsDomain | src/processor.js:48-121 | the output has exactly the grid's columns (defaults of 10 lines and 10 numbers) |
| LineColumns.StructuredColumnsCount | src/processor.js:48-121 | the output has keys times lines times (two plus numbers) columns |
| LineColumns.LineCellFacts | src/processor.js:88-92 | a line cell holds the row's line, or is empty when the key has fewer rows |
| LineColumns.IdxCellFacts | src/processor.js:93-94 | an index cell holds the row's line index, or is empty |
| LineColumns.NumCellFacts | src/processor.js:96-116 | a number cell holds that numeric token of the line, or is empty |
| LineColumns.TokenCell | src/processor.js:22-46 | every numeric token of a line is a signed digit string |
| LineColumns.NumCellClean | src/wide_report.js:86-94 | a number cell has no separators when stripping is on and is trimmed otherwise |
| LineColumns.WriteSlot | src/processor.js:89-117 | one slot writes exactly its line, index and number cells |
| LineColumns.CollectBuckets | src/processor.js:56-81 | the bucket loop builds each key's bucket |
| LineColumns.BuildStructuredLineColumns | src/processor.js:48-121 | the imperative build returns exactly `StructuredColumns` |
| Reporting.KeepKeyCharsFacts | src/processor.js:9-15 | only key characters remain, and a text of key characters is kept |
| Reporting.CanonicalKeyFacts | src/processor.js:9-15 | the canonical key has only key characters and canonicalising is idempotent |
| Reporting.NbspToSpace | src/processor.js:24 | each no-break space becomes a space |
| Reporting.DigitRunEnd | src/processor.js:29 | a digit run covers digits and stops at the first non-digit |
| Reporting.NumberMatchAt | src/processor.js:27-30 | a number match is non-empty after its sign |
| Reporting.NumberMatchesShape | src/processor.js:27-37 | without separators every match is a signed digit string |
| Reporting.ExtractNumericTokensFacts | src/processor.js:22-46 | at most the cap (default 4) tokens, each a signed digit string of at most 18 digits |
| Reporting.KeptKeywordsFacts | src/processor.js:123-130 | the kept keywords are the trimmed, non-empty, unique keywords |
| Reporting.KeywordPartsFacts | src/processor.js:123-130 | the parts are sorted, trimmed, non-empty, at most the unique keywords, and exactly those keywords |
| Reporting.KeywordPartsExample | src/processor.js:123-130 | `[" Qred", "Qred"]` gives `"Qred"` twice: uniqueness is taken before trimming |
| Reporting.LinePartClean | src/processor.js:132-149 | a rendered line part is trimmed and non-empty |
| Reporting.LinesJoinedFacts | src/processor.js:132-149 | the joined parts are distinct, trimmed, non-empty, and exactly the rendered parts |
| Reporting.PickLatestNonNullFacts | src/processor.js:450-469 | none exactly when years and values do not match or no value parses; otherwise the first year with a parsable value, and that value |
| Reporting.UpsertedFacts | src/processor.js:417-443 | a new key stores the record; an existing one is replaced on a higher score, or an equal score with a later year; otherwise its figures and score stay and only its blank name, email, phone and keywords are filled from the new record |
| Reporting.UpsertAllWinner | src/processor.js:417-443 | after a sequence of upserts a key is present exactly when offered, and holds a best-scored offer |
| Reporting.BestTable.constructor | src/processor.js:417-443 | the table starts empty |
| Reporting.BestTable.UpsertBest | src/processor.js:417-443 | only the record's key changes, to the upserted entry |
| WideReport.NameOf | src/wide_report.js:157 | the name is never empty and is the record's name when it has one |
| WideReport.SortedSetFacts | src/wide_report.js:160-177 | the keyword set is sorted, has no repeats, and holds exactly the given keywords |
| WideReport.KeywordsCellFacts | src/wide_report.js:160-177 | the record's own keywords are used when present, otherwise the PDF scan's |
| WideReport.RenderedPartsFacts | src/wide_report.js:205-214 | the rendered parts are non-empty and are exactly the items' renderings |
| WideReport.SkulderSourceFacts | src/wide_report.js:180-197 | the record's debt lines win; otherwise the debt lines are taken from its keyword lines |
| WideReport.FillBlanksFacts | src/wide_report.js:291-293 | a blank cell is filled from the new grid and a filled cell is kept |
| WideReport.FillBlanksIdempotent | src/wide_report.js:291-293 | filling twice is filling once |
| WideReport.FillBlanksSelf | src/wide_report.js:291-293 | filling a grid from itself changes nothing |
| WideReport.MergeRowKeeps | src/wide_report.js:233-281 | merging keeps the organisation number and a known name, and fills only blank fields |
| WideReport.RowAfterIdempotent | src/wide_report.js:179-293 | adding the same record twice gives the same row as adding it once |
| WideReport.RowAfterShaped | src/wide_report.js:179-293 | the row's grid stays within the structured columns |
| WideReport.AddKeepsValid | src/wide_report.js:148-294 | adding a record keeps the table valid |
| WideReport.WideTable.constructor | src/wide_report.js:135-146 | the table starts empty and valid, with the Kreditinstitut grid keys |
| WideReport.WideTable.AddRecord | src/wide_report.js:148-294 | the table stays valid; a record without an organisation changes nothing; otherwise only its row changes, to the merged row |
| WideReport.MergeInto | src/wide_report.js:233-281 | the merge returns exactly `MergeRow` |
| WideReport.FillGrid | src/wide_report.js:291-293 | the cell loop equals filling the blanks |
| WideReport.BuildHeader | src/wide_report.js:313-336 | the header is the fixed columns followed by each key's grid columns |
| WideReport.HeaderWidth | src/wide_report.js:299-336 | the header has 7 plus 8 columns per key |
| WideReport.HeaderIdsDistinct | src/wide_report.js:313-336 | for distinct keys without underscores, column ids are distinct |
| WideReport.StructuredKeysCanonical | src/wide_report.js:144-146 | the grid keys are distinct canonical keys without underscores |
| WideReport.HeaderNamesRowCells | src/wide_report.js:313-336 | every header column names a cell that a row's grid can hold |

## Left out

- File and network I/O are not modelled:
  - reading PDFs through pdf.js and pdf-parse;
  - the `fs` directory walk;
  - reading JSONL, and the lines that fail to parse;
  - the CSV writers.
  The model takes their contents as parameters: pages of text items, PDF
  files as name and text, records.
- Browser automation is not modelled: Puppeteer, the DOM scraping of hitta.se,
  cookie banners, timeouts and the random jitter of delays.
- Floating point is modelled as exact `real` numbers for the positions. The
  dynamic-program costs are integers scaled by 20.
- Sort stability and engine order are left open.
  - `Array.prototype.sort` is modelled as a stable insertion sort with an
    abstract total preorder.
  - `localeCompare` is modelled as an abstract order `le`.
  - Columns.Longest: the direct-pair comparator of src/pdfXYExtract.js:187-190
    never returns 0, so the engine's order among equally long candidates is
    unspecified. The model takes the first longest candidate.
- Strs.Lower: case folding is modelled for ASCII letters and Å/Ä/Ö only, and Money.NormalizeLabelIgnoresCase relies on it. The source's `i` flag and `toLowerCase` also fold other letters.
- Money.NormalizeLabelIgnoresCase: matches labels on the text lowered by Strs.Lower,
  so it shares that limit (ASCII letters and Å/Ä/Ö).
- Negative numeric options (`maxLinesPerKey`, `maxPerKey` and so on) are not
  modelled. 0 stands for the source's fallback to its default.
- Values that are not arrays and items that are not objects are not modelled
  separately. The model's types rule them out, and missing fields become empty
  strings or empty lists.
- The `it.keyword` fallback for a missing key is not modelled: every hit
  carries its key.
- `-0` and `parseInt` beyond 2^53 are not modelled: integers are unbounded.
- TextLines.DedupeKeyInjective: keys containing `|` are left out. The
  source's `key|line` dedupe string can then collide.
- Object property order is not modelled. Keys of an object are modelled as the
  typed `Field` of a map, and `LineColumns.FieldNameInjective` proves that the
  column names of distinct fields are distinct.
- Modelled once:
  - the `wide_report.js` copies of `canonicalKey` and `extractNumericTokens`
    are the same as in `processor.js`;
  - the two copies of `buildStructuredLineColumns` differ in how they clean
    a row's values: src/wide_report.js:86-94 replaces NBSP and trims, and
    src/processor.js:99-107 also removes whitespace, dots and commas. The
    `strip` flag of `LineColumns.CleanValues` selects the copy;
  - the `pdfKeywordScan.js` and `scraper.js` copies of `buildKeywordMatchers`
    are the same.
- The PDF keyword set of an organisation is modelled as a list.
- WideReport.FillGrid iterates the cells in map order rather than in object
  order. The result does not depend on the order.
- The Kreditinstitut grid keyword is a constant.
- Not modelled:
  - `safeColKey` (src/processor.js:17-20), because its results are not used in
    the core;
  - `lenderKeysCanonical` (src/wide_report.js:137-143), which is never read;
  - `isFinancingTableLabel` and `buildLoanMatchers`, which are only regular
    expressions;
  - `parseFinanceJsonlWithExtras` and the CSV writing around it.
- The `catch` branches of `normalizeMatched` are not modelled. Every modelled
  function is total, so they cannot be reached.
- Reporting.BestTable.UpsertBest: the stored record object is replaced in the
  map instead of being updated in place. No other reference to it exists.
- XyLines.ExtractXyLoop: pages are given already loaded, so the page count
  only caps the pages read.
