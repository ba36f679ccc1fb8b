# Invoice / purchase-order matching engine, in Dafny

This project models the matching engine of INVOOE (`src/utils/documentMatcher.ts`)
and proves what it promises. The engine pairs each uploaded invoice with a
purchase order (PO), compares the pair field by field, and writes a text report.

- `matchDocuments` walks the invoices in insertion order. For each one it asks
  `findMatchingPO` for a PO and records a `MatchResult`.
- `findMatchingPO` scans the POs in insertion order. It takes the first one
  whose vendor agrees ignoring case, or whose document number is equal, or
  whose total is less than 1 away. If none qualifies it takes the first PO.
  It returns nothing only when there is no PO.
- `compareDocuments` and `compareLineItems` list the differences in a fixed
  order: vendor (high), total amount (severity from the percentage
  difference), number of line items (medium), then for each index below the
  shorter item list the item total (medium) and the item quantity (low).
- `generateMatchSummary` builds the report: the counts, and, when something
  mismatched, one block per mismatched result with one marked line per
  difference.

Layout:

- `types.dfy` (module `Types`) holds the records of `src/types.ts`. The two
  `Map<string, ExtractedData>` inputs are sequences of `Entry(id, doc)` in
  insertion order. The `any`-typed `invoiceValue`/`poValue` are a `Value`:
  either `Text` or `Number`.
- `jstext.dfy` (module `JsText`) holds the JavaScript primitives the engine
  calls, defined concretely:
  - `toLowerCase`, on ASCII letters;
  - `substring(0, n)`;
  - the decimal rendering of a count;
  - `toFixed(f)`, which rounds to the nearest multiple of 10^-f (half up),
    pads with zeros and prefixes negative numbers with `-`.
- `comparator.dfy` (module `Comparator`) specifies the comparison as a list of
  tagged `Finding`s. `Render` turns each finding into the exact `Difference`
  object the source pushes. The methods `CompareDocuments` and
  `CompareLineItems` are the source's checks and loops. They build each
  `Difference` inline as the source does, and are proved equal to the
  rendered findings. The lemmas show that the findings are exactly the discrepancies
  of the pair and that they come in report order. They also characterise an
  empty result and the severity tiers of the total.
- `matcher.dfy` (module `Matcher`) has the `findMatchingPO` scan and the
  `matchDocuments` loop, each proved equal to a recursive specification
  (`SelectPO`, `MatchAll`). Lemmas about those give the shape and the
  contents of the result list.
- `summary.dfy` (module `Summary`) has the `generateMatchSummary` loops,
  proved equal to `Report`. Lemmas show how the report decomposes.
- `scenarios.dfy` (module `Scenarios`) holds worked examples on concrete
  documents. The strings in them are the exact ones the engine produces.

Amounts and quantities are exact `real`s. A division by a zero PO total is the
JavaScript value `Infinity` (`Percent.Infinity`). Its severity is high and the
message prints `Infinity%`, as the code does.

## Model

| member | source | states |
|---|---|---|
| Matcher.MatchDocuments | src/utils/documentMatcher.ts:3-28 | The loop over the invoices builds exactly `MatchAll(invoices, pos)`: one `Pair` per invoice that found a PO, in invoice order. |
| Matcher.MatchAllShape | src/utils/documentMatcher.ts:9-27 | An empty PO pool gives no result. Otherwise there is exactly one result per invoice, and the k-th result pairs the k-th invoice with the PO `SelectPO` picks for it. |
| Matcher.ResultContents | src/utils/documentMatcher.ts:13-23 | Each result carries the invoice entry and an entry of the PO pool unchanged (ids and records). Its differences are the comparator's for that pair. Its status is `match` iff there are no differences. |
| Matcher.Pair | src/utils/documentMatcher.ts:14-22 | A result's status is `match` exactly when its difference list is empty. |
| Matcher.DistinctInvoiceIds | src/utils/documentMatcher.ts:9-25 | Distinct invoice keys give results with pairwise distinct `invoiceId`s, so no invoice is reported twice. |
| Matcher.FindMatchingPO | src/utils/documentMatcher.ts:30-50 | The scan with early return and fallback returns exactly `SelectPO(invoice, pos)`. |
| Matcher.FirstCandidate | src/utils/documentMatcher.ts:34-42 | The index found is the first PO satisfying the vendor, document-number or total rule: none before it qualifies, and it qualifies unless it is the end of the pool. |
| Matcher.SelectPO | src/utils/documentMatcher.ts:30-50 | Nothing is chosen iff the pool is empty; whatever is chosen is an entry of the pool. |
| Matcher.SelectFirstCandidate | src/utils/documentMatcher.ts:34-41 | If entry k qualifies and none before it does, entry k is chosen, whatever follows it. |
| Matcher.SelectFallback | src/utils/documentMatcher.ts:44-47 | In a non-empty pool where no entry qualifies, the first entry is chosen. |
| Comparator.CompareDocuments | src/utils/documentMatcher.ts:52-91 | The vendor, total and item-count checks followed by the item differences produce exactly `CompareDocs(invoice, po)`. |
| Comparator.CompareLineItems | src/utils/documentMatcher.ts:93-125 | The loop up to the longer length, skipping indices missing on either side, produces exactly the rendered item findings at the indices below the shorter length. |
| Comparator.FindingsExact | src/utils/documentMatcher.ts:55-88 | A finding is reported iff it holds of the pair, with the pair's own data as payload. Both directions are stated: nothing spurious and nothing missed. |
| Comparator.ItemFindingsExact | src/utils/documentMatcher.ts:97-121 | The item findings below n are exactly the item-total and quantity discrepancies at indices below n. An index past either list's end contributes nothing. |
| Comparator.ItemFindingsAtExact | src/utils/documentMatcher.ts:103-121 | The findings at one index are exactly that index's total mismatch (beyond 0.01) and quantity mismatch. |
| Comparator.ItemFindingsCount | src/utils/documentMatcher.ts:97-121 | The first n indices contribute at most 2n item differences. |
| Comparator.FindingsAscending | src/utils/documentMatcher.ts:55-88 | Differences come strictly in report order: vendor, total, item count, then by item index with the total before the quantity. So no kind repeats at one index. |
| Comparator.ItemFindingsAscending | src/utils/documentMatcher.ts:97-121 | The item findings are in index order (total before quantity) and all come after the item-count finding. |
| Comparator.HeadFindingsAscending | src/utils/documentMatcher.ts:55-85 | The vendor, total and count findings are in that order and all come before any item finding. |
| Comparator.NoDifferencesIff | src/utils/documentMatcher.ts:55-90 | No difference is reported iff: the vendors agree ignoring case; the totals are within 0.01; the item counts are equal; and every item pair has totals within 0.01 and equal quantities. |
| Comparator.VendorMismatchFirst | src/utils/documentMatcher.ts:55-63 | A vendor mismatch is the first difference: field "Vendor", both names as written, high. |
| Comparator.CountMismatchReported | src/utils/documentMatcher.ts:77-85 | Different item counts are reported as "Line Items", medium, with the two raw lengths as numeric values. |
| Comparator.TotalTierThresholds | src/utils/documentMatcher.ts:65-74 | For a positive PO total, the tier is high iff the difference exceeds a tenth of the PO total. It is medium iff it exceeds a twentieth but not a tenth, and low otherwise. This is the 10% / 5% rule stated without division. |
| Comparator.TotalTierMonotone | src/utils/documentMatcher.ts:67-72 | With the PO total fixed and positive, a larger total difference never gets a lower severity. |
| Comparator.ZeroPOTotalIsHigh | src/utils/documentMatcher.ts:65-74 | With a zero PO total the percentage is Infinity: the total difference is high and its message ends in "(Infinity%)". |
| Comparator.ItemTotalLabel | src/utils/documentMatcher.ts:105 | The field of an item-total difference is "Item {i+1}: " followed by a prefix of the invoice item's description, of length min(length, 30). |
| Comparator.RenderAllAppend | src/utils/documentMatcher.ts:88 | Rendering a concatenation is the concatenation of the renderings (the `push(...itemDiffs)` step). |
| Summary.GenerateMatchSummary | src/utils/documentMatcher.ts:127-150 | The appends, with the nested loops over the mismatched results and their differences, produce exactly `Report(results)`. |
| Summary.StatusPartition | src/utils/documentMatcher.ts:128-129 | The matched and mismatched counts add up to the number of results. |
| Summary.WithStatusExact | src/utils/documentMatcher.ts:128-129 | Filtering by status keeps exactly the results with that status. |
| Summary.IssuesOnlyWhenMismatched | src/utils/documentMatcher.ts:131-147 | The report is only the counts (no "Issues Found" section) iff no result mismatched. In that case every result counts as matched. |
| Summary.IssueBlockAt | src/utils/documentMatcher.ts:137-146 | After the counts, the review line and "Issues Found:" come the blocks of the mismatched results, in input order. The k-th block is its header followed by the j-th difference's marked line between the lines before and after it. |
| Summary.ConcatAt | src/utils/documentMatcher.ts:138-146 | The text a `forEach` append builds is the text of the elements before k, then element k's, then the rest. |
| Summary.PluralWording | src/utils/documentMatcher.ts:132-135 | "invoice" takes an "s" exactly when the count is not 1 and "need" takes one exactly when it is 1; a single matched invoice is reported as "✓ 1 invoice matched perfectly". |
| Summary.IconsDistinct | src/utils/documentMatcher.ts:143 | The three severities get three distinct markers. |
| JsText.Lower | src/utils/documentMatcher.ts:36 | Lower-casing keeps the length and leaves no upper-case ASCII letter. |
| JsText.LowerIdempotent | src/utils/documentMatcher.ts:55 | Lower-casing twice is lower-casing once. |
| JsText.Prefix | src/utils/documentMatcher.ts:105 | `substring(0, n)` is a prefix of the string of length min(length, n). |
| JsText.Digits | src/utils/documentMatcher.ts:132 | The rendering of a count is a non-empty string of digits with a leading zero only for zero. |
| JsText.DigitsRoundTrip | src/utils/documentMatcher.ts:132 | Reading the rendered count back gives the count. |
| JsText.RoundHalfUp | src/utils/documentMatcher.ts:70-73 | The rounding `toFixed` uses picks an integer within one half of its argument. |
| JsText.ZeroPad | src/utils/documentMatcher.ts:70-73 | Zero padding keeps the value of a numeral and reaches the width. |
| JsText.FixedReadsBack | src/utils/documentMatcher.ts:70-73 | `x.toFixed(f)` for x >= 0 and f > 0 is a whole part of at least one digit, a point and exactly f digits. Together those digits read back as x * 10^f rounded. |
| JsText.PointNumeralReadsBack | src/utils/documentMatcher.ts:70-73 | The numeral of n / 10^f has exactly f digits after the point, and its digits read back as n. |
| Scenarios.CaseInsensitivePairing | src/utils/documentMatcher.ts:36 | An invoice from "Acme" and a PO from "ACME" with equal totals and no items give one `match` result with no differences. |
| Scenarios.TwentyPercentGap | src/utils/documentMatcher.ts:65-74 | Totals 120 against 100 give exactly one difference: "Total Amount", "$120.00" against "$100.00", high, "Amount differs by $20.00 (20.0%)". |
| Scenarios.ExtraInvoiceItem | src/utils/documentMatcher.ts:77-85 | Two invoice items against one PO item give exactly the "Line Items" difference with values 2 and 1, medium. Index 1 is skipped. |
| Scenarios.ZeroOrderTotal | src/utils/documentMatcher.ts:65-74 | Totals 5 against 0 give one high difference whose message is "Amount differs by $5.00 (Infinity%)". |
| Scenarios.EmptyPool | src/utils/documentMatcher.ts:44-49 | With no PO at all, an invoice produces no result. |

## Left out

- The React UI (`src/App.tsx`, `src/components/*`), the extraction edge
  function and its `fetch` wrapper are not part of this model. They are UI,
  network and clock code with no matching logic.
- Floating point: amounts are exact reals. IEEE rounding, NaN, signed zero
  and the binary inexactness of 0.01 are not modelled.
  `JsText.ToFixed` rounds the exact value half up. JavaScript rounds the
  binary double, so the digits can differ on values that are not exact in
  binary, such as 1.005. The exponential form that `toFixed` uses at 1e21
  and above is not modelled.
- JsText.Lower: lower-cases ASCII letters only. Full Unicode case mapping
  (for example of accented vendor names) is not modelled.
- JsText.Prefix: counts characters, whereas `substring` counts UTF-16 code
  units. The two differ on characters outside the Basic Multilingual Plane.
- The records are assumed well typed. Missing or `undefined` fields, and
  items that are `null` rather than absent, are not modelled (the
  `!invItem || !poItem` test reduces to "index past the end"). So is the
  `description` of an item being something other than a string.
- A zero PO total: the code divides by it, so `percentDiff` is JavaScript's
  `Infinity`. The model has `Percent.Infinity`, severity high, and the
  message reads "(Infinity%)".
