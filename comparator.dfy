/** The comparator of src/utils/documentMatcher.ts (`compareDocuments` and
    `compareLineItems`): the ordered list of differences between an invoice
    and the purchase order it was paired with.

    The specification first lists the discrepancies that hold as tagged
    `Finding`s, in the fixed report order, and then renders each one as the
    `Difference` record the source pushes. */
module Comparator {
  import opened Types
  import opened JsText

  /** Amounts closer than this are equal (`> 0.01` in the source). */
  const Tolerance: real := 0.01

  /** Number of description characters shown in an item label. */
  const LabelWidth: nat := 30

  function Abs(x: real): real
  {
    if x < 0.0 then -x else x
  }

  function Min(x: nat, y: nat): nat
  {
    if x <= y then x else y
  }

  function Max(x: nat, y: nat): nat
  {
    if x <= y then y else x
  }

  /** Vendor names are compared after lower-casing both. */
  predicate SameVendor(a: string, b: string)
  {
    Lower(a) == Lower(b)
  }

  /** `(totalDiff / po.total) * 100`. The comparator only computes it for a
      positive `totalDiff`, so a zero `po.total` gives JavaScript's Infinity. */
  datatype Percent = Finite(value: real) | Infinity

  function PercentDiff(totalDiff: real, poTotal: real): Percent
  {
    if poTotal == 0.0 then Infinity else Finite(totalDiff / poTotal * 100.0)
  }

  /** Above 10 percent is high, above 5 percent medium, anything else low. */
  function Tier(p: Percent): Severity
  {
    match p
    case Infinity => High
    case Finite(v) => if v > 10.0 then High else if v > 5.0 then Medium else Low
  }

  /** `percentDiff.toFixed(1)`. */
  function FormatPercent(p: Percent): string
  {
    match p
    case Infinity => "Infinity"
    case Finite(v) => ToFixed(v, 1)
  }

  /** The severity of a total-amount difference. */
  function TotalSeverity(totalDiff: real, poTotal: real): Severity
  {
    Tier(PercentDiff(totalDiff, poTotal))
  }

  /** Severities ordered low < medium < high. */
  function SeverityRank(s: Severity): nat
  {
    match s
    case Low => 0
    case Medium => 1
    case High => 2
  }

  /** A currency display value, `$` followed by `toFixed(2)`. */
  function Money(x: real): Value
  {
    Text("$" + ToFixed(x, 2))
  }

  /** One discrepancy, with the compared data it is reported with. */
  datatype Finding =
    | VendorMismatch(invoiceVendor: string, poVendor: string)
    | TotalMismatch(invoiceTotal: real, poTotal: real)
    | CountMismatch(invoiceCount: nat, poCount: nat)
    | ItemTotalMismatch(index: nat, invoiceItem: LineItem, poItem: LineItem)
    | ItemQuantityMismatch(index: nat, invoiceQuantity: real, poQuantity: real)

  /** Where a finding stands in the report: vendor, total, item count, then
      per item index the total before the quantity. */
  function Position(f: Finding): nat
  {
    match f
    case VendorMismatch(_, _) => 0
    case TotalMismatch(_, _) => 1
    case CountMismatch(_, _) => 2
    case ItemTotalMismatch(i, _, _) => 3 + 2 * i
    case ItemQuantityMismatch(i, _, _) => 4 + 2 * i
  }

  /** The `Difference` record the source pushes for a finding. */
  function Render(f: Finding): Difference
  {
    match f
    case VendorMismatch(a, b) =>
      Difference("Vendor", Text(a), Text(b), High, "Vendor names do not match")
    case TotalMismatch(a, b) =>
      var totalDiff := Abs(a - b);
      var percent := PercentDiff(totalDiff, b);
      Difference("Total Amount", Money(a), Money(b), Tier(percent),
        "Amount differs by $" + ToFixed(totalDiff, 2) + " (" + FormatPercent(percent) + "%)")
    case CountMismatch(a, b) =>
      Difference("Line Items", Number(a as real), Number(b as real), Medium, "Different number of line items")
    case ItemTotalMismatch(i, x, y) =>
      Difference("Item " + Digits(i + 1) + ": " + Prefix(x.description, LabelWidth),
        Money(x.total), Money(y.total), Medium, "Line item total mismatch")
    case ItemQuantityMismatch(i, x, y) =>
      Difference("Item " + Digits(i + 1) + " Quantity", Number(x), Number(y), Low, "Quantity mismatch")
  }

  function RenderAll(fs: seq<Finding>): seq<Difference>
  {
    seq(|fs|, k requires 0 <= k < |fs| => Render(fs[k]))
  }

  lemma RenderAllAppend(a: seq<Finding>, b: seq<Finding>)
    ensures RenderAll(a + b) == RenderAll(a) + RenderAll(b)
  {
    var left, right := RenderAll(a + b), RenderAll(a) + RenderAll(b);
    assert |left| == |a| + |b| == |right|;
    forall k | 0 <= k < |left|
      ensures left[k] == right[k]
    {
      if k < |a| {
        assert left[k] == Render((a + b)[k]) && (a + b)[k] == a[k];
        assert right[k] == RenderAll(a)[k];
      } else {
        assert left[k] == Render((a + b)[k]) && (a + b)[k] == b[k - |a|];
        assert right[k] == RenderAll(b)[k - |a|];
      }
    }
    assert left == right;
  }

  lemma RenderAllSnoc(fs: seq<Finding>, f: Finding)
    ensures RenderAll(fs + [f]) == RenderAll(fs) + [Render(f)]
  {
    RenderAllAppend(fs, [f]);
  }

  /** The findings at one index both item lists have. */
  function ItemFindingsAt(a: seq<LineItem>, b: seq<LineItem>, i: nat): seq<Finding>
    requires i < |a| && i < |b|
  {
    (if Abs(a[i].total - b[i].total) > Tolerance then [ItemTotalMismatch(i, a[i], b[i])] else [])
    + (if a[i].quantity != b[i].quantity then [ItemQuantityMismatch(i, a[i].quantity, b[i].quantity)] else [])
  }

  /** The findings at the first n indices, in index order. */
  function ItemFindings(a: seq<LineItem>, b: seq<LineItem>, n: nat): seq<Finding>
    requires n <= |a| && n <= |b|
  {
    if n == 0 then [] else ItemFindings(a, b, n - 1) + ItemFindingsAt(a, b, n - 1)
  }

  function VendorFindings(invoice: ExtractedData, po: ExtractedData): seq<Finding>
  {
    if !SameVendor(invoice.vendor, po.vendor) then [VendorMismatch(invoice.vendor, po.vendor)] else []
  }

  function TotalFindings(invoice: ExtractedData, po: ExtractedData): seq<Finding>
  {
    if Abs(invoice.total - po.total) > Tolerance then [TotalMismatch(invoice.total, po.total)] else []
  }

  function CountFindings(invoice: ExtractedData, po: ExtractedData): seq<Finding>
  {
    if |invoice.items| != |po.items| then [CountMismatch(|invoice.items|, |po.items|)] else []
  }

  /** The document-level findings: vendor, total, item count. */
  function HeadFindings(invoice: ExtractedData, po: ExtractedData): seq<Finding>
  {
    VendorFindings(invoice, po) + TotalFindings(invoice, po) + CountFindings(invoice, po)
  }

  /** All findings for an invoice and a purchase order, in report order. */
  function Findings(invoice: ExtractedData, po: ExtractedData): seq<Finding>
  {
    HeadFindings(invoice, po) + ItemFindings(invoice.items, po.items, Min(|invoice.items|, |po.items|))
  }

  /** The differences `compareDocuments` reports. */
  function CompareDocs(invoice: ExtractedData, po: ExtractedData): seq<Difference>
  {
    RenderAll(Findings(invoice, po))
  }

  /** An item finding describes the two lists at an index both have. */
  predicate ItemHolds(f: Finding, a: seq<LineItem>, b: seq<LineItem>)
  {
    match f
    case ItemTotalMismatch(i, x, y) =>
      i < |a| && i < |b| && x == a[i] && y == b[i] && Abs(x.total - y.total) > Tolerance
    case ItemQuantityMismatch(i, x, y) =>
      i < |a| && i < |b| && x == a[i].quantity && y == b[i].quantity && x != y
    case _ => false
  }

  /** A finding is true of the pair, with the pair's own data as payload. */
  predicate Holds(f: Finding, invoice: ExtractedData, po: ExtractedData)
  {
    match f
    case VendorMismatch(a, b) =>
      a == invoice.vendor && b == po.vendor && !SameVendor(a, b)
    case TotalMismatch(a, b) =>
      a == invoice.total && b == po.total && Abs(a - b) > Tolerance
    case CountMismatch(a, b) =>
      a == |invoice.items| && b == |po.items| && a != b
    case _ => ItemHolds(f, invoice.items, po.items)
  }

  predicate Ascending(fs: seq<Finding>)
  {
    forall j, k :: 0 <= j < k < |fs| ==> Position(fs[j]) < Position(fs[k])
  }

  lemma ItemFindingsAtExact(a: seq<LineItem>, b: seq<LineItem>, i: nat)
    requires i < |a| && i < |b|
    ensures forall f :: f in ItemFindingsAt(a, b, i) <==> ItemHolds(f, a, b) && f.index == i
  {
  }

  /** The item findings below n are exactly the item discrepancies at the
      indices below n; no index past either list's end contributes. */
  lemma {:induction false} ItemFindingsExact(a: seq<LineItem>, b: seq<LineItem>, n: nat)
    requires n <= |a| && n <= |b|
    ensures forall f :: f in ItemFindings(a, b, n) <==> ItemHolds(f, a, b) && f.index < n
  {
    if n > 0 {
      var before, at := ItemFindings(a, b, n - 1), ItemFindingsAt(a, b, n - 1);
      ItemFindingsExact(a, b, n - 1);
      ItemFindingsAtExact(a, b, n - 1);
      forall f
        ensures f in before + at <==> ItemHolds(f, a, b) && f.index < n
      {
        assert f in before + at <==> f in before || f in at;
      }
    }
  }

  /** The item findings below n are in report order, positioned after the
      item-count finding and before anything at index n or later. */
  lemma {:induction false} ItemFindingsAscending(a: seq<LineItem>, b: seq<LineItem>, n: nat)
    requires n <= |a| && n <= |b|
    ensures Ascending(ItemFindings(a, b, n))
    ensures forall f :: f in ItemFindings(a, b, n) ==> 3 <= Position(f) < 3 + 2 * n
  {
    if n > 0 {
      ItemFindingsAscending(a, b, n - 1);
      var before, at := ItemFindings(a, b, n - 1), ItemFindingsAt(a, b, n - 1);
      assert forall f :: f in at ==> 3 + 2 * (n - 1) <= Position(f) < 3 + 2 * n;
      assert Ascending(at);
      AscendingAppend(before, at, 3 + 2 * (n - 1));
    }
  }

  lemma AscendingAppend(a: seq<Finding>, b: seq<Finding>, bound: nat)
    requires Ascending(a) && Ascending(b)
    requires forall f :: f in a ==> Position(f) < bound
    requires forall f :: f in b ==> bound <= Position(f)
    ensures Ascending(a + b)
  {
    forall j, k | 0 <= j < k < |a + b|
      ensures Position((a + b)[j]) < Position((a + b)[k])
    {
      if k < |a| {
      } else if j < |a| {
        assert (a + b)[j] in a && (a + b)[k] in b;
      } else {
        assert (a + b)[j] == b[j - |a|] && (a + b)[k] == b[k - |a|];
      }
    }
  }

  /** Completeness and soundness: a finding is reported iff it holds. */
  lemma FindingsExact(invoice: ExtractedData, po: ExtractedData)
    ensures forall f :: f in Findings(invoice, po) <==> Holds(f, invoice, po)
  {
    ItemFindingsExact(invoice.items, po.items, Min(|invoice.items|, |po.items|));
  }

  /** The report order is fixed: vendor, total, item count, then by item
      index with the total before the quantity; so no position repeats and
      each index contributes at most two differences. */
  lemma FindingsAscending(invoice: ExtractedData, po: ExtractedData)
    ensures Ascending(Findings(invoice, po))
  {
    var n := Min(|invoice.items|, |po.items|);
    HeadFindingsAscending(invoice, po);
    ItemFindingsAscending(invoice.items, po.items, n);
    AscendingAppend(HeadFindings(invoice, po), ItemFindings(invoice.items, po.items, n), 3);
  }

  lemma HeadFindingsAscending(invoice: ExtractedData, po: ExtractedData)
    ensures Ascending(HeadFindings(invoice, po))
    ensures forall f :: f in HeadFindings(invoice, po) ==> Position(f) < 3
  {
    var v, t, c := VendorFindings(invoice, po), TotalFindings(invoice, po), CountFindings(invoice, po);
    assert forall f :: f in v + t ==> Position(f) < 2;
    AscendingAppend(v, t, 1);
    AscendingAppend(v + t, c, 2);
  }

  /** The pair is reported as matching exactly when the vendors agree
      ignoring case, the totals are within 0.01, the item counts agree and
      every item pair has totals within 0.01 and equal quantities. */
  lemma NoDifferencesIff(invoice: ExtractedData, po: ExtractedData)
    ensures CompareDocs(invoice, po) == [] <==>
      SameVendor(invoice.vendor, po.vendor) &&
      Abs(invoice.total - po.total) <= Tolerance &&
      |invoice.items| == |po.items| &&
      forall i :: 0 <= i < |invoice.items| ==>
        Abs(invoice.items[i].total - po.items[i].total) <= Tolerance &&
        invoice.items[i].quantity == po.items[i].quantity
  {
    var a, b := invoice.items, po.items;
    var fs := Findings(invoice, po);
    FindingsExact(invoice, po);
    if fs != [] {
      assert Holds(fs[0], invoice, po);
    }
    if !SameVendor(invoice.vendor, po.vendor) {
      assert Holds(VendorMismatch(invoice.vendor, po.vendor), invoice, po);
    } else if Abs(invoice.total - po.total) > Tolerance {
      assert Holds(TotalMismatch(invoice.total, po.total), invoice, po);
    } else if |a| != |b| {
      assert Holds(CountMismatch(|a|, |b|), invoice, po);
    } else if i :| 0 <= i < |a| && Abs(a[i].total - b[i].total) > Tolerance {
      assert Holds(ItemTotalMismatch(i, a[i], b[i]), invoice, po);
    } else if i :| 0 <= i < |a| && a[i].quantity != b[i].quantity {
      assert Holds(ItemQuantityMismatch(i, a[i].quantity, b[i].quantity), invoice, po);
    }
  }

  /** A vendor mismatch is always the first difference, high, and carries
      both vendor names as written. */
  lemma VendorMismatchFirst(invoice: ExtractedData, po: ExtractedData)
    requires !SameVendor(invoice.vendor, po.vendor)
    ensures |CompareDocs(invoice, po)| > 0
    ensures CompareDocs(invoice, po)[0] ==
      Difference("Vendor", Text(invoice.vendor), Text(po.vendor), High, "Vendor names do not match")
  {
    var fs := Findings(invoice, po);
    assert fs[0] == VendorMismatch(invoice.vendor, po.vendor);
  }

  /** Different item counts are reported, as medium, with the two raw
      counts as the values. */
  lemma CountMismatchReported(invoice: ExtractedData, po: ExtractedData)
    requires |invoice.items| != |po.items|
    ensures Difference("Line Items", Number(|invoice.items| as real), Number(|po.items| as real), Medium,
      "Different number of line items") in CompareDocs(invoice, po)
  {
    var f := CountMismatch(|invoice.items|, |po.items|);
    FindingsExact(invoice, po);
    assert Holds(f, invoice, po);
    var k :| 0 <= k < |Findings(invoice, po)| && Findings(invoice, po)[k] == f;
    assert CompareDocs(invoice, po)[k] == Render(f);
  }

  /** Each index contributes at most two item differences. */
  lemma {:induction false} ItemFindingsCount(a: seq<LineItem>, b: seq<LineItem>, n: nat)
    requires n <= |a| && n <= |b|
    ensures |ItemFindings(a, b, n)| <= 2 * n
  {
    if n > 0 {
      ItemFindingsCount(a, b, n - 1);
    }
  }

  /** For a positive purchase-order total the tiers are: high above a tenth
      of it, medium above a twentieth, low otherwise. */
  lemma TotalTierThresholds(totalDiff: real, poTotal: real)
    requires poTotal > 0.0 && totalDiff > Tolerance
    ensures TotalSeverity(totalDiff, poTotal) == High <==> totalDiff * 10.0 > poTotal
    ensures TotalSeverity(totalDiff, poTotal) == Medium <==> totalDiff * 10.0 <= poTotal < totalDiff * 20.0
    ensures TotalSeverity(totalDiff, poTotal) == Low <==> totalDiff * 20.0 <= poTotal
  {
    var percent := totalDiff / poTotal * 100.0;
    assert percent * poTotal == totalDiff * 100.0;
    assert TotalSeverity(totalDiff, poTotal) == Tier(Finite(percent));
    PercentThreshold(percent, totalDiff, poTotal, 10.0);
    PercentThreshold(percent, totalDiff, poTotal, 5.0);
  }

  lemma PercentThreshold(percent: real, totalDiff: real, poTotal: real, bound: real)
    requires poTotal > 0.0 && percent * poTotal == totalDiff * 100.0
    ensures percent > bound <==> totalDiff * 100.0 > bound * poTotal
  {
    ScaleComparison(percent, bound, poTotal);
  }

  lemma ScaleComparison(x: real, y: real, p: real)
    requires p > 0.0
    ensures x > y <==> x * p > y * p
  {
    if x > y {
      assert (x - y) * p > 0.0;
    } else {
      assert (y - x) * p >= 0.0;
    }
  }

  /** With the purchase-order total fixed and positive, a larger total
      difference never gets a lower severity. */
  lemma TotalTierMonotone(smaller: real, larger: real, poTotal: real)
    requires poTotal > 0.0 && Tolerance < smaller <= larger
    ensures SeverityRank(TotalSeverity(smaller, poTotal)) <= SeverityRank(TotalSeverity(larger, poTotal))
  {
    TotalTierThresholds(smaller, poTotal);
    TotalTierThresholds(larger, poTotal);
  }

  /** A zero purchase-order total makes the percentage Infinity: the total
      difference is always high and its message shows "Infinity%". */
  lemma ZeroPOTotalIsHigh(invoiceTotal: real)
    requires Abs(invoiceTotal) > Tolerance
    ensures Render(TotalMismatch(invoiceTotal, 0.0)).severity == High
    ensures Render(TotalMismatch(invoiceTotal, 0.0)).message ==
      "Amount differs by $" + ToFixed(Abs(invoiceTotal), 2) + " (Infinity%)"
  {
  }

  /** The label of an item-total difference is "Item {i+1}: " followed by
      the first 30 characters of the invoice item's description. */
  lemma ItemTotalLabel(i: nat, x: LineItem, y: LineItem)
    ensures var shownField := Render(ItemTotalMismatch(i, x, y)).field;
      var head := "Item " + Digits(i + 1) + ": ";
      head <= shownField && shownField[|head|..] <= x.description && |shownField| - |head| == Min(|x.description|, LabelWidth)
  {
    var head := "Item " + Digits(i + 1) + ": ";
    var shown := Prefix(x.description, LabelWidth);
    assert (head + shown)[|head|..] == shown;
  }

  /** `compareLineItems`: walks every index below the longer length and
      skips those where either list has no item. */
  method CompareLineItems(invoiceItems: seq<LineItem>, poItems: seq<LineItem>) returns (differences: seq<Difference>)
    ensures differences == RenderAll(ItemFindings(invoiceItems, poItems, Min(|invoiceItems|, |poItems|)))
  {
    differences := [];
    var common := Min(|invoiceItems|, |poItems|);
    var maxLength := Max(|invoiceItems|, |poItems|);
    for i := 0 to maxLength
      invariant differences == RenderAll(ItemFindings(invoiceItems, poItems, Min(i, common)))
    {
      if i >= |invoiceItems| || i >= |poItems| {
        assert Min(i + 1, common) == Min(i, common);
        continue;
      }
      var invItem, poItem := invoiceItems[i], poItems[i];
      ghost var found := ItemFindings(invoiceItems, poItems, i);
      assert differences == RenderAll(found);
      if Abs(invItem.total - poItem.total) > Tolerance {
        RenderAllSnoc(found, ItemTotalMismatch(i, invItem, poItem));
        var difference := Difference(
          "Item " + Digits(i + 1) + ": " + Prefix(invItem.description, 30),
          Text("$" + ToFixed(invItem.total, 2)), Text("$" + ToFixed(poItem.total, 2)),
          Medium, "Line item total mismatch");
        assert difference == Render(ItemTotalMismatch(i, invItem, poItem));
        differences := differences + [difference];
        found := found + [ItemTotalMismatch(i, invItem, poItem)];
      }
      if invItem.quantity != poItem.quantity {
        RenderAllSnoc(found, ItemQuantityMismatch(i, invItem.quantity, poItem.quantity));
        var difference := Difference(
          "Item " + Digits(i + 1) + " Quantity", Number(invItem.quantity), Number(poItem.quantity),
          Low, "Quantity mismatch");
        assert difference == Render(ItemQuantityMismatch(i, invItem.quantity, poItem.quantity));
        differences := differences + [difference];
        found := found + [ItemQuantityMismatch(i, invItem.quantity, poItem.quantity)];
      }
      assert found == ItemFindings(invoiceItems, poItems, i + 1);
      assert Min(i + 1, common) == i + 1;
    }
  }

  /** `compareDocuments`: the vendor, total and item-count checks in that
      order, followed by the item differences. */
  method CompareDocuments(invoice: ExtractedData, po: ExtractedData) returns (differences: seq<Difference>)
    ensures differences == CompareDocs(invoice, po)
  {
    differences := [];
    ghost var found: seq<Finding> := [];
    if Lower(invoice.vendor) != Lower(po.vendor) {
      RenderAllSnoc(found, VendorMismatch(invoice.vendor, po.vendor));
      var difference := Difference(
        "Vendor", Text(invoice.vendor), Text(po.vendor), High, "Vendor names do not match");
      assert difference == Render(VendorMismatch(invoice.vendor, po.vendor));
      differences := differences + [difference];
      found := found + [VendorMismatch(invoice.vendor, po.vendor)];
    }
    assert found == VendorFindings(invoice, po);
    var totalDiff := Abs(invoice.total - po.total);
    if totalDiff > Tolerance {
      RenderAllSnoc(found, TotalMismatch(invoice.total, po.total));
      var percentDiff := PercentDiff(totalDiff, po.total);
      var severity := if percentDiff.Infinity? || percentDiff.value > 10.0 then High
        else if percentDiff.value > 5.0 then Medium else Low;
      assert severity == Tier(percentDiff);
      var difference := Difference(
        "Total Amount", Text("$" + ToFixed(invoice.total, 2)), Text("$" + ToFixed(po.total, 2)), severity,
        "Amount differs by $" + ToFixed(totalDiff, 2) + " (" + FormatPercent(percentDiff) + "%)");
      assert difference == Render(TotalMismatch(invoice.total, po.total));
      differences := differences + [difference];
      found := found + [TotalMismatch(invoice.total, po.total)];
    }
    assert found == VendorFindings(invoice, po) + TotalFindings(invoice, po);
    if |invoice.items| != |po.items| {
      RenderAllSnoc(found, CountMismatch(|invoice.items|, |po.items|));
      var difference := Difference(
        "Line Items", Number(|invoice.items| as real), Number(|po.items| as real),
        Medium, "Different number of line items");
      assert difference == Render(CountMismatch(|invoice.items|, |po.items|));
      differences := differences + [difference];
      found := found + [CountMismatch(|invoice.items|, |po.items|)];
    }
    assert found == HeadFindings(invoice, po);
    var itemDiffs := CompareLineItems(invoice.items, po.items);
    RenderAllAppend(found, ItemFindings(invoice.items, po.items, Min(|invoice.items|, |po.items|)));
    differences := differences + itemDiffs;
  }
}
