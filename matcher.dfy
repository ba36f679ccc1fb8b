/** The matcher of src/utils/documentMatcher.ts (`matchDocuments` and
    `findMatchingPO`). Each `Map<string, ExtractedData>` is a sequence of
    entries in insertion order. The pool of purchase orders is never
    depleted, so several invoices may be paired with the same order. */
module Matcher {
  import opened Types
  import opened JsText
  import opened Comparator

  /** A purchase order is a candidate for an invoice when the vendors agree
      ignoring case, or the document numbers are equal, or the totals differ
      by less than 1. */
  predicate Qualifies(invoice: ExtractedData, po: ExtractedData)
  {
    Lower(po.vendor) == Lower(invoice.vendor) ||
    po.documentNumber == invoice.documentNumber ||
    Abs(po.total - invoice.total) < 1.0
  }

  /** The index of the first candidate in the pool, or |pool| if none. */
  function FirstCandidate(invoice: ExtractedData, pool: seq<Entry>): (k: nat)
    ensures k <= |pool|
    ensures forall j :: 0 <= j < k ==> !Qualifies(invoice, pool[j].doc)
    ensures k < |pool| ==> Qualifies(invoice, pool[k].doc)
  {
    if |pool| == 0 then 0
    else if Qualifies(invoice, pool[0].doc) then 0
    else 1 + FirstCandidate(invoice, pool[1..])
  }

  /** The purchase order chosen for an invoice: the first candidate, else
      the first order of the pool, and nothing only for an empty pool. */
  function SelectPO(invoice: ExtractedData, pool: seq<Entry>): (chosen: Option<Entry>)
    ensures chosen.None? <==> |pool| == 0
    ensures chosen.Some? ==> chosen.value in pool
  {
    if |pool| == 0 then None
    else
      var k := FirstCandidate(invoice, pool);
      Some(if k < |pool| then pool[k] else pool[0])
  }

  /** The first candidate in insertion order wins, whatever comes after it. */
  lemma SelectFirstCandidate(invoice: ExtractedData, pool: seq<Entry>, k: nat)
    requires k < |pool| && Qualifies(invoice, pool[k].doc)
    requires forall j :: 0 <= j < k ==> !Qualifies(invoice, pool[j].doc)
    ensures SelectPO(invoice, pool) == Some(pool[k])
  {
  }

  /** With no candidate at all, the first order of the pool is chosen. */
  lemma SelectFallback(invoice: ExtractedData, pool: seq<Entry>)
    requires |pool| > 0
    requires forall j :: 0 <= j < |pool| ==> !Qualifies(invoice, pool[j].doc)
    ensures SelectPO(invoice, pool) == Some(pool[0])
  {
  }

  /** The result for one pairing; its status is `match` exactly when the
      comparator reports no difference. */
  function Pair(invoice: Entry, po: Entry): (r: MatchResult)
    ensures r.status == Match <==> r.differences == []
  {
    var differences := CompareDocs(invoice.doc, po.doc);
    MatchResult(invoice.id, po.id, invoice.doc, po.doc,
      if |differences| == 0 then Match else Mismatch, differences)
  }

  /** The results for the invoices, in their insertion order. */
  function MatchAll(invoices: seq<Entry>, pool: seq<Entry>): seq<MatchResult>
  {
    if |invoices| == 0 then []
    else
      var last := invoices[|invoices| - 1];
      MatchAll(invoices[..|invoices| - 1], pool) +
        match SelectPO(last.doc, pool)
        case None => []
        case Some(po) => [Pair(last, po)]
  }

  /** An empty pool gives no result at all; otherwise there is exactly one
      result per invoice, in insertion order, pairing the invoice with the
      order `SelectPO` picks for it. */
  lemma {:induction false} MatchAllShape(invoices: seq<Entry>, pool: seq<Entry>)
    ensures |pool| == 0 ==> MatchAll(invoices, pool) == []
    ensures |pool| > 0 ==>
      |MatchAll(invoices, pool)| == |invoices| &&
      forall k :: 0 <= k < |invoices| ==>
        MatchAll(invoices, pool)[k] == Pair(invoices[k], SelectPO(invoices[k].doc, pool).value)
  {
    if |invoices| > 0 {
      var init := invoices[..|invoices| - 1];
      MatchAllShape(init, pool);
      if |pool| > 0 {
        var last := invoices[|invoices| - 1];
        var results := MatchAll(invoices, pool);
        assert results == MatchAll(init, pool) + [Pair(last, SelectPO(last.doc, pool).value)];
        forall k | 0 <= k < |invoices|
          ensures results[k] == Pair(invoices[k], SelectPO(invoices[k].doc, pool).value)
        {
          if k < |init| {
            assert init[k] == invoices[k];
          }
        }
      }
    }
  }

  /** Each result carries the invoice entry and a purchase-order entry of
      the inputs unchanged, the comparator's differences for that pair, and
      the status `match` exactly when there is no difference. */
  lemma ResultContents(invoices: seq<Entry>, pool: seq<Entry>, k: nat)
    requires |pool| > 0 && k < |invoices|
    ensures k < |MatchAll(invoices, pool)|
    ensures var r := MatchAll(invoices, pool)[k];
      r.invoiceId == invoices[k].id && r.invoice == invoices[k].doc &&
      Entry(r.poId, r.po) in pool &&
      r.differences == CompareDocs(r.invoice, r.po) &&
      (r.status == Match <==> r.differences == [])
  {
    MatchAllShape(invoices, pool);
  }

  /** Distinct invoice keys give results with distinct invoice keys. */
  lemma DistinctInvoiceIds(invoices: seq<Entry>, pool: seq<Entry>)
    requires DistinctIds(invoices)
    ensures forall j, k :: 0 <= j < k < |MatchAll(invoices, pool)| ==>
      MatchAll(invoices, pool)[j].invoiceId != MatchAll(invoices, pool)[k].invoiceId
  {
    MatchAllShape(invoices, pool);
  }

  /** `findMatchingPO`: scans the pool in insertion order and returns the
      first candidate, else falls back to the pool's first entry. */
  method FindMatchingPO(invoice: ExtractedData, pos: seq<Entry>) returns (chosen: Option<Entry>)
    ensures chosen == SelectPO(invoice, pos)
  {
    for i := 0 to |pos|
      invariant forall j :: 0 <= j < i ==> !Qualifies(invoice, pos[j].doc)
    {
      var po := pos[i].doc;
      if Lower(po.vendor) == Lower(invoice.vendor) ||
         po.documentNumber == invoice.documentNumber ||
         Abs(po.total - invoice.total) < 1.0
      {
        SelectFirstCandidate(invoice, pos, i);
        return Some(pos[i]);
      }
    }
    if |pos| > 0 {
      return Some(pos[0]);
    }
    return None;
  }

  /** `matchDocuments`: one result per invoice that found a purchase order. */
  method MatchDocuments(invoices: seq<Entry>, pos: seq<Entry>) returns (results: seq<MatchResult>)
    ensures results == MatchAll(invoices, pos)
  {
    results := [];
    for i := 0 to |invoices|
      invariant results == MatchAll(invoices[..i], pos)
    {
      var invoice := invoices[i];
      assert invoices[..i + 1][..i] == invoices[..i];
      var matchingPO := FindMatchingPO(invoice.doc, pos);
      if matchingPO.Some? {
        var po := matchingPO.value;
        var differences := CompareDocuments(invoice.doc, po.doc);
        results := results + [MatchResult(invoice.id, po.id, invoice.doc, po.doc,
          if |differences| == 0 then Match else Mismatch, differences)];
      }
    }
    assert invoices[..|invoices|] == invoices;
  }
}
