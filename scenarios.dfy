/** Worked examples of the matching engine on concrete documents. */
module Scenarios {
  import opened Types
  import opened JsText
  import opened Comparator
  import opened Matcher

  function Doc(number: string, vendor: string, total: real, items: seq<LineItem>): ExtractedData
  {
    ExtractedData(number, vendor, "", total, items, None)
  }

  /** Vendors that differ only in case pair the documents, and equal totals
      with no items leave nothing to report. */
  lemma CaseInsensitivePairing()
    ensures var invoice := Doc("INV-1", "Acme", 100.0, []);
      var po := Doc("PO-1", "ACME", 100.0, []);
      MatchAll([Entry("i1", invoice)], [Entry("p1", po)]) ==
        [MatchResult("i1", "p1", invoice, po, Match, [])]
  {
    assert Lower("Acme") == Lower("ACME") by {
      assert forall k :: 0 <= k < 4 ==> Lower("Acme")[k] == Lower("ACME")[k];
    }
  }

  /** `toFixed` of a number that is already a multiple of 10^-f: the
      digits of x * 10^f with the point f digits from the end. */
  lemma FixedExact(x: real, f: nat, n: nat, whole: string, fraction: string)
    requires x >= 0.0 && Scaled(x, f) == n as real
    requires Digits(n) == whole + fraction && |whole| > 0 && |fraction| == f > 0
    ensures ToFixed(x, f) == whole + "." + fraction
  {
    assert RoundHalfUp(n as real) == n;
    var m := whole + fraction;
    assert m[..|m| - f] == whole && m[|m| - f..] == fraction;
  }

  // The numbers below are passed as parameters (`requires x == 120.0`) and
  // their numerals proved in separate small lemmas: with literal arguments
  // the verifier unfolds `ToFixed` and `Digits` eagerly and runs out of
  // resources.

  lemma Digits12000()
    ensures Digits(12000) == "120" + "00"
  {
    assert Digits(120) == "120";
    assert Digits(1200) == "1200";
  }

  lemma Digits10000()
    ensures Digits(10000) == "100" + "00"
  {
    assert Digits(100) == "100";
    assert Digits(1000) == "1000";
  }

  lemma Digits2000()
    ensures Digits(2000) == "20" + "00"
  {
    assert Digits(200) == "200";
  }

  lemma Digits200()
    ensures Digits(200) == "20" + "0"
  {
    assert Digits(20) == "20";
  }

  lemma Digits500()
    ensures Digits(500) == "5" + "00"
  {
    assert Digits(50) == "50";
  }

  lemma Fixed120(x: real)
    requires x == 120.0
    ensures ToFixed(x, 2) == "120.00"
  {
    assert Pow10(2) == 100;
    Digits12000();
    FixedExact(x, 2, 12000, "120", "00");
  }

  lemma Fixed100(x: real)
    requires x == 100.0
    ensures ToFixed(x, 2) == "100.00"
  {
    assert Pow10(2) == 100;
    Digits10000();
    FixedExact(x, 2, 10000, "100", "00");
  }

  lemma Fixed20(x: real)
    requires x == 20.0
    ensures ToFixed(x, 2) == "20.00"
  {
    assert Pow10(2) == 100;
    Digits2000();
    FixedExact(x, 2, 2000, "20", "00");
  }

  lemma Percent20(v: real)
    requires v == 20.0
    ensures FormatPercent(Finite(v)) == "20.0"
  {
    assert Pow10(1) == 10;
    Digits200();
    FixedExact(v, 1, 200, "20", "0");
  }

  lemma Fixed5(x: real)
    requires x == 5.0
    ensures ToFixed(x, 2) == "5.00"
  {
    assert Pow10(2) == 100;
    Digits500();
    FixedExact(x, 2, 500, "5", "00");
  }

  lemma Fixed0(x: real)
    requires x == 0.0
    ensures ToFixed(x, 2) == "0.00"
  {
    assert RoundHalfUp(Scaled(x, 2)) == 0;
    assert ZeroPad(Digits(0), 3) == "000" by {
      assert ZeroPad("00", 3) == "000";
    }
  }

  lemma TwentyPercentShare(invoiceTotal: real, poTotal: real)
    requires invoiceTotal == 120.0 && poTotal == 100.0
    ensures Abs(invoiceTotal - poTotal) == 20.0
    ensures PercentDiff(Abs(invoiceTotal - poTotal), poTotal) == Finite(20.0)
  {
  }

  lemma TwentyPercentMessage(totalDiff: real, share: real)
    requires totalDiff == 20.0 && share == 20.0
    ensures "Amount differs by $" + ToFixed(totalDiff, 2) + " (" + FormatPercent(Finite(share)) + "%)" ==
      "Amount differs by $20.00 (20.0%)"
  {
    Fixed20(totalDiff);
    Percent20(share);
  }

  lemma TwentyPercentValues(invoiceTotal: real, poTotal: real)
    requires invoiceTotal == 120.0 && poTotal == 100.0
    ensures Money(invoiceTotal) == Text("$120.00") && Money(poTotal) == Text("$100.00")
  {
    Fixed120(invoiceTotal);
    Fixed100(poTotal);
  }

  lemma TwentyPercentRender(invoiceTotal: real, poTotal: real)
    requires invoiceTotal == 120.0 && poTotal == 100.0
    ensures Render(TotalMismatch(invoiceTotal, poTotal)) ==
      Difference("Total Amount", Text("$120.00"), Text("$100.00"), High, "Amount differs by $20.00 (20.0%)")
  {
    var totalDiff := Abs(invoiceTotal - poTotal);
    var percent := PercentDiff(totalDiff, poTotal);
    TwentyPercentShare(invoiceTotal, poTotal);
    TwentyPercentValues(invoiceTotal, poTotal);
    assert Tier(percent) == High;
    TwentyPercentMessage(totalDiff, 20.0);
  }

  /** A 20 percent gap against a non-zero order total is high severity and
      is reported as "$20.00 (20.0%)". */
  lemma TwentyPercentGap()
    ensures CompareDocs(Doc("INV-2", "Acme", 120.0, []), Doc("PO-2", "Acme", 100.0, [])) ==
      [Difference("Total Amount", Text("$120.00"), Text("$100.00"), High, "Amount differs by $20.00 (20.0%)")]
  {
    var invoice, po := Doc("INV-2", "Acme", 120.0, []), Doc("PO-2", "Acme", 100.0, []);
    assert Findings(invoice, po) == [TotalMismatch(120.0, 100.0)];
    TwentyPercentRender(120.0, 100.0);
  }

  /** Two invoice items against one order item: the count difference carries
      the raw counts, and only index 0 is compared item by item. */
  lemma ExtraInvoiceItem()
    ensures var bolt := LineItem("Bolt", 10.0, 1.0, 10.0);
      var nut := LineItem("Nut", 5.0, 1.0, 5.0);
      CompareDocs(Doc("INV-3", "Acme", 15.0, [bolt, nut]), Doc("PO-3", "Acme", 15.0, [bolt])) ==
        [Difference("Line Items", Number(2.0), Number(1.0), Medium, "Different number of line items")]
  {
    var bolt := LineItem("Bolt", 10.0, 1.0, 10.0);
    var nut := LineItem("Nut", 5.0, 1.0, 5.0);
    assert ItemFindings([bolt, nut], [bolt], 1) == [];
  }

  lemma ZeroTotalValues(invoiceTotal: real, poTotal: real)
    requires invoiceTotal == 5.0 && poTotal == 0.0
    ensures Money(invoiceTotal) == Text("$5.00") && Money(poTotal) == Text("$0.00")
  {
    Fixed5(invoiceTotal);
    Fixed0(poTotal);
  }

  lemma ZeroTotalMessage(totalDiff: real)
    requires totalDiff == 5.0
    ensures "Amount differs by $" + ToFixed(totalDiff, 2) + " (" + FormatPercent(Infinity) + "%)" ==
      "Amount differs by $5.00 (Infinity%)"
  {
    Fixed5(totalDiff);
  }

  lemma ZeroTotalRender(invoiceTotal: real, poTotal: real)
    requires invoiceTotal == 5.0 && poTotal == 0.0
    ensures Render(TotalMismatch(invoiceTotal, poTotal)) ==
      Difference("Total Amount", Text("$5.00"), Text("$0.00"), High, "Amount differs by $5.00 (Infinity%)")
  {
    var totalDiff := Abs(invoiceTotal - poTotal);
    assert totalDiff == 5.0 && PercentDiff(totalDiff, poTotal) == Infinity;
    ZeroTotalValues(invoiceTotal, poTotal);
    ZeroTotalMessage(totalDiff);
  }

  /** A zero order total: the total difference is high, with "Infinity%". */
  lemma ZeroOrderTotal()
    ensures CompareDocs(Doc("INV-4", "Acme", 5.0, []), Doc("PO-4", "Acme", 0.0, [])) ==
      [Difference("Total Amount", Text("$5.00"), Text("$0.00"), High, "Amount differs by $5.00 (Infinity%)")]
  {
    var invoice, po := Doc("INV-4", "Acme", 5.0, []), Doc("PO-4", "Acme", 0.0, []);
    assert Findings(invoice, po) == [TotalMismatch(5.0, 0.0)];
    ZeroTotalRender(5.0, 0.0);
  }

  /** With no purchase order at all, an invoice produces no result. */
  lemma EmptyPool()
    ensures MatchAll([Entry("i1", Doc("INV-5", "Acme", 1.0, []))], []) == []
  {
  }
}
