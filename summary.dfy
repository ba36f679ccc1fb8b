/** The text report of src/utils/documentMatcher.ts (`generateMatchSummary`):
    the matched and mismatched counts, then, when some result mismatched,
    one block per mismatched result with one line per difference. */
module Summary {
  import opened Types
  import opened JsText

  /** `results.filter(r => r.status === status)`, order kept. */
  function WithStatus(results: seq<MatchResult>, status: Status): seq<MatchResult>
  {
    if |results| == 0 then []
    else
      var last := results[|results| - 1];
      WithStatus(results[..|results| - 1], status) + if last.status == status then [last] else []
  }

  /** The concatenation of f over xs, in order (the text a `forEach` that
      appends f(x) builds). */
  function Concat<T>(xs: seq<T>, f: T -> string): string
  {
    if |xs| == 0 then "" else Concat(xs[..|xs| - 1], f) + f(xs[|xs| - 1])
  }

  /** The plural ending of "invoice": present unless the count is 1. */
  function Plural(n: nat): string
  {
    if n != 1 then "s" else ""
  }

  /** The verb ending of "need": present only when the count is 1. */
  function VerbEnding(n: nat): string
  {
    if n == 1 then "s" else ""
  }

  /** A distinct marker per severity. */
  function Icon(s: Severity): string
  {
    match s
    case High => "🔴"
    case Medium => "🟡"
    case Low => "🟢"
  }

  function CountsText(matched: nat): string
  {
    "Matching Complete!\n\n" + ("✓ " + Digits(matched) + " invoice" + Plural(matched) + " matched perfectly\n")
  }

  function ReviewLine(mismatched: nat): string
  {
    "⚠️ " + Digits(mismatched) + " invoice" + Plural(mismatched) + " need" + VerbEnding(mismatched) + " review\n\n"
  }

  const IssuesHeading: string := "Issues Found:\n"

  function Header(r: MatchResult): string
  {
    "\n📄 Invoice " + r.invoice.documentNumber + ":\n"
  }

  function IssueLine(d: Difference): string
  {
    "  " + Icon(d.severity) + " " + d.message + "\n"
  }

  function Block(r: MatchResult): string
  {
    Header(r) + Concat(r.differences, IssueLine)
  }

  /** The report `generateMatchSummary` returns. */
  function Report(results: seq<MatchResult>): string
  {
    var matched := |WithStatus(results, Match)|;
    var mismatched := |WithStatus(results, Mismatch)|;
    if mismatched > 0 then
      CountsText(matched) + ReviewLine(mismatched) + IssuesHeading + Concat(WithStatus(results, Mismatch), Block)
    else CountsText(matched)
  }

  /** Filtering keeps exactly the results with that status. */
  lemma {:induction false} WithStatusExact(results: seq<MatchResult>, status: Status)
    ensures forall r :: r in WithStatus(results, status) <==> r in results && r.status == status
  {
    if |results| > 0 {
      var init := results[..|results| - 1];
      WithStatusExact(init, status);
      assert results == init + [results[|results| - 1]];
    }
  }

  /** Every result is counted once, as matched or as mismatched. */
  lemma {:induction false} StatusPartition(results: seq<MatchResult>)
    ensures |WithStatus(results, Match)| + |WithStatus(results, Mismatch)| == |results|
  {
    if |results| > 0 {
      StatusPartition(results[..|results| - 1]);
    }
  }

  lemma {:induction false} ConcatAppend<T>(xs: seq<T>, ys: seq<T>, f: T -> string)
    ensures Concat(xs + ys, f) == Concat(xs, f) + Concat(ys, f)
    decreases |ys|
  {
    if |ys| > 0 {
      var init, last := ys[..|ys| - 1], ys[|ys| - 1];
      assert xs + ys == (xs + init) + [last];
      assert (xs + ys)[..|xs + ys| - 1] == xs + init;
      ConcatAppend(xs, init, f);
      calc {
        Concat(xs + ys, f);
        Concat(xs + init, f) + f(last);
        (Concat(xs, f) + Concat(init, f)) + f(last);
        Concat(xs, f) + (Concat(init, f) + f(last));
        Concat(xs, f) + Concat(ys, f);
      }
    } else {
      assert xs + ys == xs;
    }
  }

  /** The text for xs is the text for the elements before index k, then
      f(xs[k]), then the text for the elements after it. */
  lemma ConcatAt<T>(xs: seq<T>, f: T -> string, k: nat)
    requires k < |xs|
    ensures Concat(xs, f) == Concat(xs[..k], f) + f(xs[k]) + Concat(xs[k + 1..], f)
  {
    var front, back := xs[..k + 1], xs[k + 1..];
    calc {
      Concat(xs, f);
      { assert xs == front + back; }
      Concat(front + back, f);
      { ConcatAppend(front, back, f); }
      Concat(front, f) + Concat(back, f);
      { ConcatPrefix(xs, f, k); }
      Concat(xs[..k], f) + f(xs[k]) + Concat(back, f);
    }
  }

  /** Extending a prefix by one element appends that element's text. */
  lemma ConcatPrefix<T>(xs: seq<T>, f: T -> string, k: nat)
    requires k < |xs|
    ensures Concat(xs[..k + 1], f) == Concat(xs[..k], f) + f(xs[k])
  {
    assert xs[..k + 1][..k] == xs[..k];
  }

  lemma AppendAssoc(a: string, b: string, c: string)
    ensures (a + b) + c == a + (b + c)
  {
  }

  /** "invoice" is pluralised exactly when the count is not 1, and "need"
      takes an "s" exactly when it is 1. */
  lemma PluralWording(n: nat)
    ensures Plural(n) == "s" <==> n != 1
    ensures Plural(n) == "" <==> n == 1
    ensures VerbEnding(n) == "s" <==> n == 1
    ensures CountsText(1) == "Matching Complete!\n\n✓ 1 invoice matched perfectly\n"
  {
    assert Digits(1) == "1";
  }

  /** Distinct severities get distinct markers. */
  lemma IconsDistinct(a: Severity, b: Severity)
    ensures Icon(a) == Icon(b) <==> a == b
  {
  }

  /** The report is only the counts (no "Issues Found" section) exactly when
      no result mismatched, and then every result counts as matched. */
  lemma IssuesOnlyWhenMismatched(results: seq<MatchResult>)
    ensures Report(results) == CountsText(|WithStatus(results, Match)|) <==> |WithStatus(results, Mismatch)| == 0
    ensures |WithStatus(results, Mismatch)| == 0 ==> Report(results) == CountsText(|results|)
  {
    StatusPartition(results);
    var mismatched := |WithStatus(results, Mismatch)|;
    if mismatched > 0 {
      assert |Report(results)| > |CountsText(|WithStatus(results, Match)|)|;
    }
  }

  /** The issues section lists the mismatched results in input order; the
      k-th one gets its header, then one marked line per difference in
      order, between the blocks of the results before and after it. */
  lemma IssueBlockAt(results: seq<MatchResult>, k: nat, j: nat)
    requires k < |WithStatus(results, Mismatch)|
    requires j < |WithStatus(results, Mismatch)[k].differences|
    ensures var flagged := WithStatus(results, Mismatch);
      var r := flagged[k];
      Report(results) ==
        CountsText(|WithStatus(results, Match)|) + ReviewLine(|flagged|) + IssuesHeading +
        (Concat(flagged[..k], Block) +
         (Header(r) + (Concat(r.differences[..j], IssueLine) + IssueLine(r.differences[j]) + Concat(r.differences[j + 1..], IssueLine))) +
         Concat(flagged[k + 1..], Block))
  {
    var flagged := WithStatus(results, Mismatch);
    var r := flagged[k];
    ConcatAt(flagged, Block, k);
    ConcatAt(r.differences, IssueLine, j);
  }

  /** `generateMatchSummary`. */
  method GenerateMatchSummary(results: seq<MatchResult>) returns (summary: string)
    ensures summary == Report(results)
  {
    var matched := |WithStatus(results, Match)|;
    var mismatched := |WithStatus(results, Mismatch)|;

    summary := "Matching Complete!\n\n";
    summary := summary + ("✓ " + Digits(matched) + " invoice" + (if matched != 1 then "s" else "") + " matched perfectly\n");

    if mismatched > 0 {
      summary := summary + ("⚠️ " + Digits(mismatched) + " invoice" + (if mismatched != 1 then "s" else "")
        + " need" + (if mismatched == 1 then "s" else "") + " review\n\n");
      summary := summary + "Issues Found:\n";
      ghost var intro := summary;
      var flagged := WithStatus(results, Mismatch);
      for i := 0 to |flagged|
        invariant summary == intro + Concat(flagged[..i], Block)
      {
        var result := flagged[i];
        ghost var before := summary;
        summary := summary + ("\n📄 Invoice " + result.invoice.documentNumber + ":\n");
        ghost var head := summary;
        var diffs := result.differences;
        for j := 0 to |diffs|
          invariant summary == head + Concat(diffs[..j], IssueLine)
        {
          var diff := diffs[j];
          var icon := if diff.severity == High then "🔴" else if diff.severity == Medium then "🟡" else "🟢";
          ConcatPrefix(diffs, IssueLine, j);
          AppendAssoc(head, Concat(diffs[..j], IssueLine), IssueLine(diff));
          summary := summary + ("  " + icon + " " + diff.message + "\n");
        }
        assert diffs[..|diffs|] == diffs;
        AppendAssoc(before, Header(result), Concat(diffs, IssueLine));
        ConcatPrefix(flagged, Block, i);
        AppendAssoc(intro, Concat(flagged[..i], Block), Block(result));
      }
      assert flagged[..|flagged|] == flagged;
    }
  }
}
