/** The records exchanged by the matching engine (src/types.ts).
    Monetary amounts and quantities are JavaScript numbers in the source;
    here they are exact reals. */
module Types {

  datatype Option<+T> = None | Some(value: T)

  /** One line of a document. `total` is taken as extracted, never re-derived. */
  datatype LineItem = LineItem(description: string, quantity: real, unitPrice: real, total: real)

  /** The structured content of one invoice or purchase order. */
  datatype ExtractedData = ExtractedData(
    documentNumber: string,
    vendor: string,
    date: string,
    total: real,
    items: seq<LineItem>,
    rawText: Option<string>)

  /** One key/record pair of a `Map<string, ExtractedData>`; a map is a
      sequence of entries in insertion order. */
  datatype Entry = Entry(id: string, doc: ExtractedData)

  /** `invoiceValue` / `poValue` hold either a display string or a raw number. */
  datatype Value = Text(s: string) | Number(n: real)

  datatype Severity = High | Medium | Low

  datatype Status = Match | Mismatch

  datatype Difference = Difference(
    field: string,
    invoiceValue: Value,
    poValue: Value,
    severity: Severity,
    message: string)

  datatype MatchResult = MatchResult(
    invoiceId: string,
    poId: string,
    invoice: ExtractedData,
    po: ExtractedData,
    status: Status,
    differences: seq<Difference>)

  /** Keys of a map are pairwise distinct. */
  predicate DistinctIds(entries: seq<Entry>)
  {
    forall j, k :: 0 <= j < k < |entries| ==> entries[j].id != entries[k].id
  }
}
