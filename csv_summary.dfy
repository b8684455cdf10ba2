/** The summary of the CSV pipeline. The file is given as the records `csv.reader` yields
    for it, each a sequence of fields; the first record is the header. */
module CsvSummary {
  import opened Outcomes
  import opened Decimal
  import opened PyRepr

  type Record = seq<string>

  const RowsLabel: string := "Number of rows: "
  const ColumnsLabel: string := "Columns: "

  /** What `process_csv_file` writes: the number of records after the header, then the
      header as Python prints a list. Without any record, `next(reader)` raises
      `StopIteration`, which the function's `except IOError` does not catch. */
  function Summarize(records: seq<Record>): (r: Result<string, Escaped>)
    ensures r.Err? <==> records == []
    ensures r.Err? ==> r.error == StopIteration
  {
    if records == [] then Err(StopIteration)
    else Ok(RowsLabel + NatToString(|records| - 1) + "\n" + ColumnsLabel + ListRepr(records[0]) + "\n")
  }

  /** Reads the `Columns: [...]` line of a summary back as the header. */
  function ReadColumnsLine(u: string): Option<Record>
  {
    var c := |ColumnsLabel|;
    if |u| < c + 1 || u[..c] != ColumnsLabel || u[|u| - 1] != '\n' then None
    else ReadList(u[c..|u| - 1])
  }

  /** Reads a summary back as its row count and header. */
  function ReadSummary(s: string): Option<(nat, Record)>
  {
    var n := |RowsLabel|;
    if |s| < n || s[..n] != RowsLabel then None
    else
      match ReadCount(s[n..])
      case None => None
      case Some((k, m)) =>
        match ReadColumnsLine(s[n + m..])
        case None => None
        case Some(header) => Some((k, header))
  }

  lemma ReadColumnsLineOf(header: Record)
    ensures ReadColumnsLine(ColumnsLabel + ListRepr(header) + "\n") == Some(header)
  {
    var list := ListRepr(header);
    var u := ColumnsLabel + list + "\n";
    assert u[..|ColumnsLabel|] == ColumnsLabel;
    assert u[|ColumnsLabel|..|u| - 1] == list;
    ReadListOfRepr(header);
  }

  /** A rows line whose count reads back, followed by a columns line that reads back,
      reads back as both. */
  lemma ReadSummaryParts(d: string, u: string, k: nat, header: Record)
    requires ReadCount(d + "\n" + u) == Some((k, |d| + 1))
    requires ReadColumnsLine(u) == Some(header)
    ensures ReadSummary(RowsLabel + (d + "\n" + u)) == Some((k, header))
  {
    var s := RowsLabel + (d + "\n" + u);
    var n := |RowsLabel|;
    assert s[..n] == RowsLabel;
    assert s[n..] == d + "\n" + u;
    assert s[n + |d| + 1..] == u;
  }

  /** The summary of a file with a header and `k` further records reads back as exactly
      `k` and that header. */
  lemma ReadSummaryOf(records: seq<Record>)
    requires records != []
    ensures Summarize(records).Ok?
    ensures ReadSummary(Summarize(records).value) == Some((|records| - 1, records[0]))
  {
    var k := |records| - 1;
    var d := NatToString(k);
    var u := ColumnsLabel + ListRepr(records[0]) + "\n";
    assert Summarize(records).value == RowsLabel + (d + "\n" + u);
    ReadCountOf(k, u);
    ReadColumnsLineOf(records[0]);
    ReadSummaryParts(d, u, k, records[0]);
  }

  /** A header `a,b,c` and three data rows. */
  lemma Example(records: seq<Record>)
    requires records == [["a", "b", "c"], ["1", "2", "3"], ["4", "5", "6"], ["7", "8", "9"]]
    ensures Summarize(records) == Ok("Number of rows: 3\n" + "Columns: ['a', 'b', 'c']\n")
  {
    var header := records[0];
    assert header == ["a", "b", "c"];
    ListReprExample();
    assert NatToString(3) == "3";
    var first := RowsLabel + "3" + "\n";
    var second := ColumnsLabel + ListRepr(header) + "\n";
    assert Summarize(records).value == first + second;
    assert first == "Number of rows: 3\n";
    assert second == "Columns: ['a', 'b', 'c']\n";
  }
}
