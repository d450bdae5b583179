/**
  Reading an import file: the entries that the CSV reader yields, split into
  cells, are numbered in their order. An entry whose cells are all blank is
  skipped but counted, and the limits refuse the file as a whole. The reader
  itself drops empty lines and joins quoted line breaks, so a number counts its
  entries and not lines of text.
*/
module CsvParse {
  import opened Options

  const MAX_CELL_BYTES := 60000

  datatype Entry = Cells(cells: seq<string>) | Malformed

  datatype Record = Record(rowNo: int, values: map<string, string>)

  datatype Parsed = Parsed(header: seq<string>, records: seq<Record>, raw: map<int, seq<string>>)

  datatype FileError = MalformedEntry(rowNo: int) | CellTooLong(rowNo: int) | TooManyRows | NoDataRows

  /** The reader refuses an entry whose number of cells differs from the header's. */
  predicate Readable(header: seq<string>, entry: Entry) { entry.Cells? && |entry.cells| == |header| }

  predicate Oversized(entry: Entry)
    requires entry.Cells?
  {
    exists c :: 0 <= c < |entry.cells| && |entry.cells[c]| > 60000
  }

  predicate Acceptable(header: seq<string>, entry: Entry) { Readable(header, entry) && !Oversized(entry) }

  predicate Blank(trim: string -> string, entry: Entry)
    requires entry.Cells?
  {
    forall c :: 0 <= c < |entry.cells| ==> trim(entry.cells[c]) == ""
  }

  /** How many of the entries hold data. */
  function DataRows(trim: string -> string, entries: seq<Entry>): nat
    requires forall i :: 0 <= i < |entries| ==> entries[i].Cells?
    decreases |entries|
  {
    if entries == [] then 0
    else DataRows(trim, entries[..|entries| - 1]) + (if Blank(trim, entries[|entries| - 1]) then 0 else 1)
  }

  predicate AllAcceptable(header: seq<string>, entries: seq<Entry>) {
    forall i :: 0 <= i < |entries| ==> Acceptable(header, entries[i])
  }

  predicate DistinctHeader(header: seq<string>) {
    forall i, j :: 0 <= i < j < |header| ==> header[i] != header[j]
  }

  /** A record is the entry it is numbered after, column by column. */
  ghost predicate Mirrors(header: seq<string>, trim: string -> string, entry: Entry, r: Record)
    requires Readable(header, entry)
  {
    && r.values.Keys == (set c | 0 <= c < |header| :: header[c])
    && forall c :: 0 <= c < |header| ==> header[c] in r.values && r.values[header[c]] == trim(entry.cells[c])
  }

  /** The records are exactly the data entries, in file order, under their own numbers. */
  ghost predicate Collected(header: seq<string>, trim: string -> string, entries: seq<Entry>, p: Parsed)
    requires AllAcceptable(header, entries)
  {
    && p.header == header
    && |p.records| == DataRows(trim, entries)
    && (forall n, m :: 0 <= n < m < |p.records| ==> p.records[n].rowNo < p.records[m].rowNo)
    && (forall n :: 0 <= n < |p.records| ==> FromEntry(header, trim, entries, p, p.records[n]))
    && (forall i :: 0 <= i < |entries| && !Blank(trim, entries[i]) ==> Recorded(p, i + 1))
    && (forall k :: k in p.raw ==> Recorded(p, k))
  }

  ghost predicate Recorded(p: Parsed, rowNo: int) {
    exists n :: 0 <= n < |p.records| && p.records[n].rowNo == rowNo
  }

  ghost predicate FromEntry(header: seq<string>, trim: string -> string, entries: seq<Entry>, p: Parsed, r: Record)
    requires AllAcceptable(header, entries)
  {
    && 1 <= r.rowNo <= |entries|
    && !Blank(trim, entries[r.rowNo - 1])
    && Mirrors(header, trim, entries[r.rowNo - 1], r)
    && r.rowNo in p.raw && p.raw[r.rowNo] == entries[r.rowNo - 1].cells
  }

  /** The first problem in file order is the one reported. */
  ghost predicate Explains(header: seq<string>, trim: string -> string, entries: seq<Entry>, maxRows: nat, e: FileError) {
    match e
    case MalformedEntry(n) =>
      1 <= n <= |entries| && AllAcceptable(header, entries[..n - 1]) && !Readable(header, entries[n - 1]) && DataRows(trim, entries[..n - 1]) <= maxRows
    case CellTooLong(n) =>
      1 <= n <= |entries| && AllAcceptable(header, entries[..n - 1]) && Readable(header, entries[n - 1]) && Oversized(entries[n - 1])
      && DataRows(trim, entries[..n - 1]) <= maxRows
    case TooManyRows =>
      exists n :: 0 <= n < |entries| && AllAcceptable(header, entries[..n + 1]) && DataRows(trim, entries[..n]) == maxRows && !Blank(trim, entries[n])
    case NoDataRows =>
      AllAcceptable(header, entries) && DataRows(trim, entries) == 0
  }

  /** The row as a map from column name to trimmed cell. */
  method Values(header: seq<string>, trim: string -> string, entry: Entry) returns (values: map<string, string>)
    requires Readable(header, entry) && DistinctHeader(header)
    ensures forall rowNo :: Mirrors(header, trim, entry, Record(rowNo, values))
  {
    values := map[];
    for c := 0 to |header|
      invariant values.Keys == (set d | 0 <= d < c :: header[d])
      invariant forall d :: 0 <= d < c ==> header[d] in values && values[header[d]] == trim(entry.cells[d])
    {
      values := values[header[c] := trim(entry.cells[c])];
    }
  }

  /** Whether a cell is too long, and whether every cell is blank, in one pass over the cells. */
  method Inspect(trim: string -> string, entry: Entry) returns (tooLong: bool, empty: bool)
    requires entry.Cells?
    ensures tooLong <==> Oversized(entry)
    ensures !tooLong ==> (empty <==> Blank(trim, entry))
  {
    tooLong, empty := false, true;
    for c := 0 to |entry.cells|
      invariant forall d :: 0 <= d < c ==> |entry.cells[d]| <= MAX_CELL_BYTES
      invariant empty <==> forall d :: 0 <= d < c ==> trim(entry.cells[d]) == ""
    {
      if |entry.cells[c]| > MAX_CELL_BYTES {
        return true, false;
      }
      empty := empty && trim(entry.cells[c]) == "";
    }
  }

  lemma PrefixData(trim: string -> string, entries: seq<Entry>, i: nat)
    requires i < |entries| && forall x :: 0 <= x <= i ==> entries[x].Cells?
    ensures DataRows(trim, entries[..i + 1]) == DataRows(trim, entries[..i]) + (if Blank(trim, entries[i]) then 0 else 1)
  {
    assert entries[..i + 1][..i] == entries[..i];
  }

  lemma LongerFile(header: seq<string>, trim: string -> string, entries: seq<Entry>, i: nat, p: Parsed, q: Parsed, r: Record)
    requires i < |entries| && AllAcceptable(header, entries[..i + 1]) && AllAcceptable(header, entries[..i])
    requires FromEntry(header, trim, entries[..i], p, r)
    requires r.rowNo in q.raw && q.raw[r.rowNo] == p.raw[r.rowNo]
    ensures FromEntry(header, trim, entries[..i + 1], q, r)
  {
    assert entries[..i][r.rowNo - 1] == entries[..i + 1][r.rowNo - 1];
  }

  lemma SkipsBlank(header: seq<string>, trim: string -> string, entries: seq<Entry>, i: nat, p: Parsed)
    requires i < |entries| && AllAcceptable(header, entries[..i + 1]) && AllAcceptable(header, entries[..i])
    requires Collected(header, trim, entries[..i], p) && Blank(trim, entries[i])
    ensures Collected(header, trim, entries[..i + 1], p)
  {
    PrefixData(trim, entries, i);
    forall n | 0 <= n < |p.records| ensures FromEntry(header, trim, entries[..i + 1], p, p.records[n]) {
      LongerFile(header, trim, entries, i, p, p, p.records[n]);
    }
    var longer := entries[..i + 1];
    forall x | 0 <= x < |longer| && !Blank(trim, longer[x]) ensures Recorded(p, x + 1) {
      assert longer[x] == entries[..i][x];
    }
  }

  function Append(p: Parsed, r: Record, cells: seq<string>): Parsed {
    p.(records := p.records + [r], raw := p.raw[r.rowNo := cells])
  }

  lemma StillRecorded(p: Parsed, r: Record, cells: seq<string>, rowNo: int)
    requires Recorded(p, rowNo) || rowNo == r.rowNo
    ensures Recorded(Append(p, r, cells), rowNo)
  {
    var q := Append(p, r, cells);
    if Recorded(p, rowNo) {
      var n :| 0 <= n < |p.records| && p.records[n].rowNo == rowNo;
      assert q.records[n].rowNo == rowNo;
    } else {
      assert q.records[|p.records|].rowNo == rowNo;
    }
  }

  lemma AppendedComeFromEntries(header: seq<string>, trim: string -> string, entries: seq<Entry>, i: nat, p: Parsed, r: Record)
    requires i < |entries| && AllAcceptable(header, entries[..i + 1]) && AllAcceptable(header, entries[..i])
    requires Collected(header, trim, entries[..i], p) && !Blank(trim, entries[i])
    requires r.rowNo == i + 1 && Mirrors(header, trim, entries[i], r)
    ensures var q := Append(p, r, entries[i].cells);
            forall n :: 0 <= n < |q.records| ==> FromEntry(header, trim, entries[..i + 1], q, q.records[n])
  {
    hide Mirrors, Recorded, DataRows;
    var q := Append(p, r, entries[i].cells);
    assert entries[..i + 1][i] == entries[i];
    forall n | 0 <= n < |q.records| ensures FromEntry(header, trim, entries[..i + 1], q, q.records[n]) {
      if n < |p.records| {
        assert FromEntry(header, trim, entries[..i], p, p.records[n]);
        LongerFile(header, trim, entries, i, p, q, p.records[n]);
      }
    }
  }

  lemma AppendedAreRecorded(header: seq<string>, trim: string -> string, entries: seq<Entry>, i: nat, p: Parsed, r: Record)
    requires i < |entries| && AllAcceptable(header, entries[..i + 1]) && AllAcceptable(header, entries[..i])
    requires Collected(header, trim, entries[..i], p) && r.rowNo == i + 1
    ensures var q, longer := Append(p, r, entries[i].cells), entries[..i + 1];
            && (forall x :: 0 <= x < |longer| && !Blank(trim, longer[x]) ==> Recorded(q, x + 1))
            && (forall k :: k in q.raw ==> Recorded(q, k))
  {
    hide Mirrors, FromEntry, DataRows, Blank, Recorded;
    var q := Append(p, r, entries[i].cells);
    var longer := entries[..i + 1];
    forall x | 0 <= x < |longer| && !Blank(trim, longer[x]) ensures Recorded(q, x + 1) {
      if x < i { assert longer[x] == entries[..i][x]; }
      StillRecorded(p, r, entries[i].cells, x + 1);
    }
    forall k | k in q.raw ensures Recorded(q, k) {
      StillRecorded(p, r, entries[i].cells, k);
    }
  }

  lemma AppendsData(header: seq<string>, trim: string -> string, entries: seq<Entry>, i: nat, p: Parsed, r: Record)
    requires i < |entries| && AllAcceptable(header, entries[..i + 1]) && AllAcceptable(header, entries[..i])
    requires Collected(header, trim, entries[..i], p) && !Blank(trim, entries[i])
    requires r.rowNo == i + 1 && Mirrors(header, trim, entries[i], r)
    ensures Collected(header, trim, entries[..i + 1], Append(p, r, entries[i].cells))
  {
    hide Mirrors, FromEntry, DataRows, Blank, Recorded;
    PrefixData(trim, entries, i);
    AppendedComeFromEntries(header, trim, entries, i, p, r);
    AppendedAreRecorded(header, trim, entries, i, p, r);
    RowNumbersFit(header, trim, entries, i, p);
  }

  lemma RowNumbersFit(header: seq<string>, trim: string -> string, entries: seq<Entry>, i: nat, p: Parsed)
    requires i <= |entries| && AllAcceptable(header, entries[..i]) && Collected(header, trim, entries[..i], p)
    ensures forall n :: 0 <= n < |p.records| ==> p.records[n].rowNo <= i
  {
    hide Mirrors, Blank, Recorded, DataRows;
  }

  lemma CollectedCounts(header: seq<string>, trim: string -> string, entries: seq<Entry>, p: Parsed)
    requires AllAcceptable(header, entries) && Collected(header, trim, entries, p)
    ensures |p.records| == DataRows(trim, entries)
  {}

  lemma NothingCollected(header: seq<string>, trim: string -> string)
    ensures Collected(header, trim, [], Parsed(header, [], map[]))
  {}

  /** A file is accepted with exactly its data entries, or refused for its first problem. */
  method Parse(header: seq<string>, trim: string -> string, entries: seq<Entry>, maxRows: nat) returns (out: Result<Parsed, FileError>)
    requires DistinctHeader(header)
    ensures out.Ok? <==> AllAcceptable(header, entries) && 0 < DataRows(trim, entries) <= maxRows
    ensures out.Ok? ==> Collected(header, trim, entries, out.value)
    ensures out.Err? ==> Explains(header, trim, entries, maxRows, out.error)
  {
    hide Collected, Mirrors, Blank, Oversized;
    var p := Parsed(header, [], map[]);
    NothingCollected(header, trim);
    assert entries[..0] == [];
    for i := 0 to |entries|
      invariant AllAcceptable(header, entries[..i])
      invariant Collected(header, trim, entries[..i], p)
      invariant |p.records| <= maxRows
    {
      CollectedCounts(header, trim, entries[..i], p);
      if !(entries[i].Cells? && |entries[i].cells| == |header|) {
        return Err(MalformedEntry(i + 1));
      }
      var tooLong, empty := Inspect(trim, entries[i]);
      if tooLong {
        return Err(CellTooLong(i + 1));
      }
      assert AllAcceptable(header, entries[..i + 1]);
      var values := Values(header, trim, entries[i]);
      if empty {
        SkipsBlank(header, trim, entries, i, p);
      } else {
        if |p.records| == maxRows {
          DataGrows(header, trim, entries, i);
          return Err(TooManyRows);
        }
        AppendsData(header, trim, entries, i, p, Record(i + 1, values));
        p := p.(records := p.records + [Record(i + 1, values)], raw := p.raw[i + 1 := entries[i].cells]);
      }
    }
    assert entries[..|entries|] == entries;
    CollectedCounts(header, trim, entries, p);
    if |p.records| == 0 {
      return Err(NoDataRows);
    }
    return Ok(p);
  }

  lemma DataGrows(header: seq<string>, trim: string -> string, entries: seq<Entry>, i: nat)
    requires i < |entries| && AllAcceptable(header, entries[..i + 1])
    ensures AllAcceptable(header, entries) ==> DataRows(trim, entries) >= DataRows(trim, entries[..i]) + (if Blank(trim, entries[i]) then 0 else 1)
    decreases |entries| - i
  {
    if AllAcceptable(header, entries) {
      PrefixData(trim, entries, i);
      if i + 1 < |entries| {
        DataGrows(header, trim, entries, i + 1);
      } else {
        assert entries[..i + 1] == entries;
      }
    }
  }
}
