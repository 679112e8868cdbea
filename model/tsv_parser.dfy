/**
 * `TsvParser`: the text of a transport TSV file becomes one `TransportRecord` per data line. The
 * first line names the columns (optionally after "#" or "# "); later lines that start with "#" or
 * are blank are skipped; a data line's tab-separated cells are matched to the column names by
 * position.
 */
module TsvParsing {
  import opened Wrappers
  import opened JavaStrings
  import opened TransportRecords

  const DELIM_COLUMN: string := "\t"
  const PREFIX_COMMENT: string := "#"

  /** `parseHeaderLine`: strip "# " or else "#", then split on tabs (trailing empty names dropped). */
  function ParseHeaderLine(headerLine: string): seq<string> {
    var normalized :=
      if StartsWith(headerLine, PREFIX_COMMENT + " ") then headerLine[2..]
      else if StartsWith(headerLine, PREFIX_COMMENT) then headerLine[1..]
      else headerLine;
    Split(normalized, DELIM_COLUMN)
  }

  /**
   * The map `parseLine` fills for the first `|headers|` columns: column `i` is put under
   * `headers[i]` when the line has a cell `i`, a later column overwriting an earlier one of the same
   * name.
   */
  function PutColumns(headers: seq<string>, fields: seq<string>): map<string, string>
    decreases |headers|
  {
    if headers == [] then map[]
    else
      var last := |headers| - 1;
      var before := PutColumns(headers[..last], fields);
      if last < |fields| then before[headers[last] := fields[last]] else before
  }

  function RecordOf(line: string, headers: seq<string>): TransportRecord {
    TransportRecord(PutColumns(headers, SplitAll(line, DELIM_COLUMN)))
  }

  predicate IsSkipped(line: string) {
    StartsWith(line, PREFIX_COMMENT) || IsBlank(line)
  }

  /** The records of the data lines, in order. */
  function DataRecords(headers: seq<string>, lines: seq<string>): seq<TransportRecord>
    decreases |lines|
  {
    if lines == [] then []
    else (if IsSkipped(lines[0]) then [] else [RecordOf(lines[0], headers)]) + DataRecords(headers, lines[1..])
  }

  /** `parse(contents)`: no lines gives no records; otherwise the first line is the header. */
  function ParseSpec(contents: string): seq<TransportRecord> {
    var lines := Lines(contents);
    if lines == [] then [] else DataRecords(ParseHeaderLine(lines[0]), lines[1..])
  }

  /** `parseLine(line, headers)`. */
  method ParseLine(line: string, headers: seq<string>) returns (record: TransportRecord)
    ensures record == RecordOf(line, headers)
  {
    var fields := SplitAll(line, DELIM_COLUMN);
    var fieldMap: map<string, string> := map[];
    var i := 0;
    while i < |headers|
      invariant 0 <= i <= |headers|
      invariant fieldMap == PutColumns(headers[..i], fields)
    {
      assert headers[..i + 1][..i] == headers[..i];
      if i < |fields| {
        fieldMap := fieldMap[headers[i] := fields[i]];
      }
      i := i + 1;
    }
    assert headers[..|headers|] == headers;
    record := TransportRecord(fieldMap);
  }

  /** `parse(contents)`: the header line, then every line that is neither a comment nor blank. */
  method Parse(contents: string) returns (records: seq<TransportRecord>)
    ensures records == ParseSpec(contents)
  {
    records := [];
    var lines := Lines(contents);
    if lines == [] {
      return;
    }
    var headers := ParseHeaderLine(lines[0]);
    var k := 1;
    while k < |lines|
      invariant 1 <= k <= |lines|
      invariant DataRecords(headers, lines[1..]) == records + DataRecords(headers, lines[k..])
    {
      var line := lines[k];
      var next := records;
      if !IsSkipped(line) {
        var record := ParseLine(line, headers);
        next := records + [record];
      }
      DataRecordsAdvance(headers, lines, k, records, next);
      records := next;
      k := k + 1;
    }
    ParseSpecOfScan(contents, headers, records, k);
  }

  /** The records of the lines from `k` on: the record of line `k` unless it is skipped, then the rest. */
  lemma DataRecordsStep(headers: seq<string>, lines: seq<string>, k: nat)
    requires k < |lines|
    ensures DataRecords(headers, lines[k..]) ==
      (if IsSkipped(lines[k]) then [] else [RecordOf(lines[k], headers)]) + DataRecords(headers, lines[k + 1..])
  {
    assert lines[k..][1..] == lines[k + 1..];
  }

  /** The loop invariant of `Parse` survives one line, whether it is skipped or read. */
  lemma DataRecordsAdvance(headers: seq<string>, lines: seq<string>, k: nat, records: seq<TransportRecord>, next: seq<TransportRecord>)
    requires 1 <= k < |lines|
    requires DataRecords(headers, lines[1..]) == records + DataRecords(headers, lines[k..])
    requires next == records + (if IsSkipped(lines[k]) then [] else [RecordOf(lines[k], headers)])
    ensures DataRecords(headers, lines[1..]) == next + DataRecords(headers, lines[k + 1..])
  {
    DataRecordsStep(headers, lines, k);
  }

  /** Once every line is scanned, the records gathered are those of `parse`. */
  lemma ParseSpecOfScan(contents: string, headers: seq<string>, records: seq<TransportRecord>, k: nat)
    requires Lines(contents) != [] && headers == ParseHeaderLine(Lines(contents)[0])
    requires k == |Lines(contents)|
    requires DataRecords(headers, Lines(contents)[1..]) == records + DataRecords(headers, Lines(contents)[k..])
    ensures records == ParseSpec(contents)
  {
    assert Lines(contents)[k..] == [];
  }

  // ---------------------------------------------------------------------------------------
  // Properties
  // ---------------------------------------------------------------------------------------

  /** The record's columns are exactly the header names that have a cell on the line. */
  lemma {:induction false} PutColumnsKeys(headers: seq<string>, fields: seq<string>, key: string)
    ensures key in PutColumns(headers, fields) <==> exists i :: 0 <= i < |headers| && i < |fields| && headers[i] == key
    decreases |headers|
  {
    if headers != [] {
      var last := |headers| - 1;
      PutColumnsKeys(headers[..last], fields, key);
      if exists i :: 0 <= i < |headers| && i < |fields| && headers[i] == key {
        var i :| 0 <= i < |headers| && i < |fields| && headers[i] == key;
        if i < last {
          assert headers[..last][i] == key;
        }
      }
      if exists i :: 0 <= i < last && i < |fields| && headers[..last][i] == key {
        var i :| 0 <= i < last && i < |fields| && headers[..last][i] == key;
        assert headers[i] == key;
      }
    }
  }

  /** With distinct column names, column `i` holds cell `i`. */
  lemma {:induction false} PutColumnsValues(headers: seq<string>, fields: seq<string>)
    requires forall i, j :: 0 <= i < j < |headers| ==> headers[i] != headers[j]
    ensures forall i :: 0 <= i < |headers| && i < |fields| ==>
      headers[i] in PutColumns(headers, fields) && PutColumns(headers, fields)[headers[i]] == fields[i]
    decreases |headers|
  {
    if headers != [] {
      var last := |headers| - 1;
      PutColumnsValues(headers[..last], fields);
      forall i | 0 <= i < |headers| && i < |fields|
        ensures headers[i] in PutColumns(headers, fields) && PutColumns(headers, fields)[headers[i]] == fields[i]
      {
        if i < last {
          assert headers[..last][i] == headers[i];
        }
      }
    }
  }

  /** Records of consecutive stretches of lines concatenate. */
  lemma {:induction false} DataRecordsAppend(headers: seq<string>, a: seq<string>, b: seq<string>)
    ensures DataRecords(headers, a + b) == DataRecords(headers, a) + DataRecords(headers, b)
    decreases |a|
  {
    if a == [] {
      assert a + b == b;
    } else {
      assert (a + b)[1..] == a[1..] + b;
      DataRecordsAppend(headers, a[1..], b);
    }
  }

  /** A comment or blank line anywhere among the data lines contributes nothing. */
  lemma SkippedLineIgnored(headers: seq<string>, before: seq<string>, line: string, after: seq<string>)
    requires IsSkipped(line)
    ensures DataRecords(headers, before + [line] + after) == DataRecords(headers, before + after)
  {
    DataRecordsAppend(headers, before + [line], after);
    DataRecordsAppend(headers, before, [line]);
    DataRecordsAppend(headers, before, after);
  }

  /**
   * One record per data line: the records of `lines[from..]` are as many as the lines there that are
   * neither comments nor blank.
   */
  lemma {:induction false} OneRecordPerDataLine(headers: seq<string>, lines: seq<string>, from: nat)
    requires from <= |lines|
    ensures |DataRecords(headers, lines[from..])| == |DataLineIndices(lines, from)|
    decreases |lines| - from
  {
    if from < |lines| {
      OneRecordPerDataLine(headers, lines, from + 1);
      assert lines[from..][1..] == lines[from + 1..];
      var rest := DataLineIndices(lines, from + 1);
      if IsSkipped(lines[from]) {
        assert DataLineIndices(lines, from) == rest;
      } else {
        assert DataLineIndices(lines, from) == rest + {from};
      }
    } else {
      assert DataLineIndices(lines, from) == {};
    }
  }

  function DataLineIndices(lines: seq<string>, from: nat): set<int> {
    set i | from <= i < |lines| && !IsSkipped(lines[i])
  }

  /** Lines joined by "\n" that contain no terminator are read back by the line scanner. */
  lemma {:induction false} LinesOfJoin(ls: seq<string>)
    requires |ls| >= 1 && ls[|ls| - 1] != ""
    requires forall i :: 0 <= i < |ls| ==> SingleLine(ls[i])
    ensures Lines(Join(ls, "\n")) == ls
    decreases |ls|
  {
    if |ls| == 1 {
      LinesOfSingle(ls[0]);
    } else {
      var tail := ls[1..];
      assert forall i :: 0 <= i < |tail| ==> tail[i] == ls[i + 1];
      LinesOfJoin(tail);
      LinesOfJoinCons(ls);
      assert ls == [ls[0]] + tail;
    }
  }

  /** A non-empty line without terminators is read as itself. */
  lemma LinesOfSingle(line: string)
    requires line != "" && SingleLine(line)
    ensures Lines(Join([line], "\n")) == [line]
  {
    assert Join([line], "\n") == line;
    assert LineEnd(line) == |line|;
  }

  /** Joining peels off the first line, which the scanner reads back first. */
  lemma LinesOfJoinCons(ls: seq<string>)
    requires |ls| >= 2 && SingleLine(ls[0])
    ensures Lines(Join(ls, "\n")) == [ls[0]] + Lines(Join(ls[1..], "\n"))
  {
    LinesOfLineThenRest(ls[0], Join(ls[1..], "\n"));
  }

  /** A terminator-free line followed by "\n" is read as that line, then the lines of the rest. */
  lemma LinesOfLineThenRest(first: string, rest: string)
    requires SingleLine(first)
    ensures Lines(first + "\n" + rest) == [first] + Lines(rest)
  {
    var s := first + "\n" + rest;
    assert s[|first|] == '\n';
    assert forall i :: 0 <= i < |first| ==> s[i] == first[i];
    assert LineEnd(s) == |first|;
    assert s[..|first|] == first;
    assert s[|first| + 1..] == rest;
  }

  /** The cells of a tab-separated line that holds no tab inside a cell. */
  function TabJoin(cells: seq<string>): string
    requires |cells| >= 1
  {
    Join(cells, DELIM_COLUMN)
  }

  /**
   * A data line made of one cell per column, with distinct column names, is the record that maps
   * each column name to its cell.
   */
  lemma RecordOfJoinedCells(headers: seq<string>, cells: seq<string>)
    requires |cells| == |headers| >= 1
    requires forall i, j :: 0 <= i < j < |headers| ==> headers[i] != headers[j]
    requires forall i :: 0 <= i < |cells| ==> Avoids(cells[i], '\t')
    ensures var r := RecordOf(TabJoin(cells), headers);
      && (forall k :: k in r.fields <==> k in headers)
      && (forall i :: 0 <= i < |headers| ==> r.fields[headers[i]] == cells[i])
  {
    SplitAllOfJoin(cells, DELIM_COLUMN);
    PutColumnsValues(headers, cells);
    forall k
      ensures k in PutColumns(headers, cells) <==> k in headers
    {
      PutColumnsKeys(headers, cells, k);
    }
  }

  /** Text that holds no line terminator. */
  predicate SingleLine(s: string) {
    forall j :: 0 <= j < |s| ==> !IsLineTerminator(s[j])
  }

  /** Cells fit for a row: one per column, no tab or line terminator inside, and a first cell that does not make the line a comment or blank. */
  predicate WellFormedRow(row: seq<string>, columns: nat) {
    && |row| == columns >= 1
    && (forall i :: 0 <= i < |row| ==> Avoids(row[i], '\t') && SingleLine(row[i]))
    && row[0] != "" && row[0][0] != '#' && !IsWhitespace(row[0][0])
  }

  function RowLines(rows: seq<seq<string>>): (lines: seq<string>)
    requires forall r :: 0 <= r < |rows| ==> |rows[r]| >= 1
    ensures |lines| == |rows|
  {
    seq(|rows|, r requires 0 <= r < |rows| => TabJoin(rows[r]))
  }

  /** A transport file: the header line "# name<TAB>name…", then one line per row, joined by "\n". */
  function FormatFile(headers: seq<string>, rows: seq<seq<string>>): string
    requires |headers| >= 1
    requires forall r :: 0 <= r < |rows| ==> |rows[r]| >= 1
  {
    Join(["# " + TabJoin(headers)] + RowLines(rows), "\n")
  }

  lemma JoinSingleLine(parts: seq<string>, d: string)
    requires |parts| >= 1 && SingleLine(d)
    requires forall i :: 0 <= i < |parts| ==> SingleLine(parts[i])
    ensures SingleLine(Join(parts, d))
  {
    JoinChars(parts, d, c => !IsLineTerminator(c));
  }

  /** The line of a well-formed row is neither a comment nor blank. */
  lemma RowLineKept(row: seq<string>, columns: nat)
    requires WellFormedRow(row, columns)
    ensures !IsSkipped(TabJoin(row))
  {
    var line := TabJoin(row);
    JoinStartsWithFirst(row, DELIM_COLUMN);
    assert line[..|PREFIX_COMMENT|] != PREFIX_COMMENT by {
      assert line[..|PREFIX_COMMENT|][0] == line[0];
    }
    assert !IsWhitespace(line[0]);
  }

  /** A record with exactly the given column names, each mapped to the cell at its column. */
  ghost predicate RecordIs(record: TransportRecord, headers: seq<string>, cells: seq<string>)
    requires |cells| == |headers|
  {
    && (forall k :: k in record.fields <==> k in headers)
    && (forall i :: 0 <= i < |headers| ==> headers[i] in record.fields && record.fields[headers[i]] == cells[i])
  }

  lemma {:induction false} RowRecords(headers: seq<string>, rows: seq<seq<string>>, lines: seq<string>)
    requires |headers| >= 1
    requires forall i, j :: 0 <= i < j < |headers| ==> headers[i] != headers[j]
    requires forall r :: 0 <= r < |rows| ==> |rows[r]| == |headers| && WellFormedRow(rows[r], |headers|)
    requires |lines| == |rows| && forall r :: 0 <= r < |rows| ==> lines[r] == TabJoin(rows[r])
    ensures var records := DataRecords(headers, lines);
      && |records| == |rows|
      && forall r :: 0 <= r < |rows| ==> RecordIs(records[r], headers, rows[r])
    decreases |rows|
  {
    if rows != [] {
      RowRecords(headers, rows[1..], lines[1..]);
      RowLineKept(rows[0], |headers|);
      RecordOfJoinedCells(headers, rows[0]);
      var records := DataRecords(headers, lines);
      var rest := DataRecords(headers, lines[1..]);
      assert records == [RecordOf(lines[0], headers)] + rest;
      forall r | 0 <= r < |rows|
        ensures RecordIs(records[r], headers, rows[r])
      {
        if r > 0 {
          assert records[r] == rest[r - 1] && rows[r] == rows[1..][r - 1];
        }
      }
    }
  }

  /**
   * Round trip: a file written with a "# " header line and one line per row, with distinct column
   * names, parses to one record per row that maps each column name to the row's cell.
   */
  lemma ParseFormattedFile(headers: seq<string>, rows: seq<seq<string>>)
    requires |headers| >= 1 && headers[|headers| - 1] != ""
    requires forall i, j :: 0 <= i < j < |headers| ==> headers[i] != headers[j]
    requires forall i :: 0 <= i < |headers| ==> Avoids(headers[i], '\t') && SingleLine(headers[i])
    requires forall r :: 0 <= r < |rows| ==> |rows[r]| == |headers| && WellFormedRow(rows[r], |headers|)
    ensures var records := ParseSpec(FormatFile(headers, rows));
      && |records| == |rows|
      && forall r :: 0 <= r < |rows| ==> RecordIs(records[r], headers, rows[r])
  {
    var headerLine := "# " + TabJoin(headers);
    var rowLines := RowLines(rows);
    var ls := [headerLine] + rowLines;
    JoinSingleLine(headers, DELIM_COLUMN);
    assert SingleLine(headerLine);
    forall r | 0 <= r < |rows|
      ensures SingleLine(rowLines[r]) && rowLines[r] != ""
    {
      JoinSingleLine(rows[r], DELIM_COLUMN);
      JoinStartsWithFirst(rows[r], DELIM_COLUMN);
    }
    assert forall i :: 0 <= i < |ls| ==> SingleLine(ls[i]);
    LinesOfJoin(ls);
    assert StartsWith(headerLine, PREFIX_COMMENT + " ");
    assert headerLine[2..] == TabJoin(headers);
    SplitOfJoin(headers, DELIM_COLUMN);
    assert ParseHeaderLine(headerLine) == headers;
    assert ls[1..] == rowLines;
    RowRecords(headers, rows, rowLines);
  }
}
