/** Go's `encoding/csv`, seen at the level of records: a file is the
    sequence of rows written to it, one row per line. Quoting and escaping
    are not modelled; a row whose fields hold no comma, quote or line break
    is written as its fields joined by commas. */
module CsvRows {
  import opened Wrappers
  import opened Strings

  type Row = seq<string>

  datatype ReadError = WrongNumberOfFields

  /** A row the writer renders as an empty line: no field, or a single
      empty field. */
  predicate Blank(row: Row)
  {
    |row| == 0 || row == [""]
  }

  /** The records a `csv.Reader` yields: empty lines are skipped. */
  function Records(rows: seq<Row>): (r: seq<Row>)
    ensures |r| <= |rows|
    ensures forall x :: x in r <==> x in rows && !Blank(x)
  {
    if |rows| == 0 then []
    else
      var n := |rows| - 1;
      Records(rows[..n]) + (if Blank(rows[n]) then [] else [rows[n]])
  }

  /** Every record has as many fields as the first. */
  predicate SameArity(recs: seq<Row>)
  {
    forall i | 0 <= i < |recs| :: |recs[i]| == |recs[0]|
  }

  /** `reader.ReadAll()` with the default `FieldsPerRecord` of 0: the first
      record fixes the number of fields and any other count is an error. */
  function ReadAll(rows: seq<Row>): (r: Result<seq<Row>, ReadError>)
    ensures r.Success? <==> SameArity(Records(rows))
    ensures r.Success? ==> r.value == Records(rows)
  {
    var recs := Records(rows);
    if SameArity(recs) then Success(recs) else Failure(WrongNumberOfFields)
  }

  /** Rows of which none is blank are read back unchanged. */
  lemma {:induction false} RecordsOfNonBlank(rows: seq<Row>)
    requires forall i | 0 <= i < |rows| :: !Blank(rows[i])
    ensures Records(rows) == rows
  {
    if |rows| > 0 {
      var n := |rows| - 1;
      RecordsOfNonBlank(rows[..n]);
      assert rows[..n] + [rows[n]] == rows;
    }
  }

  /** Appending a blank row leaves the records unchanged; appending any
      other row adds it as the last record. */
  lemma RecordsAppend(rows: seq<Row>, row: Row)
    ensures Records(rows + [row]) == Records(rows) + (if Blank(row) then [] else [row])
  {
    assert (rows + [row])[..|rows|] == rows;
  }

  /** The first line of a file, as the header scan reads it: the fields of
      the first row joined by commas. */
  function FirstLine(rows: seq<Row>): string
    requires |rows| > 0
  {
    Join(rows[0], ',')
  }

  /** Splitting the first line on every comma, with no unquoting, recovers
      the first row when it is not blank and none of its fields holds a
      comma; a blank first line gives the single empty header. */
  lemma FirstLineSplit(rows: seq<Row>)
    requires |rows| > 0
    ensures (forall i | 0 <= i < |rows[0]| :: ',' !in rows[0][i]) && |rows[0]| > 0 ==>
              Split(FirstLine(rows), ',') == rows[0]
    ensures Blank(rows[0]) ==> Split(FirstLine(rows), ',') == [""]
  {
    if (forall i | 0 <= i < |rows[0]| :: ',' !in rows[0][i]) && |rows[0]| > 0 {
      SplitJoin(rows[0], ',');
    }
  }

  /** A file whose first row is not blank has that row as its first record. */
  lemma {:induction false} RecordsHead(rows: seq<Row>)
    requires |rows| > 0 && !Blank(rows[0])
    ensures |Records(rows)| > 0 && Records(rows)[0] == rows[0]
  {
    var n := |rows| - 1;
    if n > 0 {
      RecordsHead(rows[..n]);
    }
  }

  /** A blank first row is skipped like any other blank row. */
  lemma {:induction false} RecordsBlankHead(head: Row, rest: seq<Row>)
    requires Blank(head)
    ensures Records([head] + rest) == Records(rest)
  {
    if |rest| > 0 {
      var n := |rest| - 1;
      var s := [head] + rest;
      assert s[..n + 1] == [head] + rest[..n];
      assert s[n + 1] == rest[n];
      RecordsBlankHead(head, rest[..n]);
      RecordsLast(s);
      RecordsLast(rest);
    } else {
      assert [head] + rest == [head];
      RecordsLast([head]);
      assert [head][..0] == [];
    }
  }

  /** The records of a non-empty file: those before its last row, then the
      last row unless it is blank. */
  lemma RecordsLast(rows: seq<Row>)
    requires |rows| > 0
    ensures Records(rows) == Records(rows[..|rows| - 1]) + (if Blank(rows[|rows| - 1]) then [] else [rows[|rows| - 1]])
  {
  }
}
