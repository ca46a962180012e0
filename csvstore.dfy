/** The append-only circle cache of csv/csv.go. A `CircleCsv` names a file
    and caches its header list; every operation opens the file afresh with
    `O_APPEND`, so a write adds rows at the end, and a write is flushed
    before the call returns. The file is its sequence of rows. */
module CsvStore {
  import opened Wrappers
  import opened Strings
  import opened Tbf
  import opened CsvRows
  import opened CircleTable

  /** How one open-write-flush round on the file ends. The flush error is
      never checked by the program, so a failed flush loses the row
      silently. */
  datatype Io = Ok | OpenFails | WriteFails | FlushFails

  datatype StoreError =
    | OpenFailed
    | WriteFailed
    | HeaderAppendFailed(cause: StoreError)
    | LineAppendFailed(cause: StoreError)
    | ReadFailed(read: ReadError)
    | DecodeFailed(reason: Tbf.Error)

  /** The rows a write round adds to the file. */
  function Written(io: Io, row: Row): (r: seq<Row>)
    ensures r == [row] <==> io == Ok
    ensures r == [] <==> io != Ok
  {
    if io == Ok then [row] else []
  }

  /** The error a write round reports. */
  function IoError(io: Io): (r: Option<StoreError>)
    ensures r.None? <==> io == Ok || io == FlushFails
  {
    match io
    case OpenFails => Some(OpenFailed)
    case WriteFails => Some(WriteFailed)
    case _ => None
  }

  /** The headers `NewCircleCSV` scans: the first line of the file split on
      every comma, or none for an empty file. */
  function ScanHeaders(file: seq<Row>): (r: seq<string>)
    ensures |r| == 0 <==> |file| == 0
  {
    if |file| == 0 then [] else Split(FirstLine(file), ',')
  }

  /** What `ToCircleDetailMap` reads from a file it could open: the records,
      the first as headers, the others keyed by Space. */
  function LoadFile(file: seq<Row>): (r: Result<Cache, StoreError>)
    ensures |file| == 0 ==> r == Success(map[])
    ensures r.Failure? <==> !SameArity(Records(file))
  {
    match ReadAll(file)
    case Failure(e) => Failure(ReadFailed(e))
    case Success(recs) =>
      assert recs == Records(file);
      RecordsDecode(recs);
      match Load(recs)
      case Failure(e) => Failure(DecodeFailed(e))
      case Success(m) => Success(m)
  }

  /** Once the reader has accepted the records, every data record has the
      header's width, so no record fails to decode. */
  lemma RecordsDecode(recs: seq<Row>)
    requires SameArity(recs)
    ensures Load(recs).Success?
  {
    if |recs| > 0 {
      assert Aligned(recs[0], recs[1..]) by {
        forall i | 0 <= i < |recs[1..]| ensures |recs[1..][i]| == |recs[0]| {
          assert recs[1..][i] == recs[i + 1];
        }
      }
    }
  }

  /** Reading the file back after one more row of the header's width: the
      cache gains the row's record under its Space, replacing any earlier
      one. */
  lemma LoadAppendLine(file: seq<Row>, line: Row)
    requires |file| > 0 && !Blank(file[0]) && |line| == |file[0]| && !Blank(line)
    requires LoadFile(file).Success?
    ensures LoadFile(file + [line]) ==
              Success(LoadFile(file).value[DecodeLine(file[0], line).circle.space := DecodeLine(file[0], line)])
  {
    var h := file[0];
    RecordsHead(file);
    var recs := Records(file);
    RecordsAppend(file, line);
    var recs' := Records(file + [line]);
    assert recs' == recs + [line];
    assert SameArity(recs');
    assert recs'[0] == h && recs'[1..] == recs[1..] + [line];
    RecordsDecode(recs);
    KeyBySpaceAppend(h, recs[1..], line);
  }

  /** Reading the file back after one more record was appended under
      headers that list the eight field names: the cache gains that record
      under its Space, replacing any earlier one. */
  lemma LoadAppend(file: seq<Row>, d: CircleDetail)
    requires |file| > 0 && IsHeaderOrder(file[0])
    requires LoadFile(file).Success?
    ensures LoadFile(file + [CircleDetailToLine(file[0], d).value]) ==
              Success(LoadFile(file).value[d.circle.space := d])
  {
    var h := file[0];
    var line := CircleDetailToLine(h, d).value;
    DetailLineDetail(h, d);
    HeaderOrderLength(h);
    LoadAppendLine(file, line);
  }

  /** A header order lists exactly eight names. */
  lemma HeaderOrderLength(h: seq<string>)
    requires IsHeaderOrder(h)
    ensures |h| == 8
  {
    FieldNamesIsHeaderOrder();
    DistinctCard(h);
    DistinctCard(FieldNames);
    assert (set x | x in h) == (set x | x in FieldNames);
  }

  /** A list without repetitions has as many elements as its set. */
  lemma {:induction false} DistinctCard(h: seq<string>)
    requires Distinct(h)
    ensures |set x | x in h| == |h|
  {
    if |h| > 0 {
      var n := |h| - 1;
      assert Distinct(h[..n]);
      DistinctCard(h[..n]);
      assert h == h[..n] + [h[n]];
      assert (set x | x in h) == (set x | x in h[..n]) + {h[n]};
      assert h[n] !in h[..n];
    }
  }

  /** No field name holds a comma. */
  lemma FieldNamesHaveNoComma()
    ensures forall x | x in FieldNames :: ',' !in x
  {
    assert ',' !in FieldNames[0] && ',' !in FieldNames[1] && ',' !in FieldNames[2] && ',' !in FieldNames[3];
    assert ',' !in FieldNames[4] && ',' !in FieldNames[5] && ',' !in FieldNames[6] && ',' !in FieldNames[7];
  }

  /** The line of a header order splits back into it. */
  lemma HeaderLineSplits(h: seq<string>)
    requires IsHeaderOrder(h)
    ensures Split(Join(h, ','), ',') == h
  {
    HeaderOrderLength(h);
    FieldNamesHaveNoComma();
    forall i | 0 <= i < |h| ensures ',' !in h[i] {
      assert h[i] in h;
    }
    SplitJoin(h, ',');
  }

  /** Every name of a header order names a field. */
  lemma HeaderOrderFields(h: seq<string>)
    ensures IsHeaderOrder(h) ==> forall i | 0 <= i < |h| :: IsField(h[i])
  {
    if IsHeaderOrder(h) {
      forall i | 0 <= i < |h| ensures IsField(h[i]) {
        assert h[i] in h;
      }
    }
  }

  /** A file whose first line is blank scans to the single header `""`,
      which names no field. A record converted under it is the empty line,
      with no error, and that line is a blank row: the reader skips it, so
      the record is lost without a report. */
  lemma BlankFirstRowLosesRecord(d: CircleDetail, rest: seq<Row>)
    ensures ScanHeaders([[""]] + rest) == [""]
    ensures CircleDetailToLine([""], d) == Success([])
    ensures Records([[""]] + rest + [[]]) == Records(rest)
  {
    var file := [[""]] + rest;
    assert FirstLine(file) == "";
    assert !IsField("");
    assert Blank([""]) && Blank([]);
    RecordsAppend(file, []);
    RecordsBlankHead([""], rest);
  }

  /** Rows appended after a first row leave it, and the headers scanned
      from it, as they were. */
  lemma SyncedExtend(file: seq<Row>, h: seq<string>, more: seq<Row>)
    requires |file| > 0 && file[0] == h && ScanHeaders(file) == h
    ensures (file + more)[0] == h && ScanHeaders(file + more) == h
  {
  }

  /** A record appended to a file whose first row is its cached header
      order, or to an empty file together with the header row, is found
      under its Space when the file is read back. */
  lemma AppendLoads(file: seq<Row>, cached: seq<string>, h: seq<string>, d: CircleDetail)
    requires ScanHeaders(file) == cached && (|file| > 0 ==> file[0] == cached)
    requires |cached| > 0 ==> h == cached
    requires IsHeaderOrder(h) && LoadFile(file).Success?
    ensures LoadFile(file + (if |cached| == 0 then [h] else []) + [CircleDetailToLine(h, d).value]) ==
              Success(LoadFile(file).value[d.circle.space := d])
  {
    var file1 := file + (if |cached| == 0 then [h] else []);
    if |cached| == 0 {
      assert file1 == [h];
      HeaderOrderLength(h);
      RecordsOfNonBlank(file1);
      assert SameArity(Records(file1));
    } else {
      assert file1 == file;
    }
    assert file1[0] == h;
    LoadAppend(file1, d);
  }

  /** The loop both `ToCircleDetailMap`s run over an open file: read all
      records, take the first as headers and key every later one by its
      Space. */
  method ReadCircleDetailMap(file: seq<Row>) returns (r: Result<Cache, StoreError>)
    ensures r == LoadFile(file)
  {
    var read := ReadAll(file);
    if read.Failure? {
      return Failure(ReadFailed(read.error));
    }
    var lines := read.value;
    var m: Cache := map[];
    if |lines| < 1 {
      return Success(m);
    }
    var hdr := lines[0];
    var data := lines[1..];
    assert Aligned(hdr, data) by {
      forall i | 0 <= i < |data| ensures |data[i]| == |hdr| {
        assert data[i] == lines[i + 1];
      }
    }
    for i := 0 to |data|
      invariant DecodeAll(hdr, data[..i]).Success?
      invariant m == Index(DecodeAll(hdr, data[..i]).value)
    {
      // Decoding a string map into string fields cannot fail.
      var d := LineToCircleDetail(hdr, data[i]).value;
      DecodeAllStep(hdr, data, i);
      m := m[d.circle.space := d];
    }
    assert data[..|data|] == data;
    return Success(m);
  }

  class CircleCsv {
    /** The rows of the file at the handle's path. */
    var file: seq<Row>
    /** The cached header list; empty when none is known. */
    var headers: seq<string>

    /** The cached headers are the file's first row, and scanning that
        row's line gives them back; an empty file has none cached. */
    predicate Synced()
      reads this
    {
      if |file| == 0 then headers == [] else file[0] == headers && ScanHeaders(file) == headers
    }

    /** The handle of an open file: the headers are scanned from its first
        line. */
    constructor (contents: seq<Row>)
      ensures file == contents
      ensures headers == ScanHeaders(contents)
      ensures (|contents| == 0 || (!Blank(contents[0]) && forall i | 0 <= i < |contents[0]| :: ',' !in contents[0][i]))
              ==> Synced()
    {
      file := contents;
      if |contents| > 0 {
        headers := Split(Join(contents[0], ','), ',');
        if !Blank(contents[0]) && forall i | 0 <= i < |contents[0]| :: ',' !in contents[0][i] {
          SplitJoin(contents[0], ',');
        }
      } else {
        headers := [];
      }
    }

    /** `NewCircleCSV`: fails only when the file cannot be opened. */
    static method NewCircleCsv(contents: seq<Row>, openFails: bool) returns (r: Result<CircleCsv, StoreError>)
      ensures openFails <==> r.Failure?
      ensures r.Failure? ==> r.error == OpenFailed
      ensures r.Success? ==> fresh(r.value) && r.value.file == contents && r.value.headers == ScanHeaders(contents)
    {
      if openFails {
        return Failure(OpenFailed);
      }
      var c := new CircleCsv(contents);
      return Success(c);
    }

    /** `getHeaders`: the cached headers, when there are any. */
    function GetHeaders(): (r: Option<seq<string>>)
      reads this
      ensures r.Some? <==> |headers| > 0
      ensures r.Some? ==> r.value == headers
    {
      if |headers| > 0 then Some(headers) else None
    }

    /** `AppendLine`: one row at the end of the file, earlier rows kept. */
    method AppendLine(line: Row, io: Io) returns (err: Option<StoreError>)
      modifies this
      ensures file == old(file) + Written(io, line)
      ensures headers == old(headers)
      ensures err == IoError(io)
    {
      err := IoError(io);
      file := file + Written(io, line);
    }

    /** `AppendCircleDetail`. Without cached headers it derives them from
        the record, caches them and then writes them as a row; the record
        follows as a row in the cached header order. `headerIo` and `lineIo`
        are the fates of the two writes. The conversion of the record cannot
        fail, so its error branch is never taken. */
    method AppendCircleDetail(d: CircleDetail, headerIo: Io, lineIo: Io) returns (err: Option<StoreError>)
      modifies this
      ensures |old(headers)| > 0 ==> headers == old(headers)
      ensures |old(headers)| == 0 ==> IsHeaderOrder(headers)
      ensures var headerRows := if |old(headers)| == 0 then Written(headerIo, headers) else [];
              var proceed := |old(headers)| > 0 || IoError(headerIo).None?;
              var line := CircleDetailToLine(headers, d).value;
              && file == old(file) + headerRows + (if proceed then Written(lineIo, line) else [])
              && err == (if !proceed then Some(HeaderAppendFailed(IoError(headerIo).value))
                         else if IoError(lineIo).Some? then Some(LineAppendFailed(IoError(lineIo).value))
                         else None)
      ensures old(Synced()) && (|old(headers)| > 0 || headerIo == Ok) ==> Synced()
      ensures old(Synced()) && IsHeaderOrder(headers) && headerIo == Ok && lineIo == Ok && old(LoadFile(file)).Success?
              ==> LoadFile(file) == Success(old(LoadFile(file)).value[d.circle.space := d])
    {
      ghost var file0 := file;
      ghost var synced0 := Synced();
      var cached := GetHeaders();
      var hs: seq<string>;
      if cached.None? {
        hs := CircleDetailToHeaders(d);
        headers := hs;
        var e := AppendLine(hs, headerIo);
        if e.Some? {
          return Some(HeaderAppendFailed(e.value));
        }
      } else {
        hs := cached.value;
      }
      ghost var file1 := file;
      if synced0 && (|old(headers)| > 0 || headerIo == Ok) {
        if |file0| == 0 {
          assert file1 == [hs];
          HeaderOrderLength(hs);
          HeaderLineSplits(hs);
        }
        assert |file1| > 0 && file1[0] == hs && ScanHeaders(file1) == hs;
      }
      // As written, the conversion never reports an error: a header that
      // names no field gives the empty line, which is then written.
      var conv := CircleDetailToLine(hs, d);
      var e := AppendLine(conv.value, lineIo);
      if synced0 && (|old(headers)| > 0 || headerIo == Ok) {
        SyncedExtend(file1, hs, Written(lineIo, conv.value));
      }
      if synced0 && IsHeaderOrder(hs) && headerIo == Ok && lineIo == Ok && LoadFile(file0).Success? {
        AppendLoads(file0, old(headers), hs, d);
      }
      if e.Some? {
        return Some(LineAppendFailed(e.value));
      }
      return None;
    }

    /** `ToCircleDetailMap`: open the file and read the cache from it. */
    method ToCircleDetailMap(openFails: bool) returns (r: Result<Cache, StoreError>)
      ensures openFails ==> r == Failure(OpenFailed)
      ensures !openFails ==> r == LoadFile(file)
    {
      if openFails {
        return Failure(OpenFailed);
      }
      r := ReadCircleDetailMap(file);
    }
  }
}
