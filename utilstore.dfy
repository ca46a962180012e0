/** The earlier circle cache of util/util.go. The handle keeps one file open
    for reading and appending and writes through one buffered `csv.Writer`.

    The file is its sequence of rows (`disk`). Reads and writes share the
    handle's offset, counted here in rows. A `bufio.Scanner` reads ahead of
    the line it returns, by an amount the model leaves open. A write with
    `O_APPEND` lands at the end of the file and leaves the offset there.
    Rows given to the writer wait in `pending` until `Flush`. */
module UtilStore {
  import opened Wrappers
  import opened Strings
  import opened Tbf
  import opened CsvRows
  import opened CircleTable
  import opened CsvStore

  class BufferedCircleCsv {
    /** The rows in the file. */
    var disk: seq<Row>
    /** The handle's read position, in rows. */
    var offset: nat
    /** Rows written to the `csv.Writer` and not yet flushed. */
    var pending: seq<Row>
    /** The cached header list; empty when none is known. */
    var headers: seq<string>

    /** The read position lies within the file. */
    predicate Valid()
      reads this
    {
      offset <= |disk|
    }

    /** The handle of a freshly opened file: nothing read, nothing
        buffered, no headers. */
    constructor (contents: seq<Row>)
      ensures Valid()
      ensures disk == contents && offset == 0 && pending == [] && headers == []
    {
      disk, offset, pending, headers := contents, 0, [], [];
    }

    /** `NewCircleCSV`: opens the file and reads nothing from it. */
    static method NewCircleCsv(contents: seq<Row>, openFails: bool) returns (r: Result<BufferedCircleCsv, StoreError>)
      ensures openFails <==> r.Failure?
      ensures r.Failure? ==> r.error == OpenFailed
      ensures r.Success? ==> fresh(r.value) && r.value.Valid()
      ensures r.Success? ==> r.value.disk == contents && r.value.offset == 0 && r.value.pending == [] && r.value.headers == []
    {
      if openFails {
        return Failure(OpenFailed);
      }
      var c := new BufferedCircleCsv(contents);
      return Success(c);
    }

    /** `getHeaders`. Cached headers are returned without reading. Otherwise
        the next line at the read position is split on every comma and
        cached; the scanner moves the position past that line, possibly
        further. At the end of the file there are no headers. */
    method GetHeaders() returns (r: Option<seq<string>>)
      requires Valid()
      modifies this
      ensures Valid()
      ensures disk == old(disk) && pending == old(pending)
      ensures |old(headers)| > 0 ==> r == Some(old(headers)) && headers == old(headers) && offset == old(offset)
      ensures |old(headers)| == 0 && old(offset) == |disk| ==> r == None && headers == old(headers) && offset == old(offset)
      ensures |old(headers)| == 0 && old(offset) < |disk| ==>
                && headers == Split(Join(disk[old(offset)], ','), ',')
                && r == Some(headers)
                && old(offset) < offset
    {
      if |headers| > 0 {
        return Some(headers);
      }
      if offset < |disk| {
        headers := Split(Join(disk[offset], ','), ',');
        var next :| offset < next <= |disk|;
        offset := next;
        return Some(headers);
      }
      return None;
    }

    /** `AppendCircleDetail`. Without headers it derives them from the
        record, caches them and hands them to the writer, ignoring the
        result; the record follows in the header order, and its conversion
        cannot fail. Nothing reaches the file. `headerWriteFails` and `lineWriteFails` are the fates of the
        two writer calls. */
    method AppendCircleDetail(d: CircleDetail, headerWriteFails: bool, lineWriteFails: bool) returns (err: Option<StoreError>)
      requires Valid()
      modifies this
      ensures Valid()
      ensures disk == old(disk)
      ensures |old(headers)| > 0 ==> headers == old(headers) && offset == old(offset)
      ensures |old(headers)| == 0 && old(offset) < |disk| ==>
                headers == Split(Join(disk[old(offset)], ','), ',') && old(offset) < offset
      ensures |old(headers)| == 0 && old(offset) == |disk| ==> IsHeaderOrder(headers) && offset == old(offset)
      ensures var derived := |old(headers)| == 0 && old(offset) == |disk|;
              var line := CircleDetailToLine(headers, d).value;
              && pending == old(pending)
                            + (if derived && !headerWriteFails then [headers] else [])
                            + (if !lineWriteFails then [line] else [])
              && err == (if lineWriteFails then Some(LineAppendFailed(WriteFailed)) else None)
    {
      var got := GetHeaders();
      var hs: seq<string>;
      if got.None? {
        hs := CircleDetailToHeaders(d);
        headers := hs;
        if !headerWriteFails {
          pending := pending + [hs];
        }
      } else {
        hs := got.value;
      }
      // As written, the conversion never reports an error.
      var conv := CircleDetailToLine(hs, d);
      if lineWriteFails {
        return Some(LineAppendFailed(WriteFailed));
      }
      pending := pending + [conv.value];
      return None;
    }

    /** `ToCircleDetailMap`: the reader takes every row from the read
        position to the end of the file, which leaves the position at the
        end. */
    method ToCircleDetailMap() returns (r: Result<Cache, StoreError>)
      requires Valid()
      modifies this
      ensures Valid()
      ensures disk == old(disk) && pending == old(pending) && headers == old(headers)
      ensures offset == |disk|
      ensures r == LoadFile(disk[old(offset)..])
    {
      r := ReadCircleDetailMap(disk[offset..]);
      offset := |disk|;
    }

    /** `Flush`: the buffered rows are appended to the file; a write moves
        the position to the end of the file. */
    method Flush()
      requires Valid()
      modifies this
      ensures Valid()
      ensures disk == old(disk) + old(pending)
      ensures pending == [] && headers == old(headers)
      ensures offset == if old(pending) == [] then old(offset) else |disk|
    {
      if pending != [] {
        disk := disk + pending;
        offset := |disk|;
        pending := [];
      }
    }
  }

  /** The calls the crawl command makes on a file that already holds a
      header row: the cache is read, which moves the position to the end of
      the file, and a record is appended. `getHeaders` then finds no line,
      so a second header row is buffered before the record. The command
      never flushes, so both rows stay in the writer's buffer and the file
      is unchanged. */
  method ReloadThenAppend(contents: seq<Row>, d: CircleDetail) returns (c: BufferedCircleCsv)
    requires |contents| > 0
    ensures c.Valid() && c.disk == contents && c.offset == |contents|
    ensures |c.pending| == 2
    ensures IsHeaderOrder(c.pending[0])
    ensures c.pending[1] == CircleDetailToLine(c.pending[0], d).value
  {
    c := new BufferedCircleCsv(contents);
    var m := c.ToCircleDetailMap();
    var err := c.AppendCircleDetail(d, false, false);
  }

  /** The same calls followed by the `Flush` the command never makes: the
      file then holds the second header row as an extra data row, followed
      by the record. */
  method ReloadAppendFlush(contents: seq<Row>, d: CircleDetail) returns (c: BufferedCircleCsv)
    requires |contents| > 0
    ensures |c.disk| == |contents| + 2
    ensures c.disk[..|contents|] == contents
    ensures IsHeaderOrder(c.disk[|contents|])
    ensures c.disk[|contents| + 1] == CircleDetailToLine(c.disk[|contents|], d).value
  {
    c := new BufferedCircleCsv(contents);
    var m := c.ToCircleDetailMap();
    var err := c.AppendCircleDetail(d, false, false);
    c.Flush();
  }
}
