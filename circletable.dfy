/** What both `ToCircleDetailMap` implementations compute once the file has
    been read: the first record is the header list, every later record is
    decoded into a circle, and the circles are keyed by their Space, a later
    record replacing an earlier one with the same Space. */
module CircleTable {
  import opened Wrappers
  import opened Tbf
  import opened CsvRows

  type Cache = map<string, CircleDetail>

  /** The circle a line of the right width decodes into. */
  function DecodeLine(headers: seq<string>, line: Row): CircleDetail
    requires |line| == |headers|
  {
    LineToCircleDetail(headers, line).value
  }

  /** Every line has one field per header. */
  predicate Aligned(headers: seq<string>, lines: seq<Row>)
  {
    forall i | 0 <= i < |lines| :: |lines[i]| == |headers|
  }

  /** Decode the data lines in order; the first line whose width differs
      from the header's stops the loop with its error. */
  function DecodeAll(headers: seq<string>, lines: seq<Row>): (r: Result<seq<CircleDetail>, Tbf.Error>)
    ensures r.Success? <==> Aligned(headers, lines)
    ensures r.Success? ==> |r.value| == |lines|
    ensures r.Success? ==> forall i | 0 <= i < |lines| :: r.value[i] == DecodeLine(headers, lines[i])
    ensures r.Failure? ==> exists i | 0 <= i < |lines| ::
              && |lines[i]| != |headers|
              && Aligned(headers, lines[..i])
              && r.error == WrongFieldCount(|headers|, |lines[i]|)
  {
    if |lines| == 0 then Success([])
    else
      var n := |lines| - 1;
      assert Aligned(headers, lines) <==> Aligned(headers, lines[..n]) && |lines[n]| == |headers| by {
        assert forall i | 0 <= i < n :: lines[..n][i] == lines[i];
      }
      match DecodeAll(headers, lines[..n])
      case Failure(e) =>
        assert exists i | 0 <= i < |lines| ::
                 |lines[i]| != |headers| && Aligned(headers, lines[..i]) && e == WrongFieldCount(|headers|, |lines[i]|) by {
          var i :| 0 <= i < n && |lines[..n][i]| != |headers| && Aligned(headers, lines[..n][..i])
                   && e == WrongFieldCount(|headers|, |lines[..n][i]|);
          assert lines[..n][i] == lines[i] && lines[..n][..i] == lines[..i];
        }
        Failure(e)
      case Success(ds) =>
        match LineToCircleDetailStrict(headers, lines[n])
        case Failure(e) => Failure(e)
        case Success(d) => Success(ds + [d])
  }

  /** Key the circles by Space, in order, so that a later circle replaces
      an earlier one with the same Space. */
  function Index(ds: seq<CircleDetail>): (m: Cache)
    ensures m.Keys == set i | 0 <= i < |ds| :: ds[i].circle.space
  {
    if |ds| == 0 then map[]
    else
      var n := |ds| - 1;
      Index(ds[..n])[ds[n].circle.space := ds[n]]
  }

  /** The loop over the data lines: decode each, key it by its Space. */
  function KeyBySpace(headers: seq<string>, lines: seq<Row>): (r: Result<Cache, Tbf.Error>)
    ensures r.Success? <==> Aligned(headers, lines)
  {
    match DecodeAll(headers, lines)
    case Failure(e) => Failure(e)
    case Success(ds) => Success(Index(ds))
  }

  /** The map built from a file's records; a file with no record gives the
      empty map. */
  function Load(records: seq<Row>): (r: Result<Cache, Tbf.Error>)
    ensures |records| == 0 ==> r == Success(map[])
  {
    if |records| == 0 then Success(map[]) else KeyBySpace(records[0], records[1..])
  }

  /** Each Space holds the circle of the last position that has it. */
  lemma {:induction false} IndexLastWins(ds: seq<CircleDetail>, i: nat)
    requires i < |ds|
    requires forall j | i < j < |ds| :: ds[j].circle.space != ds[i].circle.space
    ensures ds[i].circle.space in Index(ds)
    ensures Index(ds)[ds[i].circle.space] == ds[i]
  {
    var n := |ds| - 1;
    var s := ds[i].circle.space;
    var prev := Index(ds[..n]);
    assert Index(ds) == prev[ds[n].circle.space := ds[n]];
    if i < n {
      assert ds[..n][i] == ds[i];
      assert forall j | i < j < n :: ds[..n][j] == ds[j];
      IndexLastWins(ds[..n], i);
      assert ds[n].circle.space != s;
    }
  }

  /** Every circle of the index comes from the sequence. */
  lemma {:induction false} IndexValues(ds: seq<CircleDetail>)
    ensures forall s | s in Index(ds) :: Index(ds)[s].circle.space == s && Index(ds)[s] in ds
  {
    if |ds| > 0 {
      var n := |ds| - 1;
      IndexValues(ds[..n]);
      assert forall x | x in ds[..n] :: x in ds;
    }
  }

  /** Decoding one more line of the right width extends the records by its
      circle, and the index by that circle under its Space. */
  lemma DecodeAllStep(headers: seq<string>, lines: seq<Row>, i: nat)
    requires i < |lines| && Aligned(headers, lines[..i]) && |lines[i]| == |headers|
    ensures var ds := DecodeAll(headers, lines[..i]).value;
            var d := DecodeLine(headers, lines[i]);
            && DecodeAll(headers, lines[..i + 1]) == Success(ds + [d])
            && Index(ds + [d]) == Index(ds)[d.circle.space := d]
  {
    var pre := lines[..i + 1];
    assert |pre| - 1 == i && pre[..i] == lines[..i] && pre[i] == lines[i];
    var ds := DecodeAll(headers, lines[..i]).value;
    var d := DecodeLine(headers, lines[i]);
    assert LineToCircleDetailStrict(headers, lines[i]) == Success(d);
    assert DecodeAll(headers, pre) == Success(ds + [d]);
    IndexSnoc(ds, d);
  }

  /** Indexing one more circle files it under its Space. */
  lemma IndexSnoc(ds: seq<CircleDetail>, d: CircleDetail)
    ensures Index(ds + [d]) == Index(ds)[d.circle.space := d]
  {
    var all := ds + [d];
    assert all[..|all| - 1] == ds && all[|all| - 1] == d;
  }

  /** One more line of the right width adds its circle under its Space. */
  lemma KeyBySpaceAppend(headers: seq<string>, lines: seq<Row>, line: Row)
    requires |line| == |headers|
    requires KeyBySpace(headers, lines).Success?
    ensures KeyBySpace(headers, lines + [line]) ==
              Success(KeyBySpace(headers, lines).value[DecodeLine(headers, line).circle.space := DecodeLine(headers, line)])
  {
    var all := lines + [line];
    assert all[..|lines|] == lines;
    var ds := DecodeAll(headers, lines).value;
    var d := DecodeLine(headers, line);
    assert DecodeAll(headers, all) == Success(ds + [d]);
    assert (ds + [d])[..|ds|] == ds;
  }
}
