/** The circle record of tbf/tbf.go and its conversions to and from a
    header-keyed map and a CSV line.

    Go's reflection (`structs.Map` with `flatten`, `mapstructure.Decode`
    with `squash`) is modelled as the fixed correspondence between the
    eight field names and the eight string fields; `fmt.Sprint` of a string
    is the string itself. */
module Tbf {
  import opened Wrappers

  datatype Circle = Circle(detailURL: string, space: string, name: string, penname: string, genre: string)

  /** `CircleDetail` embeds `Circle`; its fields are flattened into the map. */
  datatype CircleDetail = CircleDetail(circle: Circle, imageURL: string, webURL: string, genreFreeFormat: string)

  datatype Error = NotFoundInMap(header: string) | WrongFieldCount(headers: nat, fields: nat)

  /** The eight field names, in declaration order. */
  const FieldNames: seq<string> :=
    ["DetailURL", "Space", "Name", "Penname", "Genre", "ImageURL", "WebURL", "GenreFreeFormat"]

  predicate IsField(name: string) { name in FieldNames }

  /** No name occurs twice. */
  predicate Distinct(h: seq<string>)
  {
    forall i, j | 0 <= i < j < |h| :: h[i] != h[j]
  }

  /** The eight field names, each exactly once, in any order: what
      `CircleDetailToHeaders` can return. */
  predicate IsHeaderOrder(h: seq<string>)
  {
    && Distinct(h)
    && (forall x | x in h :: IsField(x))
    && (forall x | x in FieldNames :: x in h)
  }

  /** The value of the field called `name`. */
  function FieldOf(d: CircleDetail, name: string): string
    requires IsField(name)
  {
    if name == "DetailURL" then d.circle.detailURL
    else if name == "Space" then d.circle.space
    else if name == "Name" then d.circle.name
    else if name == "Penname" then d.circle.penname
    else if name == "Genre" then d.circle.genre
    else if name == "ImageURL" then d.imageURL
    else if name == "WebURL" then d.webURL
    else d.genreFreeFormat
  }

  /** `structs.Map(circleDetail)`: field name to field value. */
  function StructMap(d: CircleDetail): (m: map<string, string>)
    ensures forall k :: k in m <==> IsField(k)
    ensures forall k | k in m :: m[k] == FieldOf(d, k)
  {
    map k | k in FieldNames :: FieldOf(d, k)
  }

  /** `mapstructure.Decode` into a `CircleDetail`: a key missing from the map
      leaves its field at Go's zero value `""`, other keys are ignored. */
  function Decode(m: map<string, string>): CircleDetail
  {
    CircleDetail(
      Circle(Get(m, "DetailURL"), Get(m, "Space"), Get(m, "Name"), Get(m, "Penname"), Get(m, "Genre")),
      Get(m, "ImageURL"), Get(m, "WebURL"), Get(m, "GenreFreeFormat"))
  }

  function Get(m: map<string, string>, k: string): string
  {
    if k in m then m[k] else ""
  }

  /** `NewCircleDetailFromMap`. Decoding a string-to-string map into string
      fields cannot hit a type mismatch, the only thing `mapstructure.Decode`
      reports here, so the error path of the source is never taken. */
  function NewCircleDetailFromMap(m: map<string, string>): (r: Result<CircleDetail, Error>)
    ensures r.Success?
  {
    Success(Decode(m))
  }

  /** Every field takes the value of its key, or `""` when the key is
      missing; other keys play no part. */
  lemma NewCircleDetailFromMapFields(m: map<string, string>)
    ensures forall k | IsField(k) :: FieldOf(NewCircleDetailFromMap(m).value, k) == if k in m then m[k] else ""
  {
  }

  /** Decoding the map of a record gives the record back. */
  lemma {:induction false} DecodeStructMap(d: CircleDetail)
    ensures NewCircleDetailFromMap(StructMap(d)) == Success(d)
  {
    var m := StructMap(d);
    assert IsField("DetailURL") && IsField("Space") && IsField("Name") && IsField("Penname");
    assert IsField("Genre") && IsField("ImageURL") && IsField("WebURL") && IsField("GenreFreeFormat");
  }

  /** Specification of `lineToMap`: `headers[i]` is mapped to `line[i]`, a
      later index overwriting an earlier one with the same header. */
  function LineMap(headers: seq<string>, line: seq<string>): (m: map<string, string>)
    requires |line| <= |headers|
    ensures m.Keys == set i | 0 <= i < |line| :: headers[i]
  {
    if |line| == 0 then map[]
    else
      var n := |line| - 1;
      LineMap(headers, line[..n])[headers[n] := line[n]]
  }

  /** In `LineMap`, a header keeps the value of its last occurrence in
      the line. */
  lemma {:induction false} LineMapLastWins(headers: seq<string>, line: seq<string>, i: nat)
    requires i < |line| <= |headers|
    requires forall j | i < j < |line| :: headers[j] != headers[i]
    ensures LineMap(headers, line)[headers[i]] == line[i]
  {
    var n := |line| - 1;
    if i < n {
      LineMapLastWins(headers, line[..n], i);
    }
  }

  /** `lineToMap`. A line longer than the headers makes the source index
      past the end of `headers` and panic, hence the precondition. */
  method LineToMap(headers: seq<string>, line: seq<string>) returns (m: map<string, string>)
    requires |line| <= |headers|
    ensures m == LineMap(headers, line)
  {
    m := map[];
    for i := 0 to |line|
      invariant m == LineMap(headers, line[..i])
    {
      assert line[..i + 1][..i] == line[..i];
      m := m[headers[i] := line[i]];
    }
    assert line[..|line|] == line;
  }

  /** `LineToCircleDetail` as written: no check that the line has as many
      fields as there are headers. */
  function LineToCircleDetail(headers: seq<string>, line: seq<string>): (r: Result<CircleDetail, Error>)
    requires |line| <= |headers|
    ensures r.Success?
  {
    NewCircleDetailFromMap(LineMap(headers, line))
  }

  /** Each field named in the headers takes the value of the column where
      its name last occurs; a field whose name is not among the headers
      covered by the line stays empty. */
  lemma LineToCircleDetailFields(headers: seq<string>, line: seq<string>)
    requires |line| <= |headers|
    ensures forall i | 0 <= i < |line| && IsField(headers[i]) && (forall j | i < j < |line| :: headers[j] != headers[i]) ::
              FieldOf(LineToCircleDetail(headers, line).value, headers[i]) == line[i]
    ensures forall k | IsField(k) && (forall i | 0 <= i < |line| :: headers[i] != k) ::
              FieldOf(LineToCircleDetail(headers, line).value, k) == ""
  {
    NewCircleDetailFromMapFields(LineMap(headers, line));
    forall i | 0 <= i < |line| && IsField(headers[i]) && (forall j | i < j < |line| :: headers[j] != headers[i])
      ensures FieldOf(LineToCircleDetail(headers, line).value, headers[i]) == line[i]
    {
      LineMapLastWins(headers, line, i);
    }
  }

  /** `LineToCircleDetail` with the arity check its tests expect: a line
      with fewer or more fields than headers is rejected. */
  function LineToCircleDetailStrict(headers: seq<string>, line: seq<string>): (r: Result<CircleDetail, Error>)
    ensures r.Failure? <==> |line| != |headers|
    ensures r.Failure? ==> r.error == WrongFieldCount(|headers|, |line|)
    ensures r.Success? ==> r == LineToCircleDetail(headers, line)
  {
    if |line| != |headers| then Failure(WrongFieldCount(|headers|, |line|))
    else LineToCircleDetail(headers, line)
  }

  /** `circleDetailToMap`: copies every entry of `structs.Map`, visiting the
      keys in whatever order Go's map iteration yields. */
  method CircleDetailToMap(d: CircleDetail) returns (m2: map<string, string>)
    ensures forall k :: k in m2 <==> IsField(k)
    ensures forall k | k in m2 :: m2[k] == FieldOf(d, k)
  {
    var m := StructMap(d);
    m2 := map[];
    var todo := m.Keys;
    while todo != {}
      invariant todo <= m.Keys
      invariant forall k :: k in m2 <==> k in m.Keys - todo
      invariant forall k | k in m2 :: m2[k] == m[k]
      decreases todo
    {
      var k :| k in todo;
      m2 := m2[k := m[k]];
      todo := todo - {k};
    }
  }

  /** `CircleDetailToHeaders`: the field names in map-iteration order, which
      Go leaves unspecified; every order is a possible result. */
  method CircleDetailToHeaders(d: CircleDetail) returns (headers: seq<string>)
    ensures IsHeaderOrder(headers)
  {
    var m := CircleDetailToMap(d);
    headers := [];
    var todo := m.Keys;
    while todo != {}
      invariant todo <= m.Keys
      invariant Distinct(headers)
      invariant forall x :: x in headers <==> x in m.Keys - todo
      decreases todo
    {
      var k :| k in todo;
      assert k !in headers;
      headers := headers + [k];
      todo := todo - {k};
    }
  }

  /** Specification of `mapToLine` on its success path: the values of
      `headers` in order, or the first header missing from the map. */
  function Project(headers: seq<string>, m: map<string, string>): (r: Result<seq<string>, Error>)
    ensures r.Success? <==> forall i | 0 <= i < |headers| :: headers[i] in m
    ensures r.Success? ==> |r.value| == |headers| && forall i | 0 <= i < |headers| :: r.value[i] == m[headers[i]]
    ensures r.Failure? ==> exists i | 0 <= i < |headers| ::
              && headers[i] !in m
              && r.error == NotFoundInMap(headers[i])
              && forall j | 0 <= j < i :: headers[j] in m
  {
    if |headers| == 0 then Success([])
    else
      var n := |headers| - 1;
      match Project(headers[..n], m)
      case Failure(e) =>
        assert exists i | 0 <= i < |headers| ::
                 headers[i] !in m && e == NotFoundInMap(headers[i]) && forall j | 0 <= j < i :: headers[j] in m by {
          var i :| 0 <= i < n && headers[..n][i] !in m && e == NotFoundInMap(headers[..n][i])
                   && forall j | 0 <= j < i :: headers[..n][j] in m;
          assert headers[..n][i] == headers[i];
          assert forall j | 0 <= j < i :: headers[..n][j] == headers[j];
        }
        Failure(e)
      case Success(line) =>
        assert forall j | 0 <= j < n :: headers[j] in m by {
          assert forall j | 0 <= j < n :: headers[..n][j] == headers[j];
        }
        if headers[n] in m then Success(line + [m[headers[n]]]) else Failure(NotFoundInMap(headers[n]))
  }

  /** `mapToLine` as written. On a header missing from the map it returns
      `errors.Wrap(err, ...)` of the still-nil `err`, which is nil: the
      caller receives a nil line and no error. */
  method MapToLine(headers: seq<string>, m: map<string, string>) returns (line: seq<string>, err: Option<Error>)
    ensures err == None
    ensures line == if Project(headers, m).Success? then Project(headers, m).value else []
  {
    line, err := [], None;
    for i := 0 to |headers|
      invariant Project(headers[..i], m) == Success(line)
    {
      assert headers[..i + 1][..i] == headers[..i];
      if headers[i] !in m {
        assert Project(headers[..i + 1], m).Failure?;
        ProjectFailurePersists(headers, i + 1, m);
        return [], None;
      }
      line := line + [m[headers[i]]];
    }
    assert headers[..|headers|] == headers;
  }

  /** Once a prefix of the headers fails to project, the whole list fails. */
  lemma {:induction false} ProjectFailurePersists(headers: seq<string>, n: nat, m: map<string, string>)
    requires n <= |headers|
    requires Project(headers[..n], m).Failure?
    ensures Project(headers, m).Failure?
  {
    var i :| 0 <= i < n && headers[..n][i] !in m;
    assert headers[i] !in m;
  }

  /** `CircleDetailToLine` as written: it always reports success, and a
      header that names no field yields the empty (nil) line. */
  function CircleDetailToLine(headers: seq<string>, d: CircleDetail): (r: Result<seq<string>, Error>)
    ensures r.Success?
    ensures (forall i | 0 <= i < |headers| :: IsField(headers[i])) ==>
              |r.value| == |headers| && forall i | 0 <= i < |headers| :: r.value[i] == FieldOf(d, headers[i])
    ensures (exists i | 0 <= i < |headers| :: !IsField(headers[i])) ==> r.value == []
  {
    var p := Project(headers, StructMap(d));
    Success(if p.Success? then p.value else [])
  }

  /** `CircleDetailToLine` with the error its message describes: a header
      that names no field is reported. */
  function CircleDetailToLineStrict(headers: seq<string>, d: CircleDetail): (r: Result<seq<string>, Error>)
    ensures r.Success? <==> forall i | 0 <= i < |headers| :: IsField(headers[i])
    ensures r.Success? ==> r == CircleDetailToLine(headers, d)
    ensures r.Failure? ==> exists i | 0 <= i < |headers| ::
              && !IsField(headers[i])
              && r.error == NotFoundInMap(headers[i])
              && forall j | 0 <= j < i :: IsField(headers[j])
  {
    Project(headers, StructMap(d))
  }

  /** Two records with equal values for every field name are equal. */
  lemma FieldsDetermine(d1: CircleDetail, d2: CircleDetail)
    requires forall k | IsField(k) :: FieldOf(d1, k) == FieldOf(d2, k)
    ensures d1 == d2
  {
    assert IsField("DetailURL") && IsField("Space") && IsField("Name") && IsField("Penname");
    assert IsField("Genre") && IsField("ImageURL") && IsField("WebURL") && IsField("GenreFreeFormat");
  }

  /** Round trip through a line: for headers that list the eight field names
      in any order, serialising a record and decoding the line gives the
      record back. */
  lemma {:induction false} DetailLineDetail(headers: seq<string>, d: CircleDetail)
    requires IsHeaderOrder(headers)
    ensures |CircleDetailToLine(headers, d).value| == |headers|
    ensures LineToCircleDetail(headers, CircleDetailToLine(headers, d).value) == Success(d)
  {
    var line := CircleDetailToLine(headers, d).value;
    var d' := LineToCircleDetail(headers, line).value;
    LineToCircleDetailFields(headers, line);
    forall k | IsField(k) ensures FieldOf(d', k) == FieldOf(d, k) {
      var i :| 0 <= i < |headers| && headers[i] == k;
      assert forall j | i < j < |line| :: headers[j] != headers[i];
    }
    FieldsDetermine(d', d);
  }

  /** Round trip through a record: a line with one value per header, for
      headers that list the eight field names in any order, decodes into a
      record that serialises back to the same line. */
  lemma {:induction false} LineDetailLine(headers: seq<string>, line: seq<string>)
    requires IsHeaderOrder(headers) && |line| == |headers|
    ensures CircleDetailToLine(headers, LineToCircleDetail(headers, line).value) == Success(line)
  {
    var m := LineMap(headers, line);
    var d := Decode(m);
    assert LineToCircleDetail(headers, line).value == d;
    var line' := CircleDetailToLine(headers, d).value;
    assert |line'| == |line|;
    NewCircleDetailFromMapFields(m);
    forall i | 0 <= i < |line| ensures line'[i] == line[i] {
      LineMapLastWins(headers, line, i);
      assert line'[i] == FieldOf(d, headers[i]);
    }
    assert line' == line;
  }

  /** The field names in declaration order form a valid header order. */
  lemma FieldNamesIsHeaderOrder()
    ensures IsHeaderOrder(FieldNames)
  {
  }

  /** With the headers in declaration order, the line lists the fields
      from DetailURL through GenreFreeFormat. */
  lemma {:induction false} DeclarationOrderLine(d: CircleDetail)
    ensures CircleDetailToLine(FieldNames, d) == Success(
      [d.circle.detailURL, d.circle.space, d.circle.name, d.circle.penname, d.circle.genre,
       d.imageURL, d.webURL, d.genreFreeFormat])
  {
    FieldNamesIsHeaderOrder();
    var line := CircleDetailToLine(FieldNames, d).value;
    assert |line| == 8;
    assert line[0] == d.circle.detailURL by { assert line[0] == FieldOf(d, FieldNames[0]); }
    assert line[1] == d.circle.space by { assert line[1] == FieldOf(d, FieldNames[1]); }
    assert line[2] == d.circle.name by { assert line[2] == FieldOf(d, FieldNames[2]); }
    assert line[3] == d.circle.penname by { assert line[3] == FieldOf(d, FieldNames[3]); }
    assert line[4] == d.circle.genre by { assert line[4] == FieldOf(d, FieldNames[4]); }
    assert line[5] == d.imageURL by { assert line[5] == FieldOf(d, FieldNames[5]); }
    assert line[6] == d.webURL by { assert line[6] == FieldOf(d, FieldNames[6]); }
    assert line[7] == d.genreFreeFormat by { assert line[7] == FieldOf(d, FieldNames[7]); }
    assert line == [d.circle.detailURL, d.circle.space, d.circle.name, d.circle.penname, d.circle.genre,
                    d.imageURL, d.webURL, d.genreFreeFormat];
  }

  // The values used by tbf/tbf_test.go.
  const TestLine: seq<string> :=
    ["dummyDetailURL", "dummySpace", "dummyName", "dummyPenname", "dummyGenre",
     "dummyImageURL", "dummyWebURL", "dummyGenreFreeFormat"]

  const TestDetail: CircleDetail :=
    CircleDetail(Circle("dummyDetailURL", "dummySpace", "dummyName", "dummyPenname", "dummyGenre"),
                 "dummyImageURL", "dummyWebURL", "dummyGenreFreeFormat")

  /** The accepting cases of TestLineToCircleDetail, TestNewCircleDetailFromMap
      and TestCircleDetailToLine: with the headers in declaration order the
      line and the record correspond column for column, in both directions. */
  lemma {:induction false} TestCasesHold()
    ensures LineToCircleDetail(FieldNames, TestLine) == Success(TestDetail)
    ensures CircleDetailToLine(FieldNames, TestDetail) == Success(TestLine)
    ensures NewCircleDetailFromMap(StructMap(TestDetail)) == Success(TestDetail)
  {
    FieldNamesIsHeaderOrder();
    DecodeStructMap(TestDetail);
    DeclarationOrderLine(TestDetail);
    DetailLineDetail(FieldNames, TestDetail);
  }

  /** As written, the line one field short that TestLineToCircleDetail
      expects to be rejected decodes without error: every value moves one
      field up and the last field is left empty. The strict variant rejects
      it, and rejects the line one field too long as well. */
  lemma {:induction false} ShortLineAccepted()
    ensures LineToCircleDetail(FieldNames, TestLine[1..]).Success?
    ensures LineToCircleDetail(FieldNames, TestLine[1..]).value.circle.detailURL == "dummySpace"
    ensures LineToCircleDetail(FieldNames, TestLine[1..]).value.genreFreeFormat == ""
    ensures LineToCircleDetailStrict(FieldNames, TestLine[1..]).Failure?
    ensures LineToCircleDetailStrict(FieldNames, TestLine + ["dummy elm"]).Failure?
  {
    var line := TestLine[1..];
    LineToCircleDetailFields(FieldNames, line);
    assert FieldNames[0] == "DetailURL" && line[0] == "dummySpace";
    assert forall j | 0 < j < |line| :: FieldNames[j] != FieldNames[0];
    assert forall i | 0 <= i < |line| :: FieldNames[i] != "GenreFreeFormat";
  }

  /** As written, a header that names no field turns into an empty line
      reported as success; the strict variant reports the header. */
  lemma {:induction false} UnknownHeaderGivesEmptyLine(d: CircleDetail)
    ensures CircleDetailToLine(["Bogus"], d) == Success([])
    ensures CircleDetailToLineStrict(["Bogus"], d) == Failure(NotFoundInMap("Bogus"))
  {
    assert !IsField("Bogus");
  }
}
