/** The circle-list and circle-detail tasks of crawl/tasks.go (the same
    logic is repeated in crawl/crawl.go): the selectors the tasks query, the
    five lists the list tasks fill, their validation, and their zipping into
    circles.

    A page is given as the nodes each selector matches; navigating, waiting
    for the page and running the browser are not part of this model. */
module CrawlTasks {
  import opened Wrappers
  import opened Tbf
  import opened CrawlActions
  import opened CrawlUtil

  /** The five list lengths, as the validation error reports them. */
  datatype TasksError = InvalidCircles(detailUrls: nat, spaces: nat, names: nat, penNames: nat, genres: nat)

  datatype FetchError = TaskFailed(action: ActionError) | ConversionFailed(invalid: TasksError)

  /** `fmt.Sprintf("%d", n)` for a natural number. */
  function Decimal(n: nat): (r: string)
    ensures |r| >= 1
    ensures n < 10 ==> r == [(48 + n) as char]
  {
    if n < 10 then [(48 + n) as char] else Decimal(n / 10) + [(48 + n % 10) as char]
  }

  const CircleListItemSel: string := "li.circle-list-item"

  /** The selectors of the five list columns. */
  datatype ListSelectors = ListSelectors(detailUrls: string, spaces: string, names: string, penNames: string, genres: string)

  /** The selectors `circlesFetchingTasks` builds: the list item selector,
      a space, and a child selector. The genres column is queried with the
      pen-name child selector, so both columns read the same nodes. */
  function CirclesSelectors(): (s: ListSelectors)
    ensures s.genres == s.penNames
    ensures forall sel | sel in [s.detailUrls, s.spaces, s.names, s.penNames, s.genres] ::
              |sel| > |CircleListItemSel| + 1 && sel[..|CircleListItemSel| + 1] == CircleListItemSel + " "
  {
    JoinTwoSelectors(CircleListItemSel, "a.circle-list-item-link");
    JoinTwoSelectors(CircleListItemSel, "span.circle-space-label");
    JoinTwoSelectors(CircleListItemSel, "span.circle-name");
    JoinTwoSelectors(CircleListItemSel, "p.circle-list-item-penname");
    ListSelectors(
      JoinSelectors([CircleListItemSel, "a.circle-list-item-link"]),
      JoinSelectors([CircleListItemSel, "span.circle-space-label"]),
      JoinSelectors([CircleListItemSel, "span.circle-name"]),
      JoinSelectors([CircleListItemSel, "p.circle-list-item-penname"]),
      JoinSelectors([CircleListItemSel, "p.circle-list-item-penname"]))
  }

  /** Each list column is a child selector under the list item. */
  lemma CirclesSelectorsParts()
    ensures CirclesSelectors() == ListSelectors(
              CircleListItemSel + " " + "a.circle-list-item-link",
              CircleListItemSel + " " + "span.circle-space-label",
              CircleListItemSel + " " + "span.circle-name",
              CircleListItemSel + " " + "p.circle-list-item-penname",
              CircleListItemSel + " " + "p.circle-list-item-penname")
  {
    JoinTwoSelectors(CircleListItemSel, "a.circle-list-item-link");
    JoinTwoSelectors(CircleListItemSel, "span.circle-space-label");
    JoinTwoSelectors(CircleListItemSel, "span.circle-name");
    JoinTwoSelectors(CircleListItemSel, "p.circle-list-item-penname");
  }

  /** The selectors with the genres column read from the genre child, as
      the list markup provides it: only the genres selector changes, and it
      no longer reads the pen-name nodes. */
  function CirclesSelectorsIntended(): (s: ListSelectors)
    ensures s == CirclesSelectors().(genres := CircleListItemSel + " " + "p.circle-list-item-genre")
    ensures s.genres != s.penNames
  {
    CirclesSelectorsParts();
    CirclesSelectors().(genres := CircleListItemSel + " " + "p.circle-list-item-genre")
  }

  const CircleDetailCardSel: string := "mat-card.circle-detail-card"

  /** The second cell of row `row` of the detail table. */
  function TableCell(row: nat): (r: string)
    ensures |r| > 15 && r[..15] == "tr:nth-of-type("
  {
    "tr:nth-of-type(" + Decimal(row) + ")>td:nth-of-type(2)"
  }

  /** A row below ten is named by its single digit, right after the
      opening parenthesis. */
  lemma TableCellDigit(row: nat)
    requires row < 10
    ensures TableCell(row)[15] == (48 + row) as char
  {
  }

  /** The detail table: the body of the detail card. */
  function DetailTableSel(): (r: string)
    ensures r == CircleDetailCardSel + " tbody"
  {
    JoinTwoSelectors(CircleDetailCardSel, "tbody");
    JoinSelectors([CircleDetailCardSel, "tbody"])
  }

  /** The selectors of the seven detail fields. */
  datatype DetailSelectors = DetailSelectors(
    image: string, name: string, space: string, penname: string,
    webURL: string, genre: string, genreFreeFormat: string)

  /** The selectors `circlesDetailFetchingTasks` builds. Space, pen name,
      web link, genre and free-form genre are the second cells of table rows
      2 to 6; the web link is the anchor inside its cell. */
  function CircleDetailSelectors(): (s: DetailSelectors)
    ensures s.image == CircleDetailCardSel + " " + "div.circle-detail-image>img"
    ensures s.name == DetailTableSel() + " " + "span.circle-name"
    ensures s.space == DetailTableSel() + " " + TableCell(2)
    ensures s.penname == DetailTableSel() + " " + TableCell(3)
    ensures s.webURL == DetailTableSel() + " " + TableCell(4) + " " + "a"
    ensures s.genre == DetailTableSel() + " " + TableCell(5)
    ensures s.genreFreeFormat == DetailTableSel() + " " + TableCell(6)
  {
    var table := DetailTableSel();
    JoinTwoSelectors(CircleDetailCardSel, "div.circle-detail-image>img");
    JoinTwoSelectors(table, "span.circle-name");
    JoinTwoSelectors(table, TableCell(2));
    JoinTwoSelectors(table, TableCell(3));
    JoinThreeSelectors(table, TableCell(4), "a");
    JoinTwoSelectors(table, TableCell(5));
    JoinTwoSelectors(table, TableCell(6));
    DetailSelectors(
      JoinSelectors([CircleDetailCardSel, "div.circle-detail-image>img"]),
      JoinSelectors([table, "span.circle-name"]),
      JoinSelectors([table, TableCell(2)]),
      JoinSelectors([table, TableCell(3)]),
      JoinSelectors([table, TableCell(4), "a"]),
      JoinSelectors([table, TableCell(5)]),
      JoinSelectors([table, TableCell(6)]))
  }

  /** Unlike the list columns, the detail fields read distinct table rows. */
  lemma DetailTableRowsDistinct()
    ensures var s := CircleDetailSelectors();
            && s.space != s.penname && s.space != s.genre && s.space != s.genreFreeFormat
            && s.penname != s.genre && s.penname != s.genreFreeFormat && s.genre != s.genreFreeFormat
  {
    var s := CircleDetailSelectors();
    var k := |DetailTableSel()| + 1 + 15;
    TableCellDigit(2);
    TableCellDigit(3);
    TableCellDigit(5);
    TableCellDigit(6);
    assert s.space[k] == '2' && s.penname[k] == '3' && s.genre[k] == '5' && s.genreFreeFormat[k] == '6';
  }

  /** The five lists the list tasks fill, each behind its own pointer. */
  class CirclesTasksResult {
    const detailUrls: StringSlice
    const spaces: StringSlice
    const names: StringSlice
    const penNames: StringSlice
    const genres: StringSlice

    /** The five slices are five distinct objects. */
    predicate Valid()
    {
      && detailUrls != spaces && detailUrls != names && detailUrls != penNames && detailUrls != genres
      && spaces != names && spaces != penNames && spaces != genres
      && names != penNames && names != genres
      && penNames != genres
    }

    /** `NewCirclesTasksResult`: five empty lists. */
    constructor ()
      ensures Valid()
      ensures fresh(detailUrls) && fresh(spaces) && fresh(names) && fresh(penNames) && fresh(genres)
      ensures detailUrls.items == [] && spaces.items == [] && names.items == []
      ensures penNames.items == [] && genres.items == []
    {
      detailUrls := new StringSlice([]);
      spaces := new StringSlice([]);
      names := new StringSlice([]);
      penNames := new StringSlice([]);
      genres := new StringSlice([]);
    }

    /** The five lists have one entry per circle. */
    predicate EqualLengths()
      reads detailUrls, spaces, names, penNames, genres
    {
      && |detailUrls.items| == |spaces.items|
      && |detailUrls.items| == |names.items|
      && |detailUrls.items| == |penNames.items|
      && |detailUrls.items| == |genres.items|
    }

    /** `validate`: the five lists must have equal lengths; the error
        reports all five. */
    function Validate(): (r: Option<TasksError>)
      reads detailUrls, spaces, names, penNames, genres
      ensures r.None? <==> EqualLengths()
      ensures r.Some? ==> r.value == InvalidCircles(
                |detailUrls.items|, |spaces.items|, |names.items|, |penNames.items|, |genres.items|)
    {
      if !EqualLengths() then
        Some(InvalidCircles(|detailUrls.items|, |spaces.items|, |names.items|, |penNames.items|, |genres.items|))
      else None
    }
  }

  /** The circle at index `i` of five lists of equal length. */
  function CircleAt(res: CirclesTasksResult, i: nat): Circle
    reads res.detailUrls, res.spaces, res.names, res.penNames, res.genres
    requires res.EqualLengths() && i < |res.detailUrls.items|
  {
    Circle(res.detailUrls.items[i], res.spaces.items[i], res.names.items[i], res.penNames.items[i], res.genres.items[i])
  }

  /** `fetchResultToCircles`: invalid lists give no circles and the
      validation error; otherwise circle `i` is built from entry `i` of each
      list. */
  method FetchResultToCircles(res: CirclesTasksResult) returns (circles: seq<Circle>, err: Option<TasksError>)
    ensures err == res.Validate()
    ensures err.Some? ==> circles == []
    ensures err.None? ==> |circles| == |res.detailUrls.items|
    ensures err.None? ==> forall i | 0 <= i < |circles| ::
              && circles[i].detailURL == res.detailUrls.items[i]
              && circles[i].space == res.spaces.items[i]
              && circles[i].name == res.names.items[i]
              && circles[i].penname == res.penNames.items[i]
              && circles[i].genre == res.genres.items[i]
  {
    circles := [];
    err := res.Validate();
    if err.Some? {
      return;
    }
    for i := 0 to |res.detailUrls.items|
      invariant |circles| == i
      invariant forall j | 0 <= j < i :: circles[j] == CircleAt(res, j)
    {
      circles := circles + [Circle(res.detailUrls.items[i], res.spaces.items[i], res.names.items[i],
                                   res.penNames.items[i], res.genres.items[i])];
    }
  }

  /** Five empty lists validate and give no circles. */
  method EmptyResultGivesNoCircles() returns (circles: seq<Circle>, err: Option<TasksError>)
    ensures err == None && circles == []
  {
    var res := new CirclesTasksResult();
    circles, err := FetchResultToCircles(res);
  }

  /** The nodes a page yields for a selector; none when nothing matches. */
  function Query(page: map<string, seq<Node>>, selector: string): seq<Node>
  {
    if selector in page then page[selector] else []
  }

  /** Every attribute list on the page is made of name-value pairs. */
  predicate PagePaired(page: map<string, seq<Node>>)
  {
    forall sel | sel in page :: Paired(page[sel])
  }

  /** Every detail link carries an `href`, and each of the space, name and
      pen-name columns has one node with a non-empty text per link. */
  predicate Complete(page: map<string, seq<Node>>)
    requires PagePaired(page)
  {
    var s := CirclesSelectors();
    var links := Query(page, s.detailUrls);
    && AllHave(links, "href")
    && FullColumn(Query(page, s.spaces), |links|)
    && FullColumn(Query(page, s.names), |links|)
    && FullColumn(Query(page, s.penNames), |links|)
  }

  /** `n` nodes, each with a non-empty text. */
  predicate FullColumn(nodes: seq<Node>, n: nat)
  {
    |nodes| == n && forall i | 0 <= i < n :: NodeText(nodes[i]) != ""
  }

  /** The list tasks of `circlesFetchingTasks`, run in order on a page: the
      `href` of each detail link, then the texts of the four text columns.
      The run stops at the first task that fails. */
  method RunCirclesTasks(page: map<string, seq<Node>>) returns (res: CirclesTasksResult, err: Option<ActionError>)
    requires PagePaired(page)
    ensures res.Valid()
    ensures fresh(res.detailUrls) && fresh(res.spaces) && fresh(res.names) && fresh(res.penNames) && fresh(res.genres)
    ensures var s := CirclesSelectors();
            err.None? <==>
              && |Query(page, s.detailUrls)| > 0 && |Query(page, s.spaces)| > 0 && |Query(page, s.names)| > 0
              && |Query(page, s.penNames)| > 0 && |Query(page, s.genres)| > 0
    ensures var s := CirclesSelectors();
            err.None? ==>
              && res.detailUrls.items == AttributeValues(Query(page, s.detailUrls), "href")
              && res.spaces.items == NonEmptyTexts(Query(page, s.spaces))
              && res.names.items == NonEmptyTexts(Query(page, s.names))
              && res.penNames.items == NonEmptyTexts(Query(page, s.penNames))
              && res.genres.items == NonEmptyTexts(Query(page, s.genres))
  {
    res := new CirclesTasksResult();
    var s := CirclesSelectors();
    err := AttributeValueAll(Query(page, s.detailUrls), "href", res.detailUrls, null);
    if err.Some? {
      return;
    }
    err := Texts(s.spaces, Query(page, s.spaces), res.spaces);
    if err.Some? {
      return;
    }
    err := Texts(s.names, Query(page, s.names), res.names);
    if err.Some? {
      return;
    }
    err := Texts(s.penNames, Query(page, s.penNames), res.penNames);
    if err.Some? {
      return;
    }
    err := Texts(s.genres, Query(page, s.genres), res.genres);
  }

  /** `FetchCircles` on a page: run the list tasks, then zip the lists.
      Since the genre column reads the pen-name nodes, every circle's genre
      is its pen name. */
  method FetchCircles(page: map<string, seq<Node>>) returns (circles: seq<Circle>, err: Option<FetchError>)
    requires PagePaired(page)
    ensures err.Some? ==> circles == []
    ensures forall i | 0 <= i < |circles| :: circles[i].genre == circles[i].penname
    ensures Complete(page) && |Query(page, CirclesSelectors().detailUrls)| > 0 ==>
              err == None && |circles| == |Query(page, CirclesSelectors().detailUrls)|
  {
    var s := CirclesSelectors();
    CompleteColumns(page);
    var res, e := RunCirclesTasks(page);
    if e.Some? {
      return [], Some(TaskFailed(e.value));
    }
    assert res.genres.items == res.penNames.items;
    var invalid;
    circles, invalid := FetchResultToCircles(res);
    if invalid.Some? {
      return [], Some(ConversionFailed(invalid.value));
    }
    err := None;
  }

  /** On a complete page the four columns the tasks fill have one entry
      per detail link. */
  lemma CompleteColumns(page: map<string, seq<Node>>)
    requires PagePaired(page)
    ensures var s := CirclesSelectors();
            var n := |Query(page, s.detailUrls)|;
            Complete(page) ==>
              && |AttributeValues(Query(page, s.detailUrls), "href")| == n
              && |NonEmptyTexts(Query(page, s.spaces))| == n
              && |NonEmptyTexts(Query(page, s.names))| == n
              && |NonEmptyTexts(Query(page, s.penNames))| == n
  {
    var s := CirclesSelectors();
    AttributeValuesComplete(Query(page, s.detailUrls), "href");
    NonEmptyTextsComplete(Query(page, s.spaces));
    NonEmptyTextsComplete(Query(page, s.names));
    NonEmptyTextsComplete(Query(page, s.penNames));
  }
}
