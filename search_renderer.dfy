/** The search result page of src/search_renderer.cpp: the navigation query
    (`buildQueryData`), the result rows and summary assembled by
    `SearchRenderer::getHtml`, the renderer's setters and constructors. The
    mustache template that turns the assembled data into HTML is not part of
    this model; `getHtml` here returns the data it would render. */
module SearchRendering {
  import opened Wrappers
  import opened Strings
  import opened Pagination
  import opened Catalog

  // ---------------------------------------------------------------------
  // buildQueryData
  // ---------------------------------------------------------------------

  /** The `query` object: the pattern escaped for HTML and the query-string
      path that repeats the search on another page. */
  datatype QueryData = QueryData(pattern: string, path: string)

  /** One `content=` field per book name, in the given order. */
  function ContentFields(names: seq<string>, urlEncode: string -> string): (fs: seq<string>)
    ensures |fs| == |names|
  {
    seq(|names|, k requires 0 <= k < |names| => "content=" + urlEncode(names[k]))
  }

  /** The path `buildQueryData` builds: the encoded pattern, then one
      `&content=` field per book name in ascending set order. */
  function QueryPath(pattern: string, bookNames: set<string>, urlEncode: string -> string): string
  {
    Join(["?pattern=" + urlEncode(pattern)] + ContentFields(Ascending(bookNames), urlEncode), '&')
  }

  lemma ContentStep(head: string, names: seq<string>, i: nat, urlEncode: string -> string)
    requires i < |names|
    ensures Join([head] + ContentFields(names[..i + 1], urlEncode), '&')
         == Join([head] + ContentFields(names[..i], urlEncode), '&') + "&content=" + urlEncode(names[i])
  {
    var before := ContentFields(names[..i], urlEncode);
    var field := "content=" + urlEncode(names[i]);
    assert ContentFields(names[..i + 1], urlEncode) == before + [field];
    assert [head] + (before + [field]) == ([head] + before) + [field];
    JoinSnoc([head] + before, field, '&');
  }

  /** buildQueryData: stream the encoded pattern and then every book name, in
      set order, into the path. */
  method BuildQueryData(pattern: string, bookNames: set<string>,
                        urlEncode: string -> string, encodeDiples: string -> string)
    returns (query: QueryData)
    ensures query.pattern == encodeDiples(pattern)
    ensures query.path == QueryPath(pattern, bookNames, urlEncode)
  {
    var names := Ascending(bookNames);
    var head := "?pattern=" + urlEncode(pattern);
    var path := head;
    var i := 0;
    while i < |names|
      invariant 0 <= i <= |names|
      invariant path == Join([head] + ContentFields(names[..i], urlEncode), '&')
    {
      ContentStep(head, names, i, urlEncode);
      path := path + "&content=" + urlEncode(names[i]);
      i := i + 1;
    }
    assert names[..i] == names;
    query := QueryData(encodeDiples(pattern), path);
  }

  /** `urlEncode` escapes `&` whatever its input. */
  ghost predicate EscapesAmpersand(urlEncode: string -> string)
  {
    forall s :: '&' !in urlEncode(s)
  }

  lemma NoAmpersandInConcat(a: string, b: string)
    requires '&' !in a && '&' !in b
    ensures '&' !in a + b
  {
  }

  lemma QueryPartsHaveNoAmpersand(pattern: string, names: seq<string>, urlEncode: string -> string)
    requires EscapesAmpersand(urlEncode)
    ensures var parts := ["?pattern=" + urlEncode(pattern)] + ContentFields(names, urlEncode);
            forall k :: 0 <= k < |parts| ==> '&' !in parts[k]
  {
    var parts := ["?pattern=" + urlEncode(pattern)] + ContentFields(names, urlEncode);
    forall k | 0 <= k < |parts| ensures '&' !in parts[k] {
      if k == 0 {
        NoAmpersandInConcat("?pattern=", urlEncode(pattern));
      } else {
        assert parts[k] == "content=" + urlEncode(names[k - 1]);
        NoAmpersandInConcat("content=", urlEncode(names[k - 1]));
      }
    }
  }

  /** Splitting the path on `&` recovers the pattern field followed by one
      `content=` field per book name, in ascending order. */
  lemma QueryPathFields(pattern: string, bookNames: set<string>, urlEncode: string -> string)
    requires EscapesAmpersand(urlEncode)
    ensures var fields := Split(QueryPath(pattern, bookNames, urlEncode), '&');
            && |fields| == |bookNames| + 1
            && fields[0] == "?pattern=" + urlEncode(pattern)
            && fields[1..] == ContentFields(Ascending(bookNames), urlEncode)
  {
    var names := Ascending(bookNames);
    var parts := ["?pattern=" + urlEncode(pattern)] + ContentFields(names, urlEncode);
    QueryPartsHaveNoAmpersand(pattern, names, urlEncode);
    SplitJoin(parts, '&');
    assert parts[1..] == ContentFields(names, urlEncode);
  }

  /** Every selected book appears in the path as its own `content=` field. */
  lemma QueryPathMentionsEveryBook(pattern: string, bookNames: set<string>, urlEncode: string -> string, b: string)
    requires EscapesAmpersand(urlEncode)
    requires b in bookNames
    ensures "content=" + urlEncode(b) in Split(QueryPath(pattern, bookNames, urlEncode), '&')[1..]
  {
    QueryPathFields(pattern, bookNames, urlEncode);
    var names := Ascending(bookNames);
    var k :| 0 <= k < |names| && names[k] == b;
    assert ContentFields(names, urlEncode)[k] == "content=" + urlEncode(b);
  }

  /** With no book selected the path is the pattern field alone. */
  lemma QueryPathNoBooks(pattern: string, urlEncode: string -> string)
    ensures QueryPath(pattern, {}, urlEncode) == "?pattern=" + urlEncode(pattern)
  {
    assert Ascending({}) == [];
  }

  // ---------------------------------------------------------------------
  // Rows of getHtml
  // ---------------------------------------------------------------------

  /** One entry of the search result set, with the accessors getHtml calls.
      A negative word count means "unknown". */
  datatype SearchEntry = SearchEntry(zimId: string, title: string, path: string, snippet: string, wordCount: int)

  /** One `items` element: a field the code does not set is `None`. */
  datatype Row = Row(
    title: string,
    absolutePath: string,
    snippet: string,
    bookTitle: Option<string>,
    wordCount: Option<nat>)

  /** Why getHtml does not produce a page: `getNameForId` or `getBookById`
      threw for an entry's archive id, or `buildPagination`'s assertion
      failed. */
  datatype RenderError = UnknownName(zimId: string) | UnknownBook(zimId: string) | PaginationAssertion

  /** The row for one entry, or the exception its assembly raises. */
  function RowFor(e: SearchEntry, nameMapper: NameMapper, library: Option<Library>, urlEncode: string -> string)
    : Result<Row, RenderError>
  {
    if e.zimId !in nameMapper then Failure(UnknownName(e.zimId))
    else if library.Some? && e.zimId !in library.value.books then Failure(UnknownBook(e.zimId))
    else Success(Row(
      e.title,
      urlEncode(nameMapper[e.zimId] + "/" + e.path),
      e.snippet,
      if library.Some? then Some(library.value.books[e.zimId].title) else None,
      if e.wordCount >= 0 then Some(e.wordCount as nat) else None))
  }

  function RowMaker(nameMapper: NameMapper, library: Option<Library>, urlEncode: string -> string)
    : SearchEntry -> Result<Row, RenderError>
  {
    e => RowFor(e, nameMapper, library, urlEncode)
  }

  /** The row loop of getHtml: one row per entry in iteration order; the
      first entry whose assembly throws aborts the loop with its error. */
  method BuildItems(entries: seq<SearchEntry>, nameMapper: NameMapper, library: Option<Library>,
                    urlEncode: string -> string)
    returns (r: Result<seq<Row>, RenderError>)
    ensures r == Traverse(entries, RowMaker(nameMapper, library, urlEncode))
  {
    ghost var f := RowMaker(nameMapper, library, urlEncode);
    var items: seq<Row> := [];
    var i := 0;
    assert entries[0..] == entries;
    PrependNothing(Traverse(entries, f));
    while i < |entries|
      invariant 0 <= i <= |entries|
      invariant Traverse(entries, f) == Prepend(items, Traverse(entries[i..], f))
    {
      TraverseStep(entries, i, f);
      var e := entries[i];
      if e.zimId !in nameMapper {
        return Failure(UnknownName(e.zimId));
      }
      var absolutePath := urlEncode(nameMapper[e.zimId] + "/" + e.path);
      var bookTitle: Option<string> := None;
      if library.Some? {
        if e.zimId !in library.value.books {
          return Failure(UnknownBook(e.zimId));
        }
        bookTitle := Some(library.value.books[e.zimId].title);
      }
      var wordCount: Option<nat> := None;
      if e.wordCount >= 0 {
        wordCount := Some(e.wordCount as nat);
      }
      var row := Row(e.title, absolutePath, e.snippet, bookTitle, wordCount);
      assert f(e) == Success(row);
      PrependTwice(items, [row], Traverse(entries[i + 1..], f));
      items := items + [row];
      i := i + 1;
    }
    assert entries[i..] == [];
    assert items + [] == items;
    r := Success(items);
  }

  /** The `results` object: the rows and the summary counts (shown through
      beautifyInteger, which is left to the template layer). */
  datatype Results = Results(items: seq<Row>, count: nat, hasResults: bool, start: nat, end: nat)

  /** Everything getHtml hands to the template. */
  datatype ResultsPage = ResultsPage(
    results: Results,
    protocolPrefix: string,
    searchProtocolPrefix: string,
    pagination: PaginationData,
    query: QueryData)

  /** The fields of a SearchRenderer, as one value. */
  datatype RendererState = RendererState(
    entries: seq<SearchEntry>,
    nameMapper: NameMapper,
    library: Option<Library>,
    protocolPrefix: string,
    searchProtocolPrefix: string,
    estimatedResultCount: nat,
    resultStart: nat,
    searchPattern: string,
    searchBookNames: set<string>,
    pageLength: nat)

  /** What getHtml produces from a renderer's fields: the rows first (the first
      failing entry aborts), then the rest of the page. */
  function RenderPage(st: RendererState, urlEncode: string -> string, encodeDiples: string -> string)
    : Result<ResultsPage, RenderError>
  {
    match Traverse(st.entries, RowMaker(st.nameMapper, st.library, urlEncode))
    case Failure(e) => Failure(e)
    case Success(items) => PageWithItems(st, items, urlEncode, encodeDiples)
  }

  /** The page around already assembled rows: the summary, the pagination
      (whose assertions need a non-zero page length and result count) and the
      query. */
  function PageWithItems(st: RendererState, items: seq<Row>, urlEncode: string -> string, encodeDiples: string -> string)
    : Result<ResultsPage, RenderError>
  {
    if st.pageLength == 0 || st.estimatedResultCount == 0 then Failure(PaginationAssertion)
    else Success(ResultsPage(
      Results(items, st.estimatedResultCount, st.estimatedResultCount != 0, st.resultStart + 1,
              Min(st.resultStart + st.pageLength, st.estimatedResultCount)),
      st.protocolPrefix,
      st.searchProtocolPrefix,
      Paginate(st.pageLength, st.estimatedResultCount, st.resultStart),
      QueryData(encodeDiples(st.searchPattern), QueryPath(st.searchPattern, st.searchBookNames, urlEncode))))
  }

  /** The renderer of the five-argument constructor (lines 55-64): prefixes
      "zim://" and "search://", no pattern and no book names yet. */
  function InitialState(entries: seq<SearchEntry>, mapper: NameMapper, library: Option<Library>,
                        start: nat, estimatedResultCount: nat, pageLength: nat): (st: RendererState)
    ensures st.protocolPrefix == "zim://" && st.searchProtocolPrefix == "search://"
    ensures st.searchPattern == [] && st.searchBookNames == {}
  {
    RendererState(entries, mapper, library, "zim://", "search://", estimatedResultCount, start, "", {}, pageLength)
  }

  /** A searcher, through the getters the first constructor calls. */
  datatype Searcher = Searcher(resultSet: seq<SearchEntry>, estimatedResultCount: nat, resultStart: nat)

  /** The (start, estimatedResultCount) pair the first constructor passes on,
      as written: the two getters land in each other's parameter. */
  function ForwardedAsWritten(s: Searcher): (nat, nat)
  {
    (s.estimatedResultCount, s.resultStart)
  }

  /** The pair the first constructor evidently means to pass on. */
  function Forwarded(s: Searcher): (nat, nat)
  {
    (s.resultStart, s.estimatedResultCount)
  }

  function SearcherState(s: Searcher, mapper: NameMapper, pageLength: nat): RendererState
  {
    InitialState(s.resultSet, mapper, None, Forwarded(s).0, Forwarded(s).1, pageLength)
  }

  /** getHtml, with the fields held by an object that the setters update. */
  class SearchRenderer {
    var entries: seq<SearchEntry>
    var nameMapper: NameMapper
    var library: Option<Library>
    var protocolPrefix: string
    var searchProtocolPrefix: string
    var estimatedResultCount: nat
    var resultStart: nat
    var searchPattern: string
    var searchBookNames: set<string>
    /** Declared in the header with its own setter; its initial value is not
        part of this model, so the constructors take it. */
    var pageLength: nat

    function State(): RendererState
      reads this
    {
      RendererState(entries, nameMapper, library, protocolPrefix, searchProtocolPrefix,
                    estimatedResultCount, resultStart, searchPattern, searchBookNames, pageLength)
    }

    /** The five-argument constructor. */
    constructor (srs: seq<SearchEntry>, mapper: NameMapper, lib: Option<Library>,
                 start: nat, count: nat, initialPageLength: nat)
      ensures State() == InitialState(srs, mapper, lib, start, count, initialPageLength)
    {
      entries, nameMapper, library := srs, mapper, lib;
      protocolPrefix, searchProtocolPrefix := "zim://", "search://";
      estimatedResultCount, resultStart := count, start;
      searchPattern, searchBookNames := "", {};
      pageLength := initialPageLength;
    }

    /** The four-argument constructor: no library. */
    constructor WithoutLibrary(srs: seq<SearchEntry>, mapper: NameMapper,
                               start: nat, count: nat, initialPageLength: nat)
      ensures State() == InitialState(srs, mapper, None, start, count, initialPageLength)
    {
      entries, nameMapper, library := srs, mapper, None;
      protocolPrefix, searchProtocolPrefix := "zim://", "search://";
      estimatedResultCount, resultStart := count, start;
      searchPattern, searchBookNames := "", {};
      pageLength := initialPageLength;
    }

    /** The constructor from a searcher, forwarding its start and its
        estimated count each to the parameter of the same meaning. */
    constructor FromSearcher(searcher: Searcher, mapper: NameMapper, initialPageLength: nat)
      ensures State() == SearcherState(searcher, mapper, initialPageLength)
    {
      var (start, count) := Forwarded(searcher);
      entries, nameMapper, library := searcher.resultSet, mapper, None;
      protocolPrefix, searchProtocolPrefix := "zim://", "search://";
      estimatedResultCount, resultStart := count, start;
      searchPattern, searchBookNames := "", {};
      pageLength := initialPageLength;
    }

    method SetSearchPattern(pattern: string)
      modifies this
      ensures State() == old(State()).(searchPattern := pattern)
    {
      searchPattern := pattern;
    }

    method SetSearchBookNames(bookNames: set<string>)
      modifies this
      ensures State() == old(State()).(searchBookNames := bookNames)
    {
      searchBookNames := bookNames;
    }

    method SetProtocolPrefix(prefix: string)
      modifies this
      ensures State() == old(State()).(protocolPrefix := prefix)
    {
      protocolPrefix := prefix;
    }

    method SetSearchProtocolPrefix(prefix: string)
      modifies this
      ensures State() == old(State()).(searchProtocolPrefix := prefix)
    {
      searchProtocolPrefix := prefix;
    }

    /** getHtml: one row per entry in iteration order, then the summary, the
        pagination and the query data. */
    method GetHtml(urlEncode: string -> string, encodeDiples: string -> string)
      returns (r: Result<ResultsPage, RenderError>)
      ensures r == RenderPage(State(), urlEncode, encodeDiples)
    {
      var rows := BuildItems(entries, nameMapper, library, urlEncode);
      if rows.Failure? {
        return Failure(rows.error);
      }
      var items := rows.value;
      assert RenderPage(State(), urlEncode, encodeDiples) == PageWithItems(State(), items, urlEncode, encodeDiples);
      var results := Results(items, estimatedResultCount, estimatedResultCount != 0, resultStart + 1,
                             Min(resultStart + pageLength, estimatedResultCount));
      if pageLength == 0 || estimatedResultCount == 0 {
        return Failure(PaginationAssertion);
      }
      var pagination := BuildPagination(pageLength, estimatedResultCount, resultStart);
      var query := BuildQueryData(searchPattern, searchBookNames, urlEncode, encodeDiples);
      r := Success(ResultsPage(results, protocolPrefix, searchProtocolPrefix, pagination, query));
    }
  }

  // ---------------------------------------------------------------------
  // Properties of the assembled page
  // ---------------------------------------------------------------------

  /** When every id resolves (and names a library book when a library is
      attached) and count and page length are non-zero, a page is produced
      with one row per entry, in entry order: title and snippet copied,
      the path made from the resolved name, the book title exactly when a
      library is attached and the word count exactly when it is known. */
  lemma PageRows(st: RendererState, urlEncode: string -> string, encodeDiples: string -> string)
    requires forall k :: 0 <= k < |st.entries| ==> st.entries[k].zimId in st.nameMapper
    requires st.library.Some? ==> forall k :: 0 <= k < |st.entries| ==> st.entries[k].zimId in st.library.value.books
    requires st.pageLength != 0 && st.estimatedResultCount != 0
    ensures RenderPage(st, urlEncode, encodeDiples).Success?
    ensures var items := RenderPage(st, urlEncode, encodeDiples).value.results.items;
            |items| == |st.entries| &&
            forall k :: 0 <= k < |items| ==>
              var e := st.entries[k];
              && e.zimId in st.nameMapper
              && items[k].title == e.title
              && items[k].snippet == e.snippet
              && items[k].absolutePath == urlEncode(st.nameMapper[e.zimId] + "/" + e.path)
              && (items[k].bookTitle.Some? <==> st.library.Some?)
              && (st.library.Some? ==> e.zimId in st.library.value.books &&
                                       items[k].bookTitle == Some(st.library.value.books[e.zimId].title))
              && (items[k].wordCount.Some? <==> e.wordCount >= 0)
              && (e.wordCount >= 0 ==> items[k].wordCount == Some(e.wordCount as nat))
  {
    var f := RowMaker(st.nameMapper, st.library, urlEncode);
    TraverseSuccess(st.entries, f);
    forall k | 0 <= k < |st.entries| ensures f(st.entries[k]).Success? {
    }
  }

  /** A page is produced exactly when every entry's id resolves (and names a
      library book when a library is attached) and the count and page length
      are non-zero; then the summary, pagination and query follow from the
      fields. In particular a produced page always reports results. */
  lemma PageSucceeds(st: RendererState, urlEncode: string -> string, encodeDiples: string -> string)
    ensures RenderPage(st, urlEncode, encodeDiples).Success? <==>
              && (forall k :: 0 <= k < |st.entries| ==> st.entries[k].zimId in st.nameMapper)
              && (st.library.Some? ==> forall k :: 0 <= k < |st.entries| ==> st.entries[k].zimId in st.library.value.books)
              && st.pageLength != 0 && st.estimatedResultCount != 0
    ensures RenderPage(st, urlEncode, encodeDiples).Success? ==>
              var page := RenderPage(st, urlEncode, encodeDiples).value;
              && page.results.hasResults
              && page.results.count == st.estimatedResultCount
              && page.results.start == st.resultStart + 1
              && page.results.end <= st.estimatedResultCount
              && page.pagination == Paginate(st.pageLength, st.estimatedResultCount, st.resultStart)
              && page.query == QueryData(encodeDiples(st.searchPattern), QueryPath(st.searchPattern, st.searchBookNames, urlEncode))
              && page.protocolPrefix == st.protocolPrefix
              && page.searchProtocolPrefix == st.searchProtocolPrefix
  {
    var f := RowMaker(st.nameMapper, st.library, urlEncode);
    TraverseSuccess(st.entries, f);
    if Traverse(st.entries, f).Failure? {
      var k :| 0 <= k < |st.entries| && !f(st.entries[k]).Success?;
    }
  }

  /** An id the name mapper cannot resolve aborts the whole page (the lookup
      is not caught); the error names the first entry whose row fails. */
  lemma UnresolvedNameAbortsPage(st: RendererState, urlEncode: string -> string, encodeDiples: string -> string, k: nat)
    requires k < |st.entries| && st.entries[k].zimId !in st.nameMapper
    ensures RenderPage(st, urlEncode, encodeDiples).Failure?
    ensures exists j :: 0 <= j <= k &&
              RowFor(st.entries[j], st.nameMapper, st.library, urlEncode).Failure? &&
              (forall i :: 0 <= i < j ==> RowFor(st.entries[i], st.nameMapper, st.library, urlEncode).Success?) &&
              RenderPage(st, urlEncode, encodeDiples).error ==
                (if st.entries[j].zimId !in st.nameMapper then UnknownName(st.entries[j].zimId)
                 else UnknownBook(st.entries[j].zimId))
  {
    var f := RowMaker(st.nameMapper, st.library, urlEncode);
    TraverseSuccess(st.entries, f);
    assert !f(st.entries[k]).Success?;
    TraverseFailure(st.entries, f);
    var j :| 0 <= j < |st.entries| && f(st.entries[j]).Failure? &&
             Traverse(st.entries, f).error == f(st.entries[j]).error &&
             forall i :: 0 <= i < j ==> f(st.entries[i]).Success?;
  }

  // ---------------------------------------------------------------------
  // The constructor from a searcher, as written
  // ---------------------------------------------------------------------

  /** As written, a searcher positioned at result 0 of 100 yields a renderer
      whose estimated count is 0, so getHtml trips buildPagination's
      assertion; forwarding each getter to its own parameter renders the page. */
  lemma ForwardingSwapFailsPage(mapper: NameMapper, pageLength: nat, urlEncode: string -> string, encodeDiples: string -> string)
    requires pageLength != 0
    ensures var s := Searcher([], 100, 0);
            var asWritten := InitialState(s.resultSet, mapper, None, ForwardedAsWritten(s).0, ForwardedAsWritten(s).1, pageLength);
            && RenderPage(asWritten, urlEncode, encodeDiples) == Failure(PaginationAssertion)
            && RenderPage(SearcherState(s, mapper, pageLength), urlEncode, encodeDiples).Success?
            && RenderPage(SearcherState(s, mapper, pageLength), urlEncode, encodeDiples).value.results.count == 100
  {
    var s := Searcher([], 100, 0);
    assert Traverse(s.resultSet, RowMaker(mapper, None, urlEncode)) == Success([]);
  }

  /** With the corrected forwarding, a page rendered from a searcher reports
      the searcher's own estimated count and start and paginates by them. */
  lemma SearcherPageReportsSearcher(s: Searcher, mapper: NameMapper, pageLength: nat,
                                    urlEncode: string -> string, encodeDiples: string -> string)
    requires forall k :: 0 <= k < |s.resultSet| ==> s.resultSet[k].zimId in mapper
    requires pageLength != 0 && s.estimatedResultCount != 0
    ensures RenderPage(SearcherState(s, mapper, pageLength), urlEncode, encodeDiples).Success?
    ensures var page := RenderPage(SearcherState(s, mapper, pageLength), urlEncode, encodeDiples).value;
            && page.results.count == s.estimatedResultCount
            && page.results.start == s.resultStart + 1
            && page.pagination == Paginate(pageLength, s.estimatedResultCount, s.resultStart)
            && |page.results.items| == |s.resultSet|
  {
    PageRows(SearcherState(s, mapper, pageLength), urlEncode, encodeDiples);
    PageSucceeds(SearcherState(s, mapper, pageLength), urlEncode, encodeDiples);
  }
}
