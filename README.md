# kiwix server: search page, request arguments and library dump, in Dafny

This project models three data-shaping parts of the kiwix HTTP server (libkiwix) and proves what
they promise.

- **Search result page** (`src/search_renderer.cpp`). `buildPagination` turns a page length, a
  result count and a start offset into navigation links. These are a first-page anchor, a list of
  neighbouring pages and a last-page anchor. `buildQueryData` builds the query path that repeats a
  search. `SearchRenderer::getHtml` assembles one row per search result, a summary, the pagination
  and the query. The renderer object holds the result set, the collaborators, the counts, the search
  pattern, the selected book names and two URL prefixes, and its setters update them.
- **Request arguments** (`src/server/request_context.h`). These are the accessors of
  `RequestContext`: the raw query string, gzip acceptance, the strict argument lookups, the
  optional lookup that falls back to a default, and `get_query(filter)`. That last one rebuilds a
  query string from the argument map in key order.
- **Library dump** (`src/html_dumper.cpp`). `getTagList` keeps the visible tags of a book.
  `HTMLDumper::dumpPlainHTML` builds one record per book that a library filter selects.

Code that works step by step is modelled as methods with loops. Each such method is proved equal
to a specification function, and the properties are proved as lemmas about those functions. The
renderer is a class whose setters update its fields. A request context never changes after
construction, so it is a datatype.

The collaborators are function-typed parameters or plain data:

- parameters: `urlEncode`, `encodeDiples`, `kiwix::split` and `extractFromString<T>`;
- plain data: the library (`Catalog.Library`: its `books` field maps book id to book, and its
  `select` field is the library filter, a function from a `Filter` to the matching ids), the name mapper
  (`Catalog.NameMapper`, a map from id to name) and the search result set (a sequence of entries).

A lookup that throws in the source is a missing key here. The C++ exceptions and the pagination
assertions become `Result` failures. The iteration order of `std::map` and `std::set` is
`Strings.Ascending`, which lists a set's elements in a proved lexicographic total order.

Files:

- `wrappers.dfy`: Option, Result, and `Traverse`, a map over a sequence that aborts on the first failure.
- `strings.dfy`: the lexicographic order, ascending listing of a set, joining and splitting.
- `catalog.dfy`: the library, book and name-mapper data.
- `pagination.dfy`: `buildPagination`.
- `search_renderer.dfy`: `buildQueryData`, the row loop, the renderer class, `getHtml`.
- `request_context.dfy`: the `RequestContext` accessors.
- `html_dumper.dfy`: `getTagList` and `dumpPlainHTML`.

Two behaviours of the code worth knowing:

- In `getHtml` the `getNameForId` call is not guarded (src/search_renderer.cpp:173). An
  unresolvable archive id therefore aborts the whole page. It does not leave an empty field.
- With a single page, `buildPagination` sets no last-page anchor (src/search_renderer.cpp:135-141).
  So only the first-page anchor exists.

## Model

| member | source | states |
|---|---|---|
| Pagination.WindowOf | src/search_renderer.cpp:118-124 | the generated window starts four pages before the current page, or at 0, and ends four pages after it, capped at the last page |
| Pagination.WindowPages | src/search_renderer.cpp:118-119 | the current page holds result `resultsStart` and the last page holds result `resultsCount - 1`: page i covers `[i*pageLength, (i+1)*pageLength)` |
| Pagination.WalkWindow | src/search_renderer.cpp:127-142 | for any window that does not pass the last page (wrapped or not), walking the window sends index 0 to the first anchor and the last page to the last anchor; every other index becomes a list entry, ascending, labelled i+1, starting at i*pageLength, current iff i is the current page |
| Pagination.PaginationOfWindow | src/search_renderer.cpp:120-160 | for any window that does not pass the last page, the walk plus the synthesized anchors (label 0 when the window starts after page 0, label nbPages when it stops before the last page) equals the reference definition `PaginationFromWindow` |
| Pagination.BuildPagination | src/search_renderer.cpp:106-162 | the loop-built pagination object equals the reference definition `Paginate` for every nonzero page length and result count |
| Pagination.WindowShape | src/search_renderer.cpp:123-127 | the window spans at most nine indices, never passes the last page, and contains the current page whenever `resultsStart < resultsCount` |
| Pagination.PagesShape | src/search_renderer.cpp:127-141 | the list has at most nine entries, strictly ascending; it never holds page 0 or the last page; each entry's start is (label-1)*pageLength and it is current iff its label is currentPage+1 |
| Pagination.LinksAscending | src/search_renderer.cpp:127-156 | first anchor, list and last anchor together are in strictly ascending label order |
| Pagination.CurrentIffLabel | src/search_renderer.cpp:131-133 | any link, anchor or list entry, is current exactly when its label is currentPage+1; synthesized anchors never are |
| Pagination.CurrentPresent | src/search_renderer.cpp:131-141 | when the current page exists, some link is flagged current, wherever the page was routed |
| Pagination.CurrentUnique | src/search_renderer.cpp:131-156 | at most one link is flagged current |
| Pagination.FirstAnchor | src/search_renderer.cpp:135-149 | the first anchor is always set: page 0's own descriptor when the window starts at 0, otherwise a synthesized link with label 0, start 0 and no current flag |
| Pagination.LastAnchor | src/search_renderer.cpp:137-156 | the last anchor exists iff there is more than one page (start within reach); outside the window it is synthesized with label nbPages and start lastPage*pageLength; with one page it is absent |
| Pagination.LastAnchorMissingBeyondEnd | src/search_renderer.cpp:123-156 | a start offset more than four pages past the end gives an empty window, no list and no last anchor |
| Pagination.HasPagesIff | src/search_renderer.cpp:158-159 | `hasPages` is false iff all results fit on one page (`resultsCount <= pageLength`), and `itemsPerPage` is the page length |
| Pagination.LinksBounded | src/search_renderer.cpp:123-156 | at most eleven links however many results there are |
| Pagination.ExampleSmall | src/search_renderer.cpp:106-162 | 20 per page, 97 results, start 40: anchors pages 1 and 5, list pages 2-4 with page 3 current, hasPages |
| Pagination.ExampleLarge | src/search_renderer.cpp:106-162 | 10 per page, 5000 results, start 250: synthesized anchors label 0 and label 500, list pages 22-30 with page 26 current |
| Pagination.WindowAsWritten | src/search_renderer.cpp:118-124 | the window with 32-bit `currentPage+4`; it agrees with `WindowOf` whenever that sum does not wrap |
| Pagination.BuildPaginationAsWritten | src/search_renderer.cpp:106-162 | the loop over the window with the 32-bit `currentPage+4` equals `PaginationFromWindow` of that window, so the wrap lemma below describes what the loop produces |
| Pagination.WindowWrapLosesCurrentPage | src/search_renderer.cpp:124 | with the 32-bit sum, one result per page and 2^32-1 results, the window is empty and no link is current although the start lies inside the results |
| SearchRendering.BuildQueryData | src/search_renderer.cpp:89-103 | `pattern` is `encodeDiples(pattern)`; `path` is `?pattern=` plus the encoded pattern, then `&content=` plus each encoded book name in ascending set order |
| SearchRendering.QueryPathFields | src/search_renderer.cpp:96-101 | when `urlEncode` escapes `&`, splitting the path on `&` gives the pattern field followed by exactly one `content=` field per book name, ascending |
| SearchRendering.QueryPathMentionsEveryBook | src/search_renderer.cpp:98-100 | every selected book name appears as its own `content=` field |
| SearchRendering.QueryPathNoBooks | src/search_renderer.cpp:96-97 | with no book names the path is the pattern field alone |
| SearchRendering.BuildItems | src/search_renderer.cpp:169-183 | the row loop yields the per-entry rows in order, and aborts with the error of the first entry whose name or book lookup throws |
| SearchRendering.PageRows | src/search_renderer.cpp:169-183 | when every entry's id resolves (and is a library book when a library is attached) and count and page length are non-zero, the page is produced with one row per entry in order; title and snippet are copied; absolutePath is urlEncode(name + "/" + path); bookTitle is present iff a library is attached; wordCount is present iff the count is non-negative |
| SearchRendering.PageSucceeds | src/search_renderer.cpp:164-200 | getHtml produces a page iff every id resolves (and is in the library when one is attached) and page length and count are nonzero; the page then carries the count, start+1, end <= count, hasResults, `Paginate(...)`, the query data and both prefixes |
| SearchRendering.UnresolvedNameAbortsPage | src/search_renderer.cpp:173 | an id the name mapper cannot resolve aborts the page; the error is that of an entry j <= k whose row fails while every entry before j succeeds, i.e. the first failing entry |
| SearchRendering.SearchRenderer.GetHtml | src/search_renderer.cpp:164-200 | the assembled page equals `RenderPage` of the renderer's fields |
| SearchRendering.InitialState | src/search_renderer.cpp:55-64 | a new renderer has prefixes "zim://" and "search://", an empty pattern and no book names |
| SearchRendering.SearchRenderer.constructor | src/search_renderer.cpp:55-64 | the fields are the arguments, with the default prefixes |
| SearchRendering.SearchRenderer.WithoutLibrary | src/search_renderer.cpp:50-53 | as the main constructor, with no library |
| SearchRendering.SearchRenderer.FromSearcher | src/search_renderer.cpp:41-48 | the renderer takes the searcher's result set, start and estimated count, with no library (corrected forwarding, see Findings) |
| SearchRendering.SearchRenderer.SetSearchPattern | src/search_renderer.cpp:69-72 | replaces the pattern; nothing else changes |
| SearchRendering.SearchRenderer.SetSearchBookNames | src/search_renderer.cpp:74-77 | replaces the book names; nothing else changes |
| SearchRendering.SearchRenderer.SetProtocolPrefix | src/search_renderer.cpp:79-82 | replaces the protocol prefix; nothing else changes |
| SearchRendering.SearchRenderer.SetSearchProtocolPrefix | src/search_renderer.cpp:84-87 | replaces the search protocol prefix; nothing else changes |
| SearchRendering.ForwardingSwapFailsPage | src/search_renderer.cpp:41-48 | with the forwarding as written, a searcher at start 0 of 100 results gives a renderer with count 0 whose page fails the pagination assertion; the corrected forwarding renders it with count 100 |
| SearchRendering.SearcherPageReportsSearcher | src/search_renderer.cpp:41-48 | with the corrected forwarding, when every result's id resolves and count and page length are non-zero, a page is produced; it reports the searcher's own count and start, paginates by them, and has one row per result |
| RequestContexts.GetQuery | src/server/request_context.h:96 | `get_query()` is the stored query string unchanged |
| RequestContexts.CanCompress | src/server/request_context.h:116 | `can_compress()` is the stored gzip acceptance |
| RequestContexts.GetArgument | src/server/request_context.h:163 | the string lookup fails with a key error for an absent name and succeeds exactly when values are stored, yielding the first one |
| RequestContexts.GetArgumentAs | src/server/request_context.h:71-74 | `get_argument<T>` succeeds iff the string lookup succeeds and `extractFromString<T>` accepts its value, and yields the converted value |
| RequestContexts.GetArguments | src/server/request_context.h:76-78 | the whole stored value list for a present name; a key error for an absent one |
| RequestContexts.GetOptionalParam | src/server/request_context.h:80-87 | the value of `get_argument<T>` when that succeeds, the caller's default on any failure |
| RequestContexts.MissingArgument | src/server/request_context.h:76-87 | an absent name makes the strict lookup fail with a key error and the optional one return the default |
| RequestContexts.AppendValues | src/server/request_context.h:106-109 | the inner loop appends one rendered pair per stored value, with `&` before every pair but the very first |
| RequestContexts.AppendArguments | src/server/request_context.h:102-110 | the outer loop over names yields the `&`-join of the rendered pairs of the accepted names, in the given name order |
| RequestContexts.GetQueryFiltered | src/server/request_context.h:98-112 | `get_query(filter)` is the `&`-join of `urlEncode(name)=urlEncode(value)` over the accepted pairs in map order, with no leading or trailing separator |
| RequestContexts.ValuesPreserved | src/server/request_context.h:102-109 | the values emitted for a name are exactly its stored values in stored order if the filter accepts it, and none otherwise |
| RequestContexts.PairMultiplicity | src/server/request_context.h:101-109 | each (name, value) pair is emitted exactly as often as the value is stored under an accepted name, and never for a rejected one |
| RequestContexts.RejectAllIsEmpty | src/server/request_context.h:100-104 | a filter rejecting every stored name gives the empty string |
| RequestContexts.PairsAscendingByName | src/server/request_context.h:102-106 | emitted pairs appear in ascending name order |
| RequestContexts.QueryRoundTrip | src/server/request_context.h:98-112 | when `urlEncode` escapes `&` and `=`, splitting the result on `&` and then `=` gives back exactly the accepted pairs, encoded, in order |
| HtmlDumping.GetTagList | src/html_dumper.cpp:19-30 | the result is a `{tag}` object for every split tag not starting with `_`, in order |
| HtmlDumping.VisibleTagsMembership | src/html_dumper.cpp:21-28 | a tag is listed iff it is among the split tags and does not start with `_` |
| HtmlDumping.VisibleTagsCount | src/html_dumper.cpp:23-28 | a visible tag is listed as often as it occurs; a hidden one never |
| HtmlDumping.MakeRecord | src/html_dumper.cpp:39-60 | the loop body builds the record of one id, failing only when the library lacks the book |
| HtmlDumping.DumpPlainHtml | src/html_dumper.cpp:32-61 | the dump equals `DumpPage`: one record per filtered id in order, with the root and the filter's query |
| HtmlDumping.DumpRecords | src/html_dumper.cpp:38-60 | each record has the mapped content id, or "" when the mapper fails; title, description and languages come from the book; downloadAvailable iff the url is non-empty; faviconAttr is the illustration URL under the root location; the tag list is the visible tags |
| HtmlDumping.DumpSucceeds | src/html_dumper.cpp:41-44 | the dump fails only for an id missing from the library; what the name mapper knows never decides whether it succeeds |

## Left out

- Rendering the mustache templates, including the `runtime_error` for an invalid template (src/search_renderer.cpp:202-216, src/html_dumper.cpp:63-70). This is a foreign library; `getHtml` and `dumpPlainHTML` here return the data they would render.
- `urlEncode`, `encodeDiples`, `kiwix::split` and `extractFromString<T>` are opaque functions passed as parameters; `Library::filter` is an opaque function held in the `select` field of the `Catalog.Library` value. `beautifyInteger` and `to_string` are left out: counts and labels stay numbers.
- `zim::SearchResultSet`, `Searcher`, `Library` and `NameMapper` are reduced to the data the modelled code reads. A lookup that throws is a missing map key.
- The header `search_renderer.h` is not part of this model. It declares the `pageLength` field and its setter. The constructors therefore take the initial page length as a parameter, and there is no page-length setter.
- `LibraryDumper`, which holds the library, the name mapper and `rootLocation`, is not part of this model. The library and name mapper that the `HTMLDumper` constructor stores, plus the inherited `rootLocation`, are the fields of `HtmlDumping.HtmlDumper`; the destructor does nothing and is not modelled.
- RequestContext construction and the libmicrohttpd callbacks `fill_header`, `fill_cookie` and `fill_argument` are not modelled; only their declarations are in the header.
- Also not modelled: `get_range`, `determine_user_language`, `get_user_language`, `get_requested_format`, `user_language_comes_from_cookie`, `get_header`, `get_method`, the URL getters, `is_valid_url` and `print_debug_info`. Only their declarations are in the header. `RequestMethod` and `UserLanguage` are kept as types.
- RequestContexts.GetArgument: the body of `get_argument<std::string>` is not in the header; only its declaration at line 163 is. It is modelled as the first stored value, with a key error for an absent name and an index error for an empty value list.
- With `NDEBUG`, the assertions of `buildPagination` vanish and a zero count or page length divides by zero or wraps. Only the asserting build is modelled: `getHtml` then fails with `PaginationAssertion`.
- `unsigned int` wrap-around is modelled only for `currentPage + 4`; see Findings. The model uses unbounded naturals for `i*pageLength`, `lastPage*pageLength`, `resultStart+1` and `resultStart+pageLength`.
- HtmlDumping.IsHiddenTag: on an empty tag, `tag[0]` reads the terminating NUL, so empty tags are kept. Whether `kiwix::split` produces empty tags at all is a property of `split`, which is a parameter.

## Findings

| source | as written | input that shows it | evidently intended | confidence | as-written member | corrected member |
|---|---|---|---|---|---|---|
| src/search_renderer.cpp:41-48 | passes `getEstimatedResultCount()` as `start` and `getResultStart()` as `estimatedResultCount` to the constructor of lines 55-56 | a searcher at result 0 of 100: the renderer reports 0 results and `getHtml` trips the `resultsCount != 0` assertion | each getter goes to the parameter of the same meaning | high; not executed | SearchRendering.ForwardedAsWritten, SearchRendering.ForwardingSwapFailsPage | SearchRendering.SearcherPageReportsSearcher |
| src/search_renderer.cpp:124 | `currentPage+4` is computed in `unsigned int` and wraps before the `min` | page length 1, 2^32-1 results, start 2^32-2: the window is empty and the current page is shown nowhere | the window `[max(currentPage-4,0), min(currentPage+4,lastPage)]` over unbounded integers | low, needs about 4 billion results; not executed | Pagination.BuildPaginationAsWritten, Pagination.WindowWrapLosesCurrentPage | Pagination.WindowShape |
