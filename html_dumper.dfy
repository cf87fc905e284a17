/** The data behind the no-JavaScript library page of src/html_dumper.cpp:
    the visible tag list of a book (`getTagList`) and the per-book records
    that `HTMLDumper::dumpPlainHTML` hands to its template. Rendering the
    template is not part of this model; the dump returns the data it would
    render. */
module HtmlDumping {
  import opened Wrappers
  import opened Catalog

  // ---------------------------------------------------------------------
  // getTagList
  // ---------------------------------------------------------------------

  /** A `{"tag": tag}` object of the tag list. */
  datatype TagEntry = TagEntry(tag: string)

  /** A tag whose first character is `_` is internal and not shown. An empty
      tag is kept: its first character reads as the terminating NUL. */
  predicate IsHiddenTag(t: string)
  {
    |t| > 0 && t[0] == '_'
  }

  /** The shown tags of `tags`, in order, one object each. */
  function VisibleTags(tags: seq<string>): seq<TagEntry>
  {
    if tags == [] then []
    else (if IsHiddenTag(tags[0]) then [] else [TagEntry(tags[0])]) + VisibleTags(tags[1..])
  }

  lemma {:induction false} VisibleTagsAppend(xs: seq<string>, ys: seq<string>)
    ensures VisibleTags(xs + ys) == VisibleTags(xs) + VisibleTags(ys)
  {
    if xs == [] {
      assert xs + ys == ys;
    } else {
      assert (xs + ys)[1..] == xs[1..] + ys;
      VisibleTagsAppend(xs[1..], ys);
    }
  }

  /** getTagList: split on `;` and keep, in order, every tag not starting
      with `_`. */
  method GetTagList(tags: string, split: string -> seq<string>) returns (list: seq<TagEntry>)
    ensures list == VisibleTags(split(tags))
  {
    var tagsList := split(tags);
    list := [];
    var i := 0;
    while i < |tagsList|
      invariant 0 <= i <= |tagsList|
      invariant list == VisibleTags(tagsList[..i])
    {
      var tag := tagsList[i];
      assert tagsList[..i + 1] == tagsList[..i] + [tag];
      VisibleTagsAppend(tagsList[..i], [tag]);
      if !(|tag| > 0 && tag[0] == '_') {
        list := list + [TagEntry(tag)];
      }
      i := i + 1;
    }
    assert tagsList[..i] == tagsList;
  }

  /** A tag is listed exactly when it is among the split tags and not hidden. */
  lemma {:induction false} VisibleTagsMembership(tags: seq<string>, t: string)
    ensures TagEntry(t) in VisibleTags(tags) <==> t in tags && !IsHiddenTag(t)
  {
    if tags != [] {
      VisibleTagsMembership(tags[1..], t);
      assert tags == [tags[0]] + tags[1..];
    }
  }

  /** Every shown tag is listed as often as it occurs; hidden tags not at all. */
  lemma {:induction false} VisibleTagsCount(tags: seq<string>, t: string)
    ensures multiset(VisibleTags(tags))[TagEntry(t)] == if IsHiddenTag(t) then 0 else multiset(tags)[t]
  {
    if tags != [] {
      VisibleTagsCount(tags[1..], t);
      assert tags == [tags[0]] + tags[1..];
    }
  }

  // ---------------------------------------------------------------------
  // dumpPlainHTML
  // ---------------------------------------------------------------------

  /** The dumper: the library and name mapper it was built with, and the
      root location the inherited LibraryDumper holds. */
  datatype HtmlDumper = HtmlDumper(library: Library, nameMapper: NameMapper, rootLocation: string)

  /** One element of `books`. */
  datatype BookRecord = BookRecord(
    id: string,
    title: string,
    description: string,
    langCode: string,
    faviconAttr: string,
    tagList: seq<TagEntry>,
    downloadAvailable: bool)

  /** Everything dumpPlainHTML hands to its template. */
  datatype LibraryPage = LibraryPage(root: string, books: seq<BookRecord>, searchQuery: string)

  /** `getBookById` threw for a filtered id. */
  datatype DumpError = UnknownBook(bookId: string)

  /** The inline style that shows a book's 48-pixel illustration. */
  function FaviconAttr(rootLocation: string, bookId: string): string
  {
    "style=background-image:url(" + rootLocation + "/catalog/v2/illustration/" + bookId + "/?size=48" + ")"
  }

  /** The record of one filtered id; an id the name mapper cannot resolve
      gets an empty content id instead of aborting. */
  function RecordFor(d: HtmlDumper, bookId: string, split: string -> seq<string>): Result<BookRecord, DumpError>
  {
    if bookId !in d.library.books then Failure(UnknownBook(bookId))
    else
      var book := d.library.books[bookId];
      Success(BookRecord(
        if bookId in d.nameMapper then d.nameMapper[bookId] else "",
        book.title,
        book.description,
        book.commaSeparatedLanguages,
        FaviconAttr(d.rootLocation, bookId),
        VisibleTags(split(book.tags)),
        book.url != ""))
  }

  function RecordMaker(d: HtmlDumper, split: string -> seq<string>): string -> Result<BookRecord, DumpError>
  {
    bookId => RecordFor(d, bookId, split)
  }

  /** What dumpPlainHTML produces for a filter. */
  function DumpPage(d: HtmlDumper, filter: Filter, split: string -> seq<string>): Result<LibraryPage, DumpError>
  {
    match Traverse(d.library.select(filter), RecordMaker(d, split))
    case Failure(e) => Failure(e)
    case Success(books) => Success(LibraryPage(d.rootLocation, books, filter.query))
  }

  /** The body of dumpPlainHTML's loop for one id: look the book up (which
      throws for an unknown id), try the name mapper, and fill the record. */
  method MakeRecord(d: HtmlDumper, bookId: string, split: string -> seq<string>)
    returns (r: Result<BookRecord, DumpError>)
    ensures r == RecordFor(d, bookId, split)
  {
    if bookId !in d.library.books {
      return Failure(UnknownBook(bookId));
    }
    var bookObj := d.library.books[bookId];
    var contentId := "";
    if bookId in d.nameMapper {
      contentId := d.nameMapper[bookId];
    }
    var bookIconUrl := d.rootLocation + "/catalog/v2/illustration/" + bookId + "/?size=48";
    var downloadAvailable := bookObj.url != "";
    var faviconAttr := "style=background-image:url(" + bookIconUrl + ")";
    var tagList := GetTagList(bookObj.tags, split);
    assert faviconAttr == FaviconAttr(d.rootLocation, bookId);
    r := Success(BookRecord(contentId, bookObj.title, bookObj.description, bookObj.commaSeparatedLanguages,
                            faviconAttr, tagList, downloadAvailable));
  }

  /** dumpPlainHTML: one record per filtered id, in the library's order. */
  method DumpPlainHtml(d: HtmlDumper, filter: Filter, split: string -> seq<string>)
    returns (r: Result<LibraryPage, DumpError>)
    ensures r == DumpPage(d, filter, split)
  {
    var filteredBooks := d.library.select(filter);
    var searchQuery := filter.query;
    ghost var f := RecordMaker(d, split);
    var booksData: seq<BookRecord> := [];
    var i := 0;
    assert filteredBooks[0..] == filteredBooks;
    PrependNothing(Traverse(filteredBooks, f));
    while i < |filteredBooks|
      invariant 0 <= i <= |filteredBooks|
      invariant Traverse(filteredBooks, f) == Prepend(booksData, Traverse(filteredBooks[i..], f))
    {
      TraverseStep(filteredBooks, i, f);
      var bookId := filteredBooks[i];
      var made := MakeRecord(d, bookId, split);
      if made.Failure? {
        return Failure(made.error);
      }
      var record := made.value;
      PrependTwice(booksData, [record], Traverse(filteredBooks[i + 1..], f));
      booksData := booksData + [record];
      i := i + 1;
    }
    assert filteredBooks[i..] == [];
    assert booksData + [] == booksData;
    r := Success(LibraryPage(d.rootLocation, booksData, searchQuery));
  }

  // ---------------------------------------------------------------------
  // Properties of the dump
  // ---------------------------------------------------------------------

  /** One record per filtered id, in order, each built from that id's book:
      the content id when the name mapper knows the id and "" otherwise, the
      download flag exactly when the book has a url, and the illustration
      style under the root location. */
  lemma DumpRecords(d: HtmlDumper, filter: Filter, split: string -> seq<string>)
    requires DumpPage(d, filter, split).Success?
    ensures var page := DumpPage(d, filter, split).value;
            var ids := d.library.select(filter);
            && page.root == d.rootLocation
            && page.searchQuery == filter.query
            && |page.books| == |ids|
            && forall k :: 0 <= k < |ids| ==>
                 && ids[k] in d.library.books
                 && var book := d.library.books[ids[k]];
                 && (ids[k] in d.nameMapper ==> page.books[k].id == d.nameMapper[ids[k]])
                 && (ids[k] !in d.nameMapper ==> page.books[k].id == "")
                 && page.books[k].title == book.title
                 && page.books[k].description == book.description
                 && page.books[k].langCode == book.commaSeparatedLanguages
                 && (page.books[k].downloadAvailable <==> book.url != "")
                 && page.books[k].faviconAttr ==
                      "style=background-image:url(" + d.rootLocation + "/catalog/v2/illustration/" + ids[k] + "/?size=48)"
                 && page.books[k].tagList == VisibleTags(split(book.tags))
  {
    var ids := d.library.select(filter);
    TraverseSuccess(ids, RecordMaker(d, split));
    forall k | 0 <= k < |ids| && ids[k] in d.library.books
      ensures FaviconAttr(d.rootLocation, ids[k])
           == "style=background-image:url(" + d.rootLocation + "/catalog/v2/illustration/" + ids[k] + "/?size=48)"
    {
      assert "/?size=48" + ")" == "/?size=48)";
    }
  }

  /** The dump fails only for an id the library does not hold; what the name
      mapper knows never decides whether the listing is produced. */
  lemma DumpSucceeds(d: HtmlDumper, filter: Filter, split: string -> seq<string>, mapper: NameMapper)
    ensures DumpPage(d, filter, split).Success? <==>
              forall k :: 0 <= k < |d.library.select(filter)| ==> d.library.select(filter)[k] in d.library.books
    ensures DumpPage(d, filter, split).Success? <==> DumpPage(d.(nameMapper := mapper), filter, split).Success?
  {
    var ids := d.library.select(filter);
    TraverseSuccess(ids, RecordMaker(d, split));
    TraverseSuccess(ids, RecordMaker(d.(nameMapper := mapper), split));
  }
}
