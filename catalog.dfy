/** The collaborators the renderer and the dumper consult: the book library and
    the name mapper. Their internals belong to other components, so only what
    the modelled code reads from them is kept. */
module Catalog {

  /** The accessors of a library book that the modelled code calls. */
  datatype Book = Book(
    title: string,
    description: string,
    commaSeparatedLanguages: string,
    tags: string,
    url: string)

  /** A library query; only its query text is read directly. */
  datatype Filter = Filter(query: string)

  /** `getBookById` succeeds exactly for the ids in `books`; `select` is
      `Library::filter`, the ids of the matching books in the library's own
      order. */
  datatype Library = Library(books: map<string, Book>, select: Filter -> seq<string>)

  /** `NameMapper::getNameForId`: defined exactly on the ids in the map (an
      unknown id makes the source throw). */
  type NameMapper = map<string, string>
}
