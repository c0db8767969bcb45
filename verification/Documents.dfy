/** The value records of the document store: `Author`, `Document` and
    `SearchRequest`. Every field the Java records allow to be `null` is an
    `Option` here. */
module Documents {
  import opened Wrappers

  /** A point in time, as milliseconds since the Unix epoch. */
  type Timestamp = int

  datatype Author = Author(id: Option<string>, name: Option<string>)

  datatype Document = Document(
    id: Option<string>,
    title: Option<string>,
    content: Option<string>,
    author: Option<Author>,
    created: Option<Timestamp>
  )

  /** A search filter; an absent (or empty) list places no constraint on
      its dimension, and so does an absent bound. */
  datatype SearchRequest = SearchRequest(
    titlePrefixes: Option<seq<string>>,
    containsContents: Option<seq<string>>,
    authorIds: Option<seq<string>>,
    createdFrom: Option<Timestamp>,
    createdTo: Option<Timestamp>
  )

  /** The request with every field absent. */
  const EmptyRequest := SearchRequest(None, None, None, None, None)
}
