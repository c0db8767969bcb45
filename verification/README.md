# Document store — a Dafny model

A model of `DocumentManager`, an in-memory document repository with three
operations:

- `save` upserts a document keyed by its identifier. It generates an
  identifier when the document has none. A re-saved identifier keeps its
  original creation time.
- `findById` returns the first stored document with a given identifier.
- `search` keeps the stored documents, in storage order, that pass four
  filters at once: title prefix, content substring, author identifier and
  an inclusive creation-time interval.

The storage is a `seq<Document>`, and the three operations are pure
functions of it. Every field the Java records allow to be `null` is an
`Option`. The random UUID and the clock `save` would read are explicit
parameters, `freshId` and `now`.

Files:

- `Wrappers.dfy`: the `Option` datatype.
- `Documents.dfy`: the records `Author`, `Document` and `SearchRequest`. A timestamp is an `int`, in milliseconds since the Unix epoch.
- `Matching.dfy`: the four search predicates. It also holds Java's `startsWith`, `contains` and `anyMatch`, each written the way Java evaluates it on well-formed strings and proved equal to a declarative statement.
- `DocumentManager.dfy`: the store, its invariant `Valid`, the operations, and the lemmas that relate them. `Valid` says stored identifiers and creation times are present and identifiers are pairwise distinct.
- `Examples.dfy`: the scenarios of the repository's unit tests, as lemmas about concrete documents.

`save` looks up only a caller-supplied identifier
(`src/main/java/DocumentManager.java:35-36`). A generated identifier is
never looked up. This is harmless because `Save` requires `freshId` to be
absent from storage.

## Model

| member | source | states |
|---|---|---|
| Matching.StartsWith | src/main/java/DocumentManager.java:93 | The character-by-character `startsWith` holds exactly when the prefix is a prefix of the string. |
| Matching.Contains | src/main/java/DocumentManager.java:103 | `contains`, which tries every offset, holds exactly when the needle occurs at some offset of the string. |
| Matching.AnyPrefixOf | src/main/java/DocumentManager.java:93 | `anyMatch(title::startsWith)` holds exactly when some listed prefix is a prefix of the title. |
| Matching.AnyContainedIn | src/main/java/DocumentManager.java:103 | `anyMatch(content::contains)` holds exactly when some listed substring occurs in the content. |
| Matching.ListContains | src/main/java/DocumentManager.java:113 | The list scan finds an author id exactly when the id is a member of the list. |
| Matching.IsTitlePrefixed | src/main/java/DocumentManager.java:86-94 | An absent or empty prefix list accepts everything. Otherwise the title must be present and start with some listed prefix. |
| Matching.IsContainsContents | src/main/java/DocumentManager.java:96-104 | An absent or empty substring list accepts everything. Otherwise the content must be present and contain some listed substring. |
| Matching.IsAuthorPresent | src/main/java/DocumentManager.java:106-114 | An absent or empty id list accepts everything. Otherwise the author and its id must be present, and the id must be in the list. |
| Matching.IsCreatedWithinInterval | src/main/java/DocumentManager.java:116-120 | With no bound given, everything passes. Otherwise the creation time must be present and lie within the given bounds, both ends inclusive. |
| Matching.MatchesSearchRequest | src/main/java/DocumentManager.java:79-84 | A missing title, content, author or creation time fails any filter that constrains that field. A request that constrains nothing accepts every document. |
| DocumentManager.FindById | src/main/java/DocumentManager.java:73-77 | Returns a document exactly when some stored document has the id. The result is stored and carries the id, and it is the first stored document with that id. |
| DocumentManager.FirstIndexOf | src/main/java/DocumentManager.java:39 | The position `List.remove(Object)` looks for: an occurrence of `x` with no earlier occurrence. |
| DocumentManager.FindUnique | src/main/java/DocumentManager.java:73-77 | When ids are unique, `FindById` returns the one stored document with the id. |
| DocumentManager.RemoveFirst | src/main/java/DocumentManager.java:39 | `List.remove(Object)` removes the first element equal to `x`: the result is storage before that position followed by storage after it. It takes exactly one copy out of the multiset, changes nothing when `x` is absent, and keeps the rest in order. |
| DocumentManager.RemoveFoundIsWithoutId | src/main/java/DocumentManager.java:36-39 | When ids are unique, removing the document `findById` returned removes exactly the documents with that id. The others keep their order. |
| DocumentManager.Save | src/main/java/DocumentManager.java:28-53 | Saving nothing returns nothing and leaves storage unchanged. Otherwise the result keeps a supplied id or takes the fresh one, which was not stored. It keeps the caller's title, content and author. Its creation time is the stored document's if the id is stored, else the caller's, else `now`. It is the last element of the new storage. |
| DocumentManager.SaveReplaces | src/main/java/DocumentManager.java:35-51 | On a valid store, the new storage is the old one minus any document with the saved id, in the old order, followed by the saved document. |
| DocumentManager.SavePreservesValid | src/main/java/DocumentManager.java:33-51 | `save` keeps every stored id and creation time present and keeps ids pairwise distinct. |
| DocumentManager.SaveLeavesOneCopy | src/main/java/DocumentManager.java:35-51 | After `save`, exactly one stored document has the saved id. |
| DocumentManager.FindAfterSave | src/main/java/DocumentManager.java:43-52 | Looking up the saved id right after `save` returns the saved document. |
| DocumentManager.FindOtherAfterSave | src/main/java/DocumentManager.java:35-51 | `save` does not change what any other id looks up to. |
| DocumentManager.SaveKeepsCreated | src/main/java/DocumentManager.java:34-40 | Re-saving a stored id keeps the stored creation time, whatever time the caller supplies. |
| DocumentManager.Search | src/main/java/DocumentManager.java:61-65 | The result holds exactly the stored documents that match the request. It is a subsequence of storage, so storage order is kept. |
| DocumentManager.SearchAppend | src/main/java/DocumentManager.java:61-65 | Searching concatenated storage gives the concatenation of the two searches. Together with the one-document case this fixes the result completely. |
| DocumentManager.SearchOne | src/main/java/DocumentManager.java:61-65 | A one-document store yields that document when it matches the request, and nothing otherwise. |
| DocumentManager.SearchUnconstrained | src/main/java/DocumentManager.java:61-65 | A request with no constraint returns all of storage, each document once and in order. |
| DocumentManager.SearchIsConjunctiveFilter | src/main/java/DocumentManager.java:61-120 | A document is in the search result exactly when it is stored and passes all four clauses. Each clause is vacuous for an absent or empty list, or for no bounds, and otherwise asks for a present field: a listed prefix of the title, a listed substring of the content, an author id in the list, a creation time within the inclusive bounds. |
| DocumentManager.SearchKeepsUniqueIds | src/main/java/DocumentManager.java:61-65 | A search over a store with unique ids never returns two documents with the same id. |
| DocumentManager.SearchAfterSave | src/main/java/DocumentManager.java:51-64 | After `save`, search returns what it returned on the other documents, plus the saved document at the end exactly when it matches. |
| DocumentManagerExamples.SaveWithIdExample | src/test/java/DocumentManagerTest.java:14-26 | Saving a document with an id into an empty store returns it with every field unchanged. |
| DocumentManagerExamples.SaveWithoutIdExample | src/test/java/DocumentManagerTest.java:29-41 | Saving a document without an id returns it under the fresh id, with every other field unchanged. |
| DocumentManagerExamples.SaveNothingExample | src/main/java/DocumentManager.java:28-31 | Saving nothing returns nothing and leaves storage unchanged. |
| DocumentManagerExamples.FindByIdExample | src/test/java/DocumentManagerTest.java:44-59 | A saved document is found by its id. An unknown id finds nothing. |
| DocumentManagerExamples.UpsertExample | src/test/java/DocumentManagerTest.java:62-75 | The found document is the one first saved. Re-saving it under a new title leaves one document: the edited one, with the new title and the first creation time. |
| DocumentManagerExamples.SampleStoreContents | src/test/java/DocumentManagerTest.java:128-179 | Saving the four sample documents in turn stores exactly those documents, in order. |
| DocumentManagerExamples.SearchByTitleExample | src/test/java/DocumentManagerTest.java:82-88 | Prefixes "Shopping" and "Monthly" select exactly the shopping list and the monthly budget. |
| DocumentManagerExamples.SearchByContentAndAuthorExample | src/test/java/DocumentManagerTest.java:90-97 | "Bread" or "Rent" by user001 or user004 selects exactly the shopping list. |
| DocumentManagerExamples.SearchByAuthorAndIntervalExample | src/test/java/DocumentManagerTest.java:99-107 | Authors user001, user002 or user004, created during 2022, select exactly the meeting notes. |

## Left out

- UUID generation: `Save` takes the identifier as the parameter `freshId`. It requires that identifier to be absent from storage when the input has no identifier of its own. A UUID collision is not modelled.
- `Instant.now()`: `Save` takes the current time as the parameter `now`.
- `Instant` precision and parsing: a timestamp is an `int`, here milliseconds since the epoch. The sample instants are converted by hand.
- Reference sharing is not modelled, because the model has value semantics. `findById` returns the stored object itself, and the unit test mutates it through a setter. `save` returns the object it stored, and `search` returns stored objects too. `save` stores the caller's `Author` reference rather than a copy. Through these references a caller can use `setId` to make a stored identifier `null` or equal to another stored one. `SavePreservesValid`, `SaveLeavesOneCopy` and the other lemmas that assume `Valid` therefore hold in Java only for callers that never mutate a document `save`, `findById` or `search` returned.
- UpsertExample: the edit is a new value, as for every document in the model. In Java, `findById` returns the stored object itself, so a caller can change a stored document's `created` through a setter without calling `save`. The creation time is therefore fixed only for documents passed to `save` as separate values.
- Strings: Java's `startsWith` and `contains` compare UTF-16 code units, and a Java string may hold unpaired surrogates. A Dafny `string` holds Unicode scalar values, so the model agrees with Java only on well-formed strings.
- Lombok machinery is replaced by plain datatypes with value equality: builders, setters and the generated `equals`/`hashCode`.
- Java streams are replaced by recursive functions.
- Null elements inside a filter list are not modelled, because lists hold plain strings. Java would throw on a `null` prefix or substring.
- `findById(null)`: the model takes a `string`, so it does not cover this call. In Java it returns an empty `Optional`.
- `search(null)`: `Search` takes a `SearchRequest` value, so it does not cover this call. In Java it throws a `NullPointerException` when storage is non-empty and returns an empty list when storage is empty.
- A stored document without an identifier would make Java's `findById` throw. `FindById` compares `Option` values instead. This case cannot arise unless a caller mutates a document that `save`, `findById` or `search` returned: `SavePreservesValid` shows `save` keeps every stored identifier present.
- Concurrency is not modelled; the class makes no thread-safety promise.
