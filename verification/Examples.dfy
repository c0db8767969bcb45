/** The scenarios of the repository's unit tests, restated as lemmas
    about concrete documents. Identifiers are fixed strings in place of
    random UUIDs; timestamps are milliseconds since the Unix epoch. */
module DocumentManagerExamples {
  import opened Wrappers
  import opened Documents
  import opened Matching
  import opened DocumentManager

  // Each text below concatenates to the unit test's text. It is split into
  // pieces of at most 40 characters only to keep the proofs cheap.
  const ShoppingBeforeBread :=
    "Milk (2 gallons)\n" +
    "Eggs (1 dozen)\n"
  const ShoppingFromBread :=
    "Bread (whole wheat)\n" +
    "Apples (6)\n" +
    "Chicken breasts (2 lbs)\n" +
    "Laundry detergent"
  const ShoppingContent := ShoppingBeforeBread + ShoppingFromBread
  const MeetingContent :=
    "Discussed quarterly sales goals.\n" +
    "Team is behind on Q3 targets; " +
    "strategies proposed: increased " +
    "advertising and discounts.\n" +
    "Follow-up task: John to finalize " +
    "marketing plan by Dec 5.\n" +
    "Next meeting scheduled for Dec 10."
  const BudgetContent :=
    "Rent: $1,200\n" +
    "Utilities: $300\n" +
    "Groceries: $450\n" +
    "Entertainment: $150\n" +
    "Miscellaneous: $200\n" +
    "Total Expenses: $2,300"
  const WorkoutContent :=
    "Monday: Cardio (30 min), Upper body " +
    "strength\n" +
    "Wednesday: Yoga (45 min)\n" +
    "Friday: Cardio (20 min), Lower body " +
    "strength\n" +
    "Saturday: Hiking or swimming"

  /** 2021-07-15T09:23:11.87Z */
  const ShoppingCreated: Timestamp := 1626340991870
  /** 2022-03-04T17:45:26.03Z */
  const MeetingCreated: Timestamp := 1646415926030
  /** 2022-11-19T14:12:58.42Z */
  const BudgetCreated: Timestamp := 1668867178420
  /** 2023-05-23T08:10:14.99Z */
  const WorkoutCreated: Timestamp := 1684829414990
  /** 2022-01-01T00:00:00Z */
  const Start2022: Timestamp := 1640995200000
  /** 2023-01-01T00:00:00Z */
  const Start2023: Timestamp := 1672531200000

  /** The shopping-list document, with or without an identifier. */
  function ShoppingList(id: Option<string>): (d: Document)
  {
    Document(id, Some("Shopping List"), Some(ShoppingContent),
             Some(Author(Some("user001"), Some("Harper L."))), Some(ShoppingCreated))
  }

  const Meeting := Document(Some("doc-2"), Some("Meeting Notes"), Some(MeetingContent),
                            Some(Author(Some("user002"), Some("Ezra Kinsley"))), Some(MeetingCreated))
  const Budget := Document(Some("doc-3"), Some("Monthly Budget"), Some(BudgetContent),
                           Some(Author(Some("user003"), Some("Marissa Vail"))), Some(BudgetCreated))
  const Workout := Document(Some("doc-4"), Some("Workout Plan"), Some(WorkoutContent),
                            Some(Author(Some("user004"), Some("Joaquin Mercer"))), Some(WorkoutCreated))

  /** A string without the first character of `t` does not contain `t`. */
  lemma MissingFirstChar(s: string, t: string)
    requires 0 < |t| && t[0] !in s
    ensures !Contains(s, t)
  {
  }

  /** Search over four stored documents, one document at a time. */
  lemma SearchFour(a: Document, b: Document, c: Document, d: Document, request: SearchRequest)
    ensures Search([a, b, c, d], request)
            == Kept(request, a) + Kept(request, b) + Kept(request, c) + Kept(request, d)
  {
    assert [a, b, c, d] == [a] + [b] + [c] + [d];
    SearchAppend([a], [b], request);
    SearchAppend([a] + [b], [c], request);
    SearchAppend([a] + [b] + [c], [d], request);
    SearchOne(a, request);
    SearchOne(b, request);
    SearchOne(c, request);
    SearchOne(d, request);
  }

  /** Saving a document with an identifier keeps every field. */
  lemma SaveWithIdExample(freshId: string, now: Timestamp)
    ensures Save([], Some(ShoppingList(Some("doc-1"))), freshId, now).saved
            == Some(ShoppingList(Some("doc-1")))
  {
  }

  /** Saving a document without an identifier assigns the fresh one and
      keeps every other field. */
  lemma SaveWithoutIdExample(freshId: string, now: Timestamp)
    ensures Save([], Some(ShoppingList(None)), freshId, now).saved
            == Some(ShoppingList(Some(freshId)))
  {
  }

  /** Saving nothing yields nothing and leaves storage alone. */
  lemma SaveNothingExample(freshId: string, now: Timestamp)
    ensures Save([Meeting], None, freshId, now) == SaveResult([Meeting], None)
  {
  }

  /** A saved document is found again; an unknown identifier is not. */
  lemma FindByIdExample(freshId: string, now: Timestamp)
    ensures var r := Save([], Some(ShoppingList(Some("doc-1"))), freshId, now);
            && FindById(r.store, "doc-1") == r.saved
            && FindById(r.store, "invalid-id") == None
  {
  }

  /** Re-saving the found document under a new title replaces it: one
      document, with the new title and its original creation time. */
  lemma UpsertExample(freshId: string, otherFreshId: string, now: Timestamp, later: Timestamp)
    ensures var first := Save([], Some(ShoppingList(None)), freshId, now);
            var found := FindById(first.store, freshId);
            && found == first.saved
            && var edited := found.value.(title := Some("Updated Shopping List"));
               var second := Save(first.store, Some(edited), otherFreshId, later);
               && second.store == [edited]
               && FindById(second.store, freshId).value.title == Some("Updated Shopping List")
               && FindById(second.store, freshId).value.created == Some(ShoppingCreated)
  {
  }

  /** The four sample documents, saved in turn into an empty store. */
  function SampleStore(freshId: string, now: Timestamp): (s: Store)
  {
    var s1 := Save([], Some(ShoppingList(Some("doc-1"))), freshId, now).store;
    var s2 := Save(s1, Some(Meeting), freshId, now).store;
    var s3 := Save(s2, Some(Budget), freshId, now).store;
    Save(s3, Some(Workout), freshId, now).store
  }

  const Samples := [ShoppingList(Some("doc-1")), Meeting, Budget, Workout]

  lemma SampleStoreContents(freshId: string, now: Timestamp)
    ensures SampleStore(freshId, now) == Samples
  {
  }

  const TitleQuery := EmptyRequest.(titlePrefixes := Some(["Shopping", "Monthly"]))
  const ContentAuthorQuery := EmptyRequest.(containsContents := Some(["Bread", "Rent"]),
                                            authorIds := Some(["user001", "user004"]))
  const AuthorIntervalQuery := EmptyRequest.(authorIds := Some(["user001", "user002", "user004"]),
                                             createdFrom := Some(Start2022),
                                             createdTo := Some(Start2023))

  lemma TitleQueryKeeps()
    ensures Kept(TitleQuery, ShoppingList(Some("doc-1"))) == [ShoppingList(Some("doc-1"))]
    ensures Kept(TitleQuery, Budget) == [Budget]
  {
  }

  lemma TitleQueryDrops()
    ensures Kept(TitleQuery, Meeting) == []
    ensures Kept(TitleQuery, Workout) == []
  {
  }

  /** Titles starting with "Shopping" or "Monthly". */
  lemma SearchByTitleExample()
    ensures Search(Samples, TitleQuery) == [ShoppingList(Some("doc-1")), Budget]
  {
    TitleQueryKeeps();
    TitleQueryDrops();
    SearchFour(ShoppingList(Some("doc-1")), Meeting, Budget, Workout, TitleQuery);
  }

  lemma ContentAuthorQueryKeeps()
    ensures Kept(ContentAuthorQuery, ShoppingList(Some("doc-1"))) == [ShoppingList(Some("doc-1"))]
  {
    assert ShoppingContent[|ShoppingBeforeBread|..][..5] == "Bread";
    assert OccursAt(ShoppingContent, "Bread", |ShoppingBeforeBread|);
  }

  lemma ContentAuthorQueryDrops()
    ensures Kept(ContentAuthorQuery, Meeting) == []
    ensures Kept(ContentAuthorQuery, Budget) == []
    ensures Kept(ContentAuthorQuery, Workout) == []
  {
    assert !IsAuthorPresent(ContentAuthorQuery.authorIds, Meeting.author);
    assert !IsAuthorPresent(ContentAuthorQuery.authorIds, Budget.author);
    WorkoutLacksBreadAndRent();
  }

  /** The workout plan mentions neither "Bread" nor "Rent": it has no
      capital B and no capital R. */
  lemma WorkoutLacksBreadAndRent()
    ensures !Contains(WorkoutContent, "Bread") && !Contains(WorkoutContent, "Rent")
  {
    forall c | c in "BR"
      ensures c !in WorkoutContent
    {
      assert c !in "Monday: Cardio (30 min), Upper body ";
      assert c !in "strength\n";
      assert c !in "Wednesday: Yoga (45 min)\n";
      assert c !in "Friday: Cardio (20 min), Lower body ";
      assert c !in "Saturday: Hiking or swimming";
    }
    MissingFirstChar(WorkoutContent, "Bread");
    MissingFirstChar(WorkoutContent, "Rent");
  }

  /** Content mentioning "Bread" or "Rent" by user001 or user004: the
      budget mentions rent but its author is user003. */
  lemma SearchByContentAndAuthorExample()
    ensures Search(Samples, ContentAuthorQuery) == [ShoppingList(Some("doc-1"))]
  {
    ContentAuthorQueryKeeps();
    ContentAuthorQueryDrops();
    SearchFour(ShoppingList(Some("doc-1")), Meeting, Budget, Workout, ContentAuthorQuery);
  }

  /** Authors user001, user002 or user004, created during 2022. */
  lemma SearchByAuthorAndIntervalExample()
    ensures Search(Samples, AuthorIntervalQuery) == [Meeting]
  {
    SearchFour(ShoppingList(Some("doc-1")), Meeting, Budget, Workout, AuthorIntervalQuery);
  }
}
