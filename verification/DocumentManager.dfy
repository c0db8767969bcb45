/** The in-memory document store: its storage is a sequence of documents,
    and `Save`, `FindById` and `Search` are pure functions of it. The
    identifier generator and the clock are explicit parameters of `Save`. */
module DocumentManager {
  import opened Wrappers
  import opened Documents
  import opened Matching

  type Store = seq<Document>

  /** `r` is `s` with some elements dropped, the rest in their order. */
  ghost predicate IsSubsequence<T>(r: seq<T>, s: seq<T>)
    decreases |s|
  {
    |r| == 0
    || (0 < |s| && ((r[0] == s[0] && IsSubsequence(r[1..], s[1..])) || IsSubsequence(r, s[1..])))
  }

  lemma {:induction false} SubsequenceOfItself<T>(s: seq<T>)
    ensures IsSubsequence(s, s)
    decreases |s|
  {
    if 0 < |s| {
      SubsequenceOfItself(s[1..]);
    }
  }

  predicate HasId(store: Store, id: string)
  {
    exists d :: d in store && d.id == Some(id)
  }

  /** Number of stored documents carrying identifier `id`. */
  function CountId(store: Store, id: string): (n: nat)
  {
    if |store| == 0 then 0
    else (if store[0].id == Some(id) then 1 else 0) + CountId(store[1..], id)
  }

  /** Every stored document has an identifier and a creation time. */
  predicate Identified(store: Store)
  {
    forall d :: d in store ==> d.id.Some? && d.created.Some?
  }

  /** No two stored documents share an identifier. */
  predicate UniqueIds(store: Store)
  {
    forall i, j :: 0 <= i < |store| && 0 <= j < |store| && i != j ==> store[i].id != store[j].id
  }

  /** The invariant `Save` maintains. */
  predicate Valid(store: Store)
  {
    Identified(store) && UniqueIds(store)
  }

  /** The first stored document whose identifier is `id`. */
  function FindById(store: Store, id: string): (r: Option<Document>)
    ensures r.Some? <==> HasId(store, id)
    ensures r.Some? ==> r.value in store && r.value.id == Some(id)
    ensures forall i :: (0 <= i < |store| && store[i].id == Some(id)
                         && (forall j :: 0 <= j < i ==> store[j].id != Some(id))) ==> r == Some(store[i])
  {
    if |store| == 0 then None
    else if store[0].id == Some(id) then Some(store[0])
    else
      var r := FindById(store[1..], id);
      FindPastHead(store, id, r);
      r
  }

  /** Past a head without `id`, the first document of `store` with `id` is
      the first one of its tail. */
  lemma FindPastHead(store: Store, id: string, r: Option<Document>)
    requires 0 < |store| && store[0].id != Some(id)
    requires r.Some? <==> HasId(store[1..], id)
    requires r.Some? ==> r.value in store[1..] && r.value.id == Some(id)
    requires forall i :: (0 <= i < |store[1..]| && store[1..][i].id == Some(id)
                          && (forall j :: 0 <= j < i ==> store[1..][j].id != Some(id))) ==> r == Some(store[1..][i])
    ensures r.Some? <==> HasId(store, id)
    ensures r.Some? ==> r.value in store && r.value.id == Some(id)
    ensures forall i :: (0 <= i < |store| && store[i].id == Some(id)
                         && (forall j :: 0 <= j < i ==> store[j].id != Some(id))) ==> r == Some(store[i])
  {
    assert forall d :: d in store && d.id == Some(id) ==> d in store[1..];
    forall i | 0 <= i < |store| && store[i].id == Some(id) && (forall j :: 0 <= j < i ==> store[j].id != Some(id))
      ensures r == Some(store[i])
    {
      assert 0 < i && store[1..][i - 1] == store[i];
      forall j | 0 <= j < i - 1
        ensures store[1..][j].id != Some(id)
      {
        assert store[1..][j] == store[j + 1];
      }
    }
  }

  /** The position of the first element equal to `x`. */
  function FirstIndexOf(store: Store, x: Document): (k: nat)
    requires x in store
    ensures k < |store| && store[k] == x && x !in store[..k]
  {
    if store[0] == x then 0
    else
      assert x in store[1..];
      var k := 1 + FirstIndexOf(store[1..], x);
      assert store[..k] == [store[0]] + store[1..][..k - 1];
      k
  }

  /** `List.remove(Object)`: drop the first element equal to `x`. */
  function RemoveFirst(store: Store, x: Document): (r: Store)
    ensures x !in store ==> r == store
    ensures x in store ==> var k := FirstIndexOf(store, x); r == store[..k] + store[k + 1..]
    ensures multiset(r) == multiset(store) - multiset{x}
    ensures IsSubsequence(r, store)
  {
    if x !in store then
      RemoveAbsent(store, x);
      store
    else if store[0] == x then
      RemoveAtHead(store, x);
      store[1..]
    else
      var rest := RemoveFirst(store[1..], x);
      RemovePastHead(store, x, rest);
      [store[0]] + rest
  }

  /** Removing an absent element changes nothing. */
  lemma RemoveAbsent(store: Store, x: Document)
    requires x !in store
    ensures multiset(store) == multiset(store) - multiset{x}
    ensures IsSubsequence(store, store)
  {
    assert multiset(store)[x] == 0;
    SubsequenceOfItself(store);
  }

  /** When `x` heads `store`, dropping the head removes the first `x`. */
  lemma RemoveAtHead(store: Store, x: Document)
    requires 0 < |store| && store[0] == x
    ensures x in store && FirstIndexOf(store, x) == 0
    // `RemoveFirst`'s positional ensures at index 0
    ensures store[1..] == store[..0] + store[1..]
    ensures multiset(store[1..]) == multiset(store) - multiset{x}
    ensures IsSubsequence(store[1..], store)
  {
    assert store == [store[0]] + store[1..];
    SubsequenceOfItself(store[1..]);
  }

  /** Past a head that is not `x`, removing the first `x` from the tail and
      putting the head back removes the first `x` from `store`. */
  lemma RemovePastHead(store: Store, x: Document, rest: Store)
    requires 0 < |store| && store[0] != x
    requires x !in store[1..] ==> rest == store[1..]
    requires x in store[1..] ==> var k := FirstIndexOf(store[1..], x); rest == store[1..][..k] + store[1..][k + 1..]
    requires multiset(rest) == multiset(store[1..]) - multiset{x}
    requires IsSubsequence(rest, store[1..])
    ensures x !in store ==> [store[0]] + rest == store
    ensures x in store ==> var k := FirstIndexOf(store, x); [store[0]] + rest == store[..k] + store[k + 1..]
    ensures multiset([store[0]] + rest) == multiset(store) - multiset{x}
    ensures IsSubsequence([store[0]] + rest, store)
  {
    assert store == [store[0]] + store[1..];
    assert ([store[0]] + rest)[1..] == rest;
    if x in store {
      FirstPastHead(store, x, rest);
    }
    ConsMultiset(store, x, rest);
  }

  /** The positional half of `RemovePastHead`. */
  lemma FirstPastHead(store: Store, x: Document, rest: Store)
    requires 0 < |store| && store[0] != x && x in store
    requires x in store[1..] ==> var k := FirstIndexOf(store[1..], x); rest == store[1..][..k] + store[1..][k + 1..]
    ensures var k := FirstIndexOf(store, x); [store[0]] + rest == store[..k] + store[k + 1..]
  {
    assert x in store[1..];
    var k := FirstIndexOf(store[1..], x);
    assert store[..k + 1] == [store[0]] + store[1..][..k];
    assert FirstIndexOf(store, x) == 1 + k;
    assert store[k + 2..] == store[1..][k + 1..];
  }

  /** Putting back a head that is not `x` keeps the multiset difference. */
  lemma ConsMultiset(store: Store, x: Document, rest: Store)
    requires 0 < |store| && store[0] != x
    requires multiset(rest) == multiset(store[1..]) - multiset{x}
    ensures multiset([store[0]] + rest) == multiset(store) - multiset{x}
  {
    assert store == [store[0]] + store[1..];
    assert multiset(store) == multiset{store[0]} + multiset(store[1..]);
    assert multiset([store[0]] + rest) == multiset{store[0]} + multiset(rest);
  }

  /** The stored documents whose identifier is not `id`, in order. */
  function WithoutId(store: Store, id: string): (r: Store)
    ensures forall d :: d in r <==> d in store && d.id != Some(id)
    ensures IsSubsequence(r, store)
  {
    if |store| == 0 then []
    else
      var rest := WithoutId(store[1..], id);
      assert store == [store[0]] + store[1..];
      if store[0].id == Some(id) then rest
      else
        assert ([store[0]] + rest)[1..] == rest;
        [store[0]] + rest
  }

  datatype SaveResult = SaveResult(store: Store, saved: Option<Document>)

  /** Upsert `document`. An absent document saves nothing. An absent
      identifier is replaced by `freshId`, which the store does not hold;
      otherwise the first stored document with the same identifier gives
      up its place and its creation time to the new record, which is
      appended. A new document without a creation time is stamped `now`. */
  function Save(store: Store, document: Option<Document>, freshId: string, now: Timestamp): (r: SaveResult)
    requires document.Some? && document.value.id.None? ==> !HasId(store, freshId)
    ensures document.None? ==> r.saved.None? && r.store == store
    ensures document.Some? ==> r.saved.Some? && r.saved.value.id.Some?
    ensures document.Some? ==>
              var d, s := document.value, r.saved.value;
              && s.id == (if d.id.Some? then d.id else Some(freshId))
              && s.title == d.title && s.content == d.content && s.author == d.author
              && s.created == (match FindById(store, s.id.value)
                               case Some(existing) => existing.created
                               case None => if d.created.Some? then d.created else Some(now))
              && |r.store| > 0 && r.store[|r.store| - 1] == s
    ensures document.Some? && document.value.id.None? ==> !HasId(store, r.saved.value.id.value)
  {
    match document
    case None => SaveResult(store, None)
    case Some(doc) =>
      var id := if doc.id.None? then freshId else doc.id.value;
      var created := if doc.created.None? then Some(now) else doc.created;
      var existing := if doc.id.Some? then FindById(store, doc.id.value) else None;
      var kept := if existing.Some? then RemoveFirst(store, existing.value) else store;
      var resolvedCreated := if existing.Some? then existing.value.created else created;
      var saved := Document(Some(id), doc.title, doc.content, doc.author, resolvedCreated);
      SaveResult(kept + [saved], Some(saved))
  }

  /** The stored documents that match `request`, in storage order. */
  function Search(store: Store, request: SearchRequest): (r: seq<Document>)
    ensures forall d :: d in r <==> d in store && MatchesSearchRequest(request, d)
    ensures IsSubsequence(r, store)
  {
    if |store| == 0 then []
    else
      var rest := Search(store[1..], request);
      assert store == [store[0]] + store[1..];
      if MatchesSearchRequest(request, store[0]) then
        assert ([store[0]] + rest)[1..] == rest;
        [store[0]] + rest
      else rest
  }

  // ---------------------------------------------------------------------
  // Sequences and identifiers

  lemma {:induction false} SubsequenceMembers<T>(r: seq<T>, s: seq<T>)
    requires IsSubsequence(r, s)
    ensures forall x :: x in r ==> x in s
    decreases |s|
  {
    if |r| != 0 {
      if r[0] == s[0] && IsSubsequence(r[1..], s[1..]) {
        SubsequenceMembers(r[1..], s[1..]);
        assert forall x :: x in r ==> x == r[0] || x in r[1..];
      } else {
        SubsequenceMembers(r, s[1..]);
      }
    }
  }

  lemma TailKeepsUniqueIds(s: Store)
    requires 0 < |s| && UniqueIds(s)
    ensures UniqueIds(s[1..])
    ensures forall d :: d in s[1..] ==> d.id != s[0].id
  {
    forall d | d in s[1..]
      ensures d.id != s[0].id
    {
      var k :| 0 <= k < |s[1..]| && s[1..][k] == d;
      assert s[k + 1] == d;
    }
  }

  /** Dropping documents never makes two identifiers collide. */
  lemma {:induction false} SubsequenceKeepsUniqueIds(r: Store, s: Store)
    requires IsSubsequence(r, s) && UniqueIds(s)
    ensures UniqueIds(r)
    decreases |s|
  {
    if |r| != 0 {
      TailKeepsUniqueIds(s);
      if r[0] == s[0] && IsSubsequence(r[1..], s[1..]) {
        SubsequenceKeepsUniqueIds(r[1..], s[1..]);
        SubsequenceMembers(r[1..], s[1..]);
        forall i, j | 0 <= i < |r| && 0 <= j < |r| && i != j
          ensures r[i].id != r[j].id
        {
          if i == 0 {
            assert r[j] == r[1..][j - 1];
          } else if j == 0 {
            assert r[i] == r[1..][i - 1];
          } else {
            assert r[i] == r[1..][i - 1] && r[j] == r[1..][j - 1];
          }
        }
      } else {
        SubsequenceKeepsUniqueIds(r, s[1..]);
      }
    }
  }

  /** Under unique identifiers, `FindById` finds the one document with
      that identifier. */
  lemma FindUnique(store: Store, d: Document, id: string)
    requires UniqueIds(store)
    requires d in store && d.id == Some(id)
    ensures FindById(store, id) == Some(d)
  {
    var i :| 0 <= i < |store| && store[i] == d;
    assert forall j :: 0 <= j < i ==> store[j].id != Some(id);
  }

  lemma {:induction false} WithoutAbsentId(store: Store, id: string)
    requires !HasId(store, id)
    ensures WithoutId(store, id) == store
    decreases |store|
  {
    if |store| != 0 {
      assert store[0] in store;
      assert forall d :: d in store[1..] ==> d in store;
      WithoutAbsentId(store[1..], id);
      assert store == [store[0]] + store[1..];
    }
  }

  /** With unique identifiers, removing the document `FindById` returned
      (the first one equal to it) removes every document with its
      identifier and keeps the others in order. */
  lemma {:induction false} RemoveFoundIsWithoutId(store: Store, id: string, e: Document)
    requires UniqueIds(store)
    requires FindById(store, id) == Some(e)
    ensures RemoveFirst(store, e) == WithoutId(store, id)
    decreases |store|
  {
    TailKeepsUniqueIds(store);
    if store[0].id == Some(id) {
      WithoutAbsentId(store[1..], id);
    } else {
      assert store[0] != e;
      RemoveFoundIsWithoutId(store[1..], id, e);
    }
  }

  lemma {:induction false} CountAppend(a: Store, b: Store, id: string)
    ensures CountId(a + b, id) == CountId(a, id) + CountId(b, id)
    decreases |a|
  {
    if |a| == 0 {
      assert a + b == b;
    } else {
      assert (a + b)[1..] == a[1..] + b;
      CountAppend(a[1..], b, id);
    }
  }

  lemma {:induction false} CountAbsent(store: Store, id: string)
    requires !HasId(store, id)
    ensures CountId(store, id) == 0
    decreases |store|
  {
    if |store| != 0 {
      assert store[0] in store;
      assert forall d :: d in store[1..] ==> d in store;
      CountAbsent(store[1..], id);
    }
  }

  // ---------------------------------------------------------------------
  // Save

  /** On a valid store, `Save` removes the document with the resolved
      identifier, if any, keeps the others in order, and appends the
      saved document. */
  lemma SaveReplaces(store: Store, document: Document, freshId: string, now: Timestamp)
    requires Valid(store)
    requires document.id.None? ==> !HasId(store, freshId)
    ensures var r := Save(store, Some(document), freshId, now);
            r.store == WithoutId(store, r.saved.value.id.value) + [r.saved.value]
  {
    var r := Save(store, Some(document), freshId, now);
    var id := r.saved.value.id.value;
    if document.id.Some? && FindById(store, id).Some? {
      RemoveFoundIsWithoutId(store, id, FindById(store, id).value);
    } else {
      WithoutAbsentId(store, id);
    }
  }

  /** Appending a document whose identifier is new keeps a store valid. */
  lemma AppendNewIdKeepsValid(w: Store, s: Document)
    requires Valid(w) && s.id.Some? && s.created.Some?
    requires forall d :: d in w ==> d.id != s.id
    ensures Valid(w + [s])
  {
    var r := w + [s];
    forall i, j | 0 <= i < |r| && 0 <= j < |r| && i != j
      ensures r[i].id != r[j].id
    {
      if i < |w| && j < |w| {
        assert r[i] == w[i] && r[j] == w[j];
      } else if i < |w| {
        assert r[i] == w[i] && w[i] in w;
      } else {
        assert r[j] == w[j] && w[j] in w;
      }
    }
  }

  /** `Save` keeps every stored identifier present and pairwise distinct,
      and every creation time present. */
  lemma SavePreservesValid(store: Store, document: Option<Document>, freshId: string, now: Timestamp)
    requires Valid(store)
    requires document.Some? && document.value.id.None? ==> !HasId(store, freshId)
    ensures Valid(Save(store, document, freshId, now).store)
  {
    if document.Some? {
      var r := Save(store, document, freshId, now);
      var s := r.saved.value;
      var w := WithoutId(store, s.id.value);
      SaveReplaces(store, document.value, freshId, now);
      SubsequenceKeepsUniqueIds(w, store);
      assert s.created.Some? by {
        var found := FindById(store, s.id.value);
        if found.Some? {
          assert found.value in store;
        }
      }
      AppendNewIdKeepsValid(w, s);
    }
  }

  /** After `Save`, exactly one stored document carries the saved
      identifier. */
  lemma SaveLeavesOneCopy(store: Store, document: Document, freshId: string, now: Timestamp)
    requires Valid(store)
    requires document.id.None? ==> !HasId(store, freshId)
    ensures var r := Save(store, Some(document), freshId, now);
            CountId(r.store, r.saved.value.id.value) == 1
  {
    var r := Save(store, Some(document), freshId, now);
    var id := r.saved.value.id.value;
    var w := WithoutId(store, id);
    SaveReplaces(store, document, freshId, now);
    CountAppend(w, [r.saved.value], id);
    CountAbsent(w, id);
  }

  /** Looking up the saved identifier yields the saved document. */
  lemma FindAfterSave(store: Store, document: Document, freshId: string, now: Timestamp)
    requires Valid(store)
    requires document.id.None? ==> !HasId(store, freshId)
    ensures var r := Save(store, Some(document), freshId, now);
            FindById(r.store, r.saved.value.id.value) == r.saved
  {
    var r := Save(store, Some(document), freshId, now);
    SavePreservesValid(store, Some(document), freshId, now);
    FindUnique(r.store, r.saved.value, r.saved.value.id.value);
  }

  /** Looking up any other identifier is unaffected by `Save`. */
  lemma FindOtherAfterSave(store: Store, document: Document, freshId: string, now: Timestamp,
                           other: string)
    requires Valid(store)
    requires document.id.None? ==> !HasId(store, freshId)
    requires Some(other) != Save(store, Some(document), freshId, now).saved.value.id
    ensures FindById(Save(store, Some(document), freshId, now).store, other) == FindById(store, other)
  {
    var r := Save(store, Some(document), freshId, now);
    var w := WithoutId(store, r.saved.value.id.value);
    SaveReplaces(store, document, freshId, now);
    SavePreservesValid(store, Some(document), freshId, now);
    if HasId(store, other) {
      var d :| d in store && d.id == Some(other);
      assert d in w;
      FindUnique(store, d, other);
      FindUnique(r.store, d, other);
    } else {
      assert !HasId(r.store, other);
    }
  }

  /** Re-saving a stored identifier never changes its creation time,
      whatever creation time the caller supplies. */
  lemma SaveKeepsCreated(store: Store, document: Document, freshId: string, now: Timestamp,
                         stored: Document)
    requires Valid(store)
    requires stored in store && document.id.Some? && stored.id == document.id
    ensures Save(store, Some(document), freshId, now).saved.value.created == stored.created
  {
    FindUnique(store, stored, document.id.value);
  }

  // ---------------------------------------------------------------------
  // Search

  /** Search distributes over concatenation of storage. */
  lemma {:induction false} SearchAppend(a: Store, b: Store, request: SearchRequest)
    ensures Search(a + b, request) == Search(a, request) + Search(b, request)
    decreases |a|
  {
    if |a| == 0 {
      assert a + b == b;
    } else {
      assert (a + b)[1..] == a[1..] + b;
      assert (a + b)[0] == a[0];
      SearchAppend(a[1..], b, request);
    }
  }

  /** What a one-document store contributes to a search. */
  function Kept(request: SearchRequest, d: Document): (r: seq<Document>)
  {
    if MatchesSearchRequest(request, d) then [d] else []
  }

  /** A one-document store keeps its document exactly when it matches. */
  lemma SearchOne(d: Document, request: SearchRequest)
    ensures Search([d], request) == Kept(request, d)
  {
  }

  /** A request that constrains nothing returns all of storage, each
      document exactly once and in order. */
  lemma {:induction false} SearchUnconstrained(store: Store, request: SearchRequest)
    requires Unconstrained(request.titlePrefixes) && Unconstrained(request.containsContents)
    requires Unconstrained(request.authorIds)
    requires request.createdFrom.None? && request.createdTo.None?
    ensures Search(store, request) == store
    decreases |store|
  {
    if |store| != 0 {
      SearchUnconstrained(store[1..], request);
      assert store == [store[0]] + store[1..];
    }
  }

  /** Search is a filter by the conjunction of the four clauses, each a
      disjunction over its list, stated without the Java-shaped helpers. */
  lemma SearchIsConjunctiveFilter(store: Store, request: SearchRequest, d: Document)
    ensures d in Search(store, request) <==>
              && d in store
              && (Unconstrained(request.titlePrefixes)
                  || (d.title.Some? && exists p :: p in request.titlePrefixes.value && p <= d.title.value))
              && (Unconstrained(request.containsContents)
                  || (d.content.Some?
                      && exists t, i :: t in request.containsContents.value && OccursAt(d.content.value, t, i)))
              && (Unconstrained(request.authorIds)
                  || (d.author.Some? && d.author.value.id.Some?
                      && d.author.value.id.value in request.authorIds.value))
              && ((request.createdFrom.None? && request.createdTo.None?)
                  || (d.created.Some?
                      && (request.createdFrom.Some? ==> request.createdFrom.value <= d.created.value)
                      && (request.createdTo.Some? ==> d.created.value <= request.createdTo.value)))
  {
  }

  /** Search results never hold two documents with one identifier. */
  lemma SearchKeepsUniqueIds(store: Store, request: SearchRequest)
    requires UniqueIds(store)
    ensures UniqueIds(Search(store, request))
  {
    SubsequenceKeepsUniqueIds(Search(store, request), store);
  }

  /** After `Save`, search sees the other documents as before and the
      saved document, at the end, exactly when it matches. */
  lemma SearchAfterSave(store: Store, document: Document, freshId: string, now: Timestamp,
                        request: SearchRequest)
    requires Valid(store)
    requires document.id.None? ==> !HasId(store, freshId)
    ensures var r := Save(store, Some(document), freshId, now);
            Search(r.store, request)
            == Search(WithoutId(store, r.saved.value.id.value), request)
               + (if MatchesSearchRequest(request, r.saved.value) then [r.saved.value] else [])
  {
    var r := Save(store, Some(document), freshId, now);
    var w := WithoutId(store, r.saved.value.id.value);
    SaveReplaces(store, document, freshId, now);
    SearchAppend(w, [r.saved.value], request);
  }
}
