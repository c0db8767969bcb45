/** The four per-document predicates a search request combines, each
    written the way `DocumentManager` evaluates it and each proved equal to
    a declarative statement of what it accepts. */
module Matching {
  import opened Wrappers
  import opened Documents

  /** A filter list that places no constraint: absent or empty. */
  predicate Unconstrained<T>(filter: Option<seq<T>>)
  {
    filter.None? || |filter.value| == 0
  }

  /** `s` has `t` as a contiguous block starting at offset `i`. */
  ghost predicate OccursAt(s: string, t: string, i: int)
  {
    0 <= i && i + |t| <= |s| && s[i..i + |t|] == t
  }

  /** Java's `String.startsWith`, compared character by character. */
  function StartsWith(s: string, prefix: string): (r: bool)
    ensures r <==> prefix <= s
  {
    |prefix| == 0 || (0 < |s| && s[0] == prefix[0] && StartsWith(s[1..], prefix[1..]))
  }

  /** Java's `String.contains`: try every starting offset in turn. */
  function Contains(s: string, t: string): (r: bool)
    ensures r <==> exists i :: OccursAt(s, t, i)
  {
    if StartsWith(s, t) then
      assert OccursAt(s, t, 0);
      true
    else if |s| == 0 then
      assert forall i :: !OccursAt(s, t, i);
      false
    else
      var rest := Contains(s[1..], t);
      assert forall i :: OccursAt(s[1..], t, i) <==> OccursAt(s, t, i + 1);
      assert !OccursAt(s, t, 0);
      assert forall i :: OccursAt(s, t, i) ==> i == 0 || OccursAt(s[1..], t, i - 1);
      rest
  }

  /** `anyMatch(title::startsWith)` over a list of prefixes. */
  function AnyPrefixOf(prefixes: seq<string>, title: string): (r: bool)
    ensures r <==> exists p :: p in prefixes && p <= title
  {
    if |prefixes| == 0 then false
    else if StartsWith(title, prefixes[0]) then
      assert prefixes[0] in prefixes;
      true
    else
      assert forall p :: p in prefixes <==> p == prefixes[0] || p in prefixes[1..];
      AnyPrefixOf(prefixes[1..], title)
  }

  /** `anyMatch(content::contains)` over a list of substrings. */
  function AnyContainedIn(needles: seq<string>, content: string): (r: bool)
    ensures r <==> exists t, i :: t in needles && OccursAt(content, t, i)
  {
    if |needles| == 0 then false
    else Contains(content, needles[0]) || AnyContainedIn(needles[1..], content)
  }

  /** `List.contains` on a list of author ids. */
  function ListContains(ids: seq<string>, id: string): (r: bool)
    ensures r <==> id in ids
  {
    |ids| > 0 && (ids[0] == id || ListContains(ids[1..], id))
  }

  function IsTitlePrefixed(titlePrefixes: Option<seq<string>>, title: Option<string>): (r: bool)
    ensures r <==> Unconstrained(titlePrefixes)
                   || (title.Some? && exists p :: p in titlePrefixes.value && p <= title.value)
  {
    if Unconstrained(titlePrefixes) then true
    else if title.None? then false
    else AnyPrefixOf(titlePrefixes.value, title.value)
  }

  function IsContainsContents(contents: Option<seq<string>>, content: Option<string>): (r: bool)
    ensures r <==> Unconstrained(contents)
                   || (content.Some? && exists t, i :: t in contents.value && OccursAt(content.value, t, i))
  {
    if Unconstrained(contents) then true
    else if content.None? then false
    else AnyContainedIn(contents.value, content.value)
  }

  function IsAuthorPresent(authorIds: Option<seq<string>>, author: Option<Author>): (r: bool)
    ensures r <==> Unconstrained(authorIds)
                   || (author.Some? && author.value.id.Some? && author.value.id.value in authorIds.value)
  {
    if Unconstrained(authorIds) then true
    else if author.None? || author.value.id.None? then false
    else ListContains(authorIds.value, author.value.id.value)
  }

  function IsCreatedWithinInterval(createdFrom: Option<Timestamp>, createdTo: Option<Timestamp>,
                                   created: Option<Timestamp>): (r: bool)
    ensures r <==> (createdFrom.None? && createdTo.None?)
                   || (created.Some?
                       && (createdFrom.Some? ==> createdFrom.value <= created.value)
                       && (createdTo.Some? ==> created.value <= createdTo.value))
  {
    // `!created.isBefore(createdFrom)` and `!created.isAfter(createdTo)`
    var matchFrom := createdFrom.None? || (created.Some? && !(created.value < createdFrom.value));
    var matchTo := createdTo.None? || (created.Some? && !(created.value > createdTo.value));
    matchFrom && matchTo
  }

  /** A document matches a request when it passes all four predicates. A
      missing field fails any filter that constrains it; a request that
      constrains nothing accepts every document. */
  function MatchesSearchRequest(request: SearchRequest, document: Document): (r: bool)
    ensures !Unconstrained(request.titlePrefixes) && document.title.None? ==> !r
    ensures !Unconstrained(request.containsContents) && document.content.None? ==> !r
    ensures (!Unconstrained(request.authorIds)
             && (document.author.None? || document.author.value.id.None?)) ==> !r
    ensures (request.createdFrom.Some? || request.createdTo.Some?) && document.created.None? ==> !r
    ensures (&& Unconstrained(request.titlePrefixes)
             && Unconstrained(request.containsContents)
             && Unconstrained(request.authorIds)
             && request.createdFrom.None? && request.createdTo.None?) ==> r
  {
    && IsTitlePrefixed(request.titlePrefixes, document.title)
    && IsContainsContents(request.containsContents, document.content)
    && IsAuthorPresent(request.authorIds, document.author)
    && IsCreatedWithinInterval(request.createdFrom, request.createdTo, document.created)
  }
}
