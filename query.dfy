/**
 * The query layer of lib.py: the filter builder and fetch choice of
 * `perform_query`, the mapping of a response to bubble dicts, and
 * `query_most_relevant_bubbles`, which chains the two.
 */
module Query {
  import opened Wrappers
  import opened Sorting
  import opened Store

  /**
   * What the built filter accepts. The author filter wins over the
   * exclude-author filter when both are given; the category must match
   * exactly when one is given.
   */
  predicate Admits(p: Properties, queryUser: string, notQueryUser: string, queryCategory: string)
  {
    (if queryUser != "" then p.user == queryUser else notQueryUser != "" ==> p.user != notQueryUser) &&
    (queryCategory != "" ==> p.category == queryCategory)
  }

  /** An empty query text asks for newest first, a non-empty one for `near_text` relevance. */
  function OrderFor(queryText: string): Order
  {
    if queryText == "" then NewestFirst else ByRelevance(queryText)
  }

  /** The objects the query admits, in the order it asks for. */
  function Matching(objs: seq<StoredObject>, queryUser: string, notQueryUser: string, queryText: string,
                    queryCategory: string, relevance: (string, string) -> real): seq<StoredObject>
  {
    Arrange(Select(objs, (o: StoredObject) => Admits(o.props, queryUser, notQueryUser, queryCategory)),
            OrderFor(queryText), relevance)
  }

  /**
   * The response `perform_query` returns: `None` for equal author and
   * exclude-author or when the store raises, otherwise the page of the
   * matching objects.
   */
  function QueryResult(objs: seq<StoredObject>, queryUser: string, notQueryUser: string, queryText: string,
                       queryCategory: string, limit: nat, offset: nat, relevance: (string, string) -> real,
                       fault: bool): Option<seq<StoredObject>>
  {
    if queryUser != "" && queryUser == notQueryUser then None
    else if fault then None
    else Some(Page(Matching(objs, queryUser, notQueryUser, queryText, queryCategory, relevance), limit, offset))
  }

  /**
   * The filter of `perform_query`, built clause by clause from a wildcard on
   * the content. Equal author and exclude-author give no filter at all.
   */
  method BuildFilters(queryUser: string, notQueryUser: string, queryCategory: string) returns (filters: Option<Filter>)
    ensures filters.None? <==> queryUser != "" && queryUser == notQueryUser
    ensures filters.Some? ==> forall p :: Satisfies(p, filters.value) <==> Admits(p, queryUser, notQueryUser, queryCategory)
    ensures filters.Some? && queryUser != "" ==>
              UserEqual(queryUser) in filters.value && forall c :: c in filters.value ==> !c.UserNotEqual?
    ensures filters.Some? ==> (CategoryEqual(queryCategory) in filters.value <==> queryCategory != "")
  {
    var f: Filter := [ContentLikeAny];
    if queryUser != "" && notQueryUser != "" && queryUser == notQueryUser {
      return None;
    }
    if queryUser != "" {
      f := f + [UserEqual(queryUser)];
    } else if notQueryUser != "" {
      f := f + [UserNotEqual(notQueryUser)];
    }
    if queryCategory != "" {
      f := f + [CategoryEqual(queryCategory)];
    }
    assert forall c :: c in f <==>
      c == ContentLikeAny || (queryUser != "" && c == UserEqual(queryUser)) ||
      (queryUser == "" && notQueryUser != "" && c == UserNotEqual(notQueryUser)) ||
      (queryCategory != "" && c == CategoryEqual(queryCategory));
    forall p
      ensures Satisfies(p, f) <==> Admits(p, queryUser, notQueryUser, queryCategory)
    {
      if Satisfies(p, f) {
        assert Holds(p, ContentLikeAny);
        if queryUser != "" {
          assert Holds(p, UserEqual(queryUser));
        } else if notQueryUser != "" {
          assert Holds(p, UserNotEqual(notQueryUser));
        }
        if queryCategory != "" {
          assert Holds(p, CategoryEqual(queryCategory));
        }
      }
    }
    filters := Some(f);
  }

  /** `perform_query` against the store, with `fault` standing for an exception the store raises. */
  method PerformQuery(store: ContentStore, queryUser: string, notQueryUser: string, queryText: string,
                      queryCategory: string, limit: nat, offset: nat, relevance: (string, string) -> real,
                      fault: bool) returns (response: Option<seq<StoredObject>>)
    ensures response == QueryResult(store.records, queryUser, notQueryUser, queryText, queryCategory,
                                    limit, offset, relevance, fault)
  {
    var filters := BuildFilters(queryUser, notQueryUser, queryCategory);
    if filters.None? {
      return None;
    }
    if fault {
      return None;
    }
    var f := filters.value;
    SelectCongruent(store.records, (o: StoredObject) => Satisfies(o.props, f),
                    (o: StoredObject) => Admits(o.props, queryUser, notQueryUser, queryCategory));
    response := Some(FetchFrom(store.records, f, OrderFor(queryText), relevance, limit, offset));
  }

  /** The dict `process_bubbles_response` makes of one stored object. */
  function BubbleOf(o: StoredObject): Bubble
  {
    Bubble(o.props.content, o.props.user, o.props.category, Some(o.creationTime), Some(o.uuid))
  }

  /** The bubbles of a response: none for `None`, else one per object, in order. */
  function BubblesOf(response: Option<seq<StoredObject>>): (r: seq<Bubble>)
    ensures response.None? ==> r == []
    ensures response.Some? ==> |r| == |response.value|
  {
    match response
    case None => []
    case Some(objs) => seq(|objs|, i requires 0 <= i < |objs| => BubbleOf(objs[i]))
  }

  /** `process_bubbles_response`: one bubble dict per object, in response order. */
  method ProcessBubblesResponse(response: Option<seq<StoredObject>>) returns (bubbles: seq<Bubble>)
    ensures response.None? ==> bubbles == []
    ensures response.Some? ==> |bubbles| == |response.value| &&
                               forall i :: 0 <= i < |bubbles| ==> bubbles[i] == BubbleOf(response.value[i])
  {
    bubbles := [];
    if response.None? {
      return;
    }
    var objs := response.value;
    for i := 0 to |objs|
      invariant |bubbles| == i
      invariant forall j :: 0 <= j < i ==> bubbles[j] == BubbleOf(objs[j])
    {
      bubbles := bubbles + [BubbleOf(objs[i])];
    }
  }

  /** `query_most_relevant_bubbles`: the query, then its response as bubble dicts. */
  method QueryMostRelevantBubbles(store: ContentStore, notQueryUser: string, queryUser: string, queryText: string,
                                  queryCategory: string, limit: nat, offset: nat,
                                  relevance: (string, string) -> real, fault: bool) returns (bubbles: seq<Bubble>)
    ensures bubbles == BubblesOf(QueryResult(store.records, queryUser, notQueryUser, queryText, queryCategory,
                                             limit, offset, relevance, fault))
  {
    var response := PerformQuery(store, queryUser, notQueryUser, queryText, queryCategory, limit, offset,
                                 relevance, fault);
    bubbles := ProcessBubblesResponse(response);
  }

  /** A successful query returns stored objects the filter admits, and never more than `limit`. */
  lemma QueryAdmitted(objs: seq<StoredObject>, queryUser: string, notQueryUser: string, queryText: string,
                      queryCategory: string, limit: nat, offset: nat, relevance: (string, string) -> real,
                      fault: bool, o: StoredObject)
    requires QueryResult(objs, queryUser, notQueryUser, queryText, queryCategory, limit, offset, relevance, fault).Some?
    requires o in QueryResult(objs, queryUser, notQueryUser, queryText, queryCategory, limit, offset, relevance, fault).value
    ensures o in objs && Admits(o.props, queryUser, notQueryUser, queryCategory)
  {
    var keep := (o: StoredObject) => Admits(o.props, queryUser, notQueryUser, queryCategory);
    var selected := Select(objs, keep);
    var page := Page(Matching(objs, queryUser, notQueryUser, queryText, queryCategory, relevance), limit, offset);
    var i :| 0 <= i < |page| && page[i] == o;
    assert o in multiset(Arrange(selected, OrderFor(queryText), relevance));
    assert o in selected;
  }

  /**
   * With both an author and a different exclude-author, only the author
   * filter applies: every result is by the author, whatever the exclusion.
   */
  lemma AuthorFilterWins(objs: seq<StoredObject>, queryUser: string, notQueryUser: string, queryText: string,
                         queryCategory: string, limit: nat, offset: nat, relevance: (string, string) -> real,
                         fault: bool)
    requires queryUser != "" && notQueryUser != queryUser && !fault
    ensures var r := QueryResult(objs, queryUser, notQueryUser, queryText, queryCategory, limit, offset, relevance, fault);
            r.Some? && forall o :: o in r.value ==> o.props.user == queryUser
  {
    var r := QueryResult(objs, queryUser, notQueryUser, queryText, queryCategory, limit, offset, relevance, fault);
    forall o | o in r.value
      ensures o.props.user == queryUser
    {
      QueryAdmitted(objs, queryUser, notQueryUser, queryText, queryCategory, limit, offset, relevance, fault, o);
    }
  }

  /** An empty query text gives newest first; a non-empty one gives the most relevant first. */
  lemma QueryOrdered(objs: seq<StoredObject>, queryUser: string, notQueryUser: string, queryText: string,
                     queryCategory: string, limit: nat, offset: nat, relevance: (string, string) -> real,
                     fault: bool)
    requires QueryResult(objs, queryUser, notQueryUser, queryText, queryCategory, limit, offset, relevance, fault).Some?
    ensures var r := QueryResult(objs, queryUser, notQueryUser, queryText, queryCategory, limit, offset, relevance, fault).value;
            if queryText == "" then SortedDesc(r, CreationTime) else SortedDesc(r, RelevanceTo(relevance, queryText))
  {
    var selected := Select(objs, (o: StoredObject) => Admits(o.props, queryUser, notQueryUser, queryCategory));
    if queryText == "" {
      SortDescSorted(selected, CreationTime);
      PageSorted(Matching(objs, queryUser, notQueryUser, queryText, queryCategory, relevance), CreationTime, limit, offset);
    } else {
      SortDescSorted(selected, RelevanceTo(relevance, queryText));
      PageSorted(Matching(objs, queryUser, notQueryUser, queryText, queryCategory, relevance),
                 RelevanceTo(relevance, queryText), limit, offset);
    }
  }

  /** The first page large enough to hold every match holds every stored object the filter admits. */
  lemma QueryComplete(objs: seq<StoredObject>, queryUser: string, notQueryUser: string, queryText: string,
                      queryCategory: string, limit: nat, relevance: (string, string) -> real, o: StoredObject)
    requires !(queryUser != "" && queryUser == notQueryUser)
    requires limit >= |objs|
    requires o in objs && Admits(o.props, queryUser, notQueryUser, queryCategory)
    ensures o in QueryResult(objs, queryUser, notQueryUser, queryText, queryCategory, limit, 0, relevance, false).value
  {
    var keep := (o: StoredObject) => Admits(o.props, queryUser, notQueryUser, queryCategory);
    SelectComplete(objs, keep, o);
    var m := Matching(objs, queryUser, notQueryUser, queryText, queryCategory, relevance);
    assert o in multiset(m);
    assert Page(m, limit, 0) == m;
  }
}
