/**
 * src.py's profile lookup and the ranking pipeline built on it.
 * `query_user_profile` matches the user, and optionally the category, by
 * prefix (`like "name*"`); `perform_similarity_search_users_by_profile`
 * hands its `top_k_user` argument to that lookup in the category position,
 * so a non-zero `top_k_user` becomes a category prefix and the lookup keeps
 * its default limit of 10.
 */
module Profile {
  import opened Wrappers
  import opened Text
  import opened Dicts
  import opened Sorting
  import opened Store
  import opened Grouping
  import opened Ranking

  /** One bubble of a profile. `created_at` is not a property of the schema, so it is always absent. */
  datatype ProfileEntry = ProfileEntry(content: string, category: string, createdAt: Option<nat>)

  /** `{"user": ..., "total_bubbles": ..., "bubbles": [...]}`. */
  datatype UserProfile = UserProfile(user: string, totalBubbles: nat, bubbles: seq<ProfileEntry>)

  function EntryOf(o: StoredObject): ProfileEntry
  {
    ProfileEntry(o.props.content, o.props.category, None)
  }

  function Entries(objs: seq<StoredObject>): (r: seq<ProfileEntry>)
    ensures |r| == |objs|
  {
    seq(|objs|, i requires 0 <= i < |objs| => EntryOf(objs[i]))
  }

  /** The filter of `query_user_profile`: user prefix, and category prefix when one is given. */
  function ProfileFilter(userName: string, queryCategory: string): Filter
  {
    [UserLike(userName)] + if queryCategory != "" then [CategoryLike(queryCategory)] else []
  }

  /** What the profile filter accepts. */
  predicate ProfileAdmits(p: Properties, userName: string, queryCategory: string)
  {
    StartsWith(p.user, userName) && (queryCategory != "" ==> StartsWith(p.category, queryCategory))
  }

  lemma ProfileFilterMeaning(p: Properties, userName: string, queryCategory: string)
    ensures Satisfies(p, ProfileFilter(userName, queryCategory)) <==> ProfileAdmits(p, userName, queryCategory)
  {
    var f := ProfileFilter(userName, queryCategory);
    assert forall c :: c in f <==> c == UserLike(userName) || (queryCategory != "" && c == CategoryLike(queryCategory));
    if Satisfies(p, f) {
      assert Holds(p, UserLike(userName));
      if queryCategory != "" {
        assert Holds(p, CategoryLike(queryCategory));
      }
    }
  }

  /** `near_text` for a query text, otherwise a plain fetch in the store's order. */
  function ProfileOrder(queryText: string): Order
  {
    if queryText == "" then StoreOrder else ByRelevance(queryText)
  }

  /** The profile `query_user_profile` returns, or `None` when the store raises. */
  function ProfileOf(objs: seq<StoredObject>, userName: string, queryText: string, queryCategory: string,
                     topK: nat, relevance: (string, string) -> real, fault: bool): Option<UserProfile>
  {
    if fault then None
    else
      var entries := Entries(FetchFrom(objs, ProfileFilter(userName, queryCategory), ProfileOrder(queryText),
                                       relevance, topK, 0));
      Some(UserProfile(userName, |entries|, entries))
  }

  /**
   * src.py's `query_user_profile`: the filter built clause by clause, one
   * of two fetches, and one entry per returned object; the count is the
   * number of entries.
   */
  method QueryUserProfile(store: ContentStore, userName: string, queryText: string, queryCategory: string,
                          topK: nat, relevance: (string, string) -> real, fault: bool)
    returns (profile: Option<UserProfile>)
    ensures profile == ProfileOf(store.records, userName, queryText, queryCategory, topK, relevance, fault)
    ensures profile.None? <==> fault
    ensures profile.Some? ==> profile.value.user == userName && profile.value.totalBubbles == |profile.value.bubbles| &&
                              profile.value.totalBubbles <= topK
  {
    var filters: Filter := [UserLike(userName)];
    if queryCategory != "" {
      filters := filters + [CategoryLike(queryCategory)];
    }
    assert filters == ProfileFilter(userName, queryCategory);
    var response: seq<StoredObject>;
    if queryText != "" {
      if fault {
        return None;
      }
      response := FetchFrom(store.records, filters, ByRelevance(queryText), relevance, topK, 0);
    } else {
      if fault {
        return None;
      }
      response := FetchFrom(store.records, filters, StoreOrder, relevance, topK, 0);
    }
    var userBubbles: seq<ProfileEntry> := [];
    for i := 0 to |response|
      invariant |userBubbles| == i
      invariant forall j :: 0 <= j < i ==> userBubbles[j] == EntryOf(response[j])
    {
      userBubbles := userBubbles + [EntryOf(response[i])];
    }
    assert userBubbles == Entries(response);
    profile := Some(UserProfile(userName, |userBubbles|, userBubbles));
  }

  /** Every entry of a profile comes from a stored object the prefix filter admits. */
  lemma ProfileEntriesAdmitted(objs: seq<StoredObject>, userName: string, queryText: string, queryCategory: string,
                               topK: nat, relevance: (string, string) -> real, e: ProfileEntry)
    requires e in ProfileOf(objs, userName, queryText, queryCategory, topK, relevance, false).value.bubbles
    ensures exists o :: o in objs && EntryOf(o) == e && ProfileAdmits(o.props, userName, queryCategory)
  {
    var keep := (o: StoredObject) => Satisfies(o.props, ProfileFilter(userName, queryCategory));
    var selected := Select(objs, keep);
    var fetched := FetchFrom(objs, ProfileFilter(userName, queryCategory), ProfileOrder(queryText), relevance, topK, 0);
    var i :| 0 <= i < |fetched| && Entries(fetched)[i] == e;
    var o := fetched[i];
    assert o in multiset(Arrange(selected, ProfileOrder(queryText), relevance));
    assert o in selected;
    ProfileFilterMeaning(o.props, userName, queryCategory);
  }

  /**
   * A profile is empty exactly when nothing matches or nothing is asked
   * for: a user without matching bubbles gets `total_bubbles = 0` and no
   * bubbles.
   */
  lemma ProfileEmptyIff(objs: seq<StoredObject>, userName: string, queryText: string, queryCategory: string,
                        topK: nat, relevance: (string, string) -> real)
    ensures ProfileOf(objs, userName, queryText, queryCategory, topK, relevance, false).value.totalBubbles == 0 <==>
            topK == 0 || forall o :: o in objs ==> !ProfileAdmits(o.props, userName, queryCategory)
  {
    var keep := (o: StoredObject) => Satisfies(o.props, ProfileFilter(userName, queryCategory));
    var selected := Select(objs, keep);
    if exists o :: o in objs && ProfileAdmits(o.props, userName, queryCategory) {
      var o :| o in objs && ProfileAdmits(o.props, userName, queryCategory);
      ProfileFilterMeaning(o.props, userName, queryCategory);
      SelectComplete(objs, keep, o);
      assert |Arrange(selected, ProfileOrder(queryText), relevance)| > 0;
    } else if selected != [] {
      assert selected[0] in selected;
      ProfileFilterMeaning(selected[0].props, userName, queryCategory);
    }
  }

  /** The user match is a prefix match: looking up "ann" also returns the bubbles of "anna". */
  lemma ProfilePrefixMatch(relevance: (string, string) -> real)
    ensures var objs := [StoredObject(Properties("hello", "anna", "misc"), 0, 0)];
            ProfileOf(objs, "ann", "", "", 10, relevance, false).value.totalBubbles == 1
  {
    var objs := [StoredObject(Properties("hello", "anna", "misc"), 0, 0)];
    assert ProfileAdmits(objs[0].props, "ann", "");
    ProfileEmptyIff(objs, "ann", "", "", 10, relevance);
    assert |Select(objs, (o: StoredObject) => Satisfies(o.props, ProfileFilter("ann", ""))) | <= 1;
  }

  /** How src.py's pipeline fails. */
  datatype SrcPipelineError =
    | TypeError        // the profile lookup returned None and is then subscripted
    | StoreError       // the candidate query raised; src.py does not catch it
    | ServiceFailure   // an embedding call raised

  /** What the `query_category` slot receives from an int argument: `str(n)`, or nothing when `n` is 0. */
  function CategorySlot(n: int): (r: string)
    ensures r == "" <==> n == 0
  {
    if n == 0 then "" else Decimal(n)
  }

  /** The default `top_k` of `query_user_profile`, which the pipeline never overrides. */
  const ProfileDefaultTopK: nat := 10

  /** The dict src.py's `query_most_relevant_bubbles` makes of one object: no id and no time. */
  function CandidateOf(o: StoredObject): Bubble
  {
    Bubble(o.props.content, o.props.user, o.props.category, None, None)
  }

  /** src.py's `query_most_relevant_bubbles`: `near_text` over every other user's bubbles, at most `k`. */
  function SrcCandidates(objs: seq<StoredObject>, user: string, queryText: string, k: nat,
                         relevance: (string, string) -> real): (r: seq<Bubble>)
    ensures |r| <= k
  {
    var fetched := FetchFrom(objs, [UserNotEqual(user)], ByRelevance(queryText), relevance, k, 0);
    seq(|fetched|, i requires 0 <= i < |fetched| => CandidateOf(fetched[i]))
  }

  /** The user src.py's candidate query excludes never appears among its authors, whatever the name. */
  lemma SrcCandidatesExcludeUser(objs: seq<StoredObject>, user: string, queryText: string, k: nat,
                                 relevance: (string, string) -> real)
    ensures user !in Authors(SrcCandidates(objs, user, queryText, k, relevance))
  {
    var keep := (o: StoredObject) => Satisfies(o.props, [UserNotEqual(user)]);
    var selected := Select(objs, keep);
    var fetched := FetchFrom(objs, [UserNotEqual(user)], ByRelevance(queryText), relevance, k, 0);
    var cands := SrcCandidates(objs, user, queryText, k, relevance);
    forall i | 0 <= i < |cands|
      ensures Authors(cands)[i] != user
    {
      var o := fetched[i];
      assert o in multiset(Arrange(selected, ByRelevance(queryText), relevance));
      assert o in selected;
      assert Holds(o.props, UserNotEqual(user));
    }
  }

  /**
   * src.py's `perform_similarity_search_users_by_profile`: the profile is
   * looked up with `top_k_user` in the category slot; an empty profile gives
   * `[]`; otherwise the profile's bubbles are embedded as they are, the
   * other users' bubbles are grouped and embedded, and those users are
   * ranked against the profile.
   */
  method PerformSimilaritySearchUsersByProfileSrc<E>(store: ContentStore, user: string, queryText: string,
                                                     topK: nat, topKUser: nat,
                                                     relevance: (string, string) -> real, faultProfile: bool,
                                                     faultCandidates: bool,
                                                     embedProfile: seq<ProfileEntry> -> Option<E>,
                                                     embed: string -> Option<E>, similarity: (E, E) -> real)
    returns (r: Result<seq<Ranked>, SrcPipelineError>)
    ensures var profile := ProfileOf(store.records, user, queryText, CategorySlot(topKUser), ProfileDefaultTopK,
                                     relevance, faultProfile);
            var candidates := SrcCandidates(store.records, user, queryText, topK, relevance);
            && (profile.None? <==> r == Failure(TypeError))
            && (profile.Some? && profile.value.totalBubbles == 0 ==> r == Success([]))
            && (profile.Some? && profile.value.totalBubbles > 0 && faultCandidates ==> r == Failure(StoreError))
            && (r == Failure(ServiceFailure) <==>
                 profile.Some? && profile.value.totalBubbles > 0 && !faultCandidates &&
                 (embedProfile(profile.value.bubbles).None? ||
                  exists u :: u in Authors(candidates) && embed(Join(CRLF, TextsBy(candidates, u))).None?))
            && (profile.Some? && profile.value.totalBubbles > 0 && !faultCandidates && r != Failure(ServiceFailure) ==>
                 && r.Success?
                 && SortedDesc(r.value, Similarity)
                 && |r.value| == |FirstSeen(Authors(candidates))|
                 && (forall u :: u in Users(r.value) <==> u in Authors(candidates))
                 && user !in Users(r.value)
                 && embedProfile(profile.value.bubbles).Some?
                 && forall e :: e in r.value ==>
                      embed(Join(CRLF, TextsBy(candidates, e.user))).Some? &&
                      e.similarity == similarity(embed(Join(CRLF, TextsBy(candidates, e.user))).value,
                                                 embedProfile(profile.value.bubbles).value))
  {
    var userProfile := QueryUserProfile(store, user, queryText, CategorySlot(topKUser), ProfileDefaultTopK,
                                        relevance, faultProfile);
    if userProfile.None? {
      return Failure(TypeError);
    }
    if userProfile.value.totalBubbles == 0 {
      return Success([]);
    }
    var userSummary := SummarizeUserContent(Dict([user], map[user := userProfile.value.bubbles]));
    if faultCandidates {
      return Failure(StoreError);
    }
    var bubbles := SrcCandidates(store.records, user, queryText, topK, relevance);
    var bubblesByUser := GroupByUser(bubbles);
    var summaryByUser := SummarizeUserContent(bubblesByUser);
    var summaryEmbedding := embedProfile(userSummary.values[user]);
    if summaryEmbedding.None? {
      return Failure(ServiceFailure);
    }
    var embeddingByUser := EmbedUserSummaries(summaryByUser, embed);
    FirstSeenMembers(Authors(bubbles));
    if embeddingByUser.None? {
      return Failure(ServiceFailure);
    }
    var ranked := ComputeUserSimilarity(embeddingByUser.value, summaryEmbedding.value, similarity);
    RankedUsers(embeddingByUser.value, summaryEmbedding.value, similarity, ranked);
    SrcCandidatesExcludeUser(store.records, user, queryText, topK, relevance);
    r := Success(ranked);
  }

  /**
   * With `top_k_user = 5` the profile lookup filters on categories starting
   * with "5" and fetches up to 10 bubbles: the argument never limits the
   * profile.
   */
  lemma TopKUserLandsInCategory(user: string)
    ensures ProfileFilter(user, CategorySlot(5)) == [UserLike(user), CategoryLike("5")]
  {
    assert NatDigits(5) == "5";
  }
}
