/**
 * The ranking pipelines: lib.py's `perform_similarity_search_users_by_profile`
 * (the reference user's bubbles, the other users' bubbles, grouped,
 * summarized, embedded, the reference popped out, the rest ranked against
 * it), and src.py's `query_user_profile` with its own version of the
 * pipeline. The summarizer, the embedder and the similarity score are
 * parameters.
 */
module Pipeline {
  import opened Wrappers
  import opened Text
  import opened Dicts
  import opened Sorting
  import opened Store
  import opened Query
  import opened Grouping
  import opened Ranking

  /** How the lib.py pipeline fails. */
  datatype PipelineError =
    | NoProfile        // BubbleNotFoundError: no bubbles of the reference user
    | NoCandidates     // BubbleNotFoundError: no bubbles of anybody else
    | ServiceFailure   // a summarizing or embedding call raised
    | KeyError         // `pop` of a user the grouping does not hold

  /** The embedding of `u`'s profile: its contents joined, summarized, embedded; none if a call fails. */
  function ProfileVector<E>(bs: seq<Bubble>, u: string, summarize: string -> Option<string>,
                            embed: string -> Option<E>): Option<E>
  {
    match summarize(Join(CRLF, TextsBy(bs, u)))
    case None => None
    case Some(summary) => embed(summary)
  }

  /** `emb` holds, for every author of `bs` in first-seen order, the embedding of that author's profile. */
  ghost predicate EmbeddedAs<E>(emb: Dict<E>, bs: seq<Bubble>, summarize: string -> Option<string>,
                                embed: string -> Option<E>)
  {
    Valid(emb) && emb.keys == FirstSeen(Authors(bs)) &&
    forall u :: u in emb.values ==> ProfileVector(bs, u, summarize, embed) == Some(emb.values[u])
  }

  /**
   * The two fan-outs over a grouping succeed exactly when every author's
   * profile can be summarized and embedded, and then hold those embeddings.
   */
  lemma StagesOutcome<E>(grouped: Dict<string>, bs: seq<Bubble>, summarize: string -> Option<string>,
                         embed: string -> Option<E>)
    requires Valid(grouped) && grouped.keys == FirstSeen(Authors(bs))
    requires forall u :: u in grouped.values ==> grouped.values[u] == Join(CRLF, TextsBy(bs, u))
    ensures var s := FanOut(grouped, summarize);
            (s.Some? && FanOut(s.value, embed).Some?) <==>
            forall u :: u in Authors(bs) ==> ProfileVector(bs, u, summarize, embed).Some?
    ensures var s := FanOut(grouped, summarize);
            s.Some? && FanOut(s.value, embed).Some? ==> EmbeddedAs(FanOut(s.value, embed).value, bs, summarize, embed)
  {
    FirstSeenMembers(Authors(bs));
    var s := FanOut(grouped, summarize);
    if s.Some? {
      var e := FanOut(s.value, embed);
      if e.Some? {
        forall u | u in e.value.values
          ensures ProfileVector(bs, u, summarize, embed) == Some(e.value.values[u])
        {
          assert u in grouped.values;
        }
      } else {
        var u :| u in s.value.values && embed(s.value.values[u]).None?;
        assert ProfileVector(bs, u, summarize, embed).None?;
      }
    } else {
      var u :| u in grouped.values && summarize(grouped.values[u]).None?;
      assert ProfileVector(bs, u, summarize, embed).None?;
    }
  }

  /** The reference user's bubbles: `query_user=user`, at most `limitUser`, from the start. */
  function ProfileBubbles(objs: seq<StoredObject>, user: string, queryText: string, queryCategory: string,
                          limitUser: nat, relevance: (string, string) -> real, fault: bool): seq<Bubble>
  {
    BubblesOf(QueryResult(objs, user, "", queryText, queryCategory, limitUser, 0, relevance, fault))
  }

  /** Everybody else's bubbles: `not_query_user=user`, at most `limit`, from the start. */
  function CandidateBubbles(objs: seq<StoredObject>, user: string, queryText: string, queryCategory: string,
                            limit: nat, relevance: (string, string) -> real, fault: bool): seq<Bubble>
  {
    BubblesOf(QueryResult(objs, "", user, queryText, queryCategory, limit, 0, relevance, fault))
  }

  /** Every profile bubble of a named user is that user's. */
  lemma ProfileIsUsers(objs: seq<StoredObject>, user: string, queryText: string, queryCategory: string,
                       limitUser: nat, relevance: (string, string) -> real, fault: bool)
    requires user != ""
    ensures forall u :: u in Authors(ProfileBubbles(objs, user, queryText, queryCategory, limitUser, relevance, fault)) ==> u == user
  {
    var response := QueryResult(objs, user, "", queryText, queryCategory, limitUser, 0, relevance, fault);
    var profile := BubblesOf(response);
    forall u | u in Authors(profile)
      ensures u == user
    {
      var i :| 0 <= i < |profile| && Authors(profile)[i] == u;
      QueryAdmitted(objs, user, "", queryText, queryCategory, limitUser, 0, relevance, fault, response.value[i]);
    }
  }

  /** No candidate bubble is the reference user's. */
  lemma CandidatesExcludeUser(objs: seq<StoredObject>, user: string, queryText: string, queryCategory: string,
                              limit: nat, relevance: (string, string) -> real, fault: bool)
    requires user != ""
    ensures user !in Authors(CandidateBubbles(objs, user, queryText, queryCategory, limit, relevance, fault))
  {
    var response := QueryResult(objs, "", user, queryText, queryCategory, limit, 0, relevance, fault);
    var candidates := BubblesOf(response);
    if user in Authors(candidates) {
      var i :| 0 <= i < |candidates| && Authors(candidates)[i] == user;
      QueryAdmitted(objs, "", user, queryText, queryCategory, limit, 0, relevance, fault, response.value[i]);
    }
  }

  /** Two consecutive runs of authors: a user is an author of the whole when it is an author of either part. */
  lemma AuthorsAppend(xs: seq<Bubble>, ys: seq<Bubble>)
    ensures forall u :: u in Authors(xs + ys) <==> u in Authors(xs) || u in Authors(ys)
  {
    assert Authors(xs + ys) == Authors(xs) + Authors(ys);
  }

  /**
   * lib.py's `perform_similarity_search_users_by_profile`. The reference
   * user's bubbles and everybody else's are fetched (each query's store
   * error gives an empty list); either list empty raises BubbleNotFoundError.
   * The reference bubbles are appended to the others, the whole is grouped,
   * summarized and embedded; the reference user's embedding is popped and
   * the remaining users are ranked against it.
   */
  method PerformSimilaritySearchUsersByProfile<E>(store: ContentStore, user: string, queryText: string,
                                                  queryCategory: string, limit: nat, limitUser: nat,
                                                  relevance: (string, string) -> real, faultUser: bool,
                                                  faultOthers: bool, summarize: string -> Option<string>,
                                                  embed: string -> Option<E>, similarity: (E, E) -> real)
    returns (r: Result<seq<Ranked>, PipelineError>)
    ensures var profile := ProfileBubbles(store.records, user, queryText, queryCategory, limitUser, relevance, faultUser);
            var candidates := CandidateBubbles(store.records, user, queryText, queryCategory, limit, relevance, faultOthers);
            var all := candidates + profile;
            && (r == Failure(NoProfile) <==> profile == [])
            && (r == Failure(NoCandidates) <==> profile != [] && candidates == [])
            && (r == Failure(ServiceFailure) <==>
                 profile != [] && candidates != [] &&
                 exists u :: u in Authors(all) && ProfileVector(all, u, summarize, embed).None?)
            && (r == Failure(KeyError) <==>
                 profile != [] && candidates != [] &&
                 (forall u :: u in Authors(all) ==> ProfileVector(all, u, summarize, embed).Some?) &&
                 user !in Authors(all))
            && (r.Success? <==>
                 profile != [] && candidates != [] &&
                 (forall u :: u in Authors(all) ==> ProfileVector(all, u, summarize, embed).Some?) &&
                 user in Authors(all))
            && (r.Success? ==>
                 && SortedDesc(r.value, Similarity)
                 && |r.value| == |Without(FirstSeen(Authors(all)), user)|
                 && (forall u :: u in Users(r.value) <==> u in Authors(all) && u != user)
                 && ProfileVector(all, user, summarize, embed).Some?
                 && forall e :: e in r.value ==>
                      ProfileVector(all, e.user, summarize, embed).Some? &&
                      e.similarity == similarity(ProfileVector(all, e.user, summarize, embed).value,
                                                 ProfileVector(all, user, summarize, embed).value))
  {
    var profile := QueryMostRelevantBubbles(store, "", user, queryText, queryCategory, limitUser, 0, relevance, faultUser);
    if |profile| == 0 {
      return Failure(NoProfile);
    }
    var candidates := QueryMostRelevantBubbles(store, user, "", queryText, queryCategory, limit, 0, relevance, faultOthers);
    if |candidates| == 0 {
      return Failure(NoCandidates);
    }
    var all := candidates + profile;
    var grouped := GroupByUser(all);
    StagesOutcome(grouped, all, summarize, embed);
    var summaries := FanOut(grouped, summarize);
    if summaries.None? {
      return Failure(ServiceFailure);
    }
    var embeddings := FanOut(summaries.value, embed);
    if embeddings.None? {
      return Failure(ServiceFailure);
    }
    FirstSeenMembers(Authors(all));
    if user !in embeddings.value.values {
      return Failure(KeyError);
    }
    var (reference, others) := Pop(embeddings.value, user);
    var ranked := ComputeUserSimilarity(others, reference, similarity);
    RankedUsers(others, reference, similarity, ranked);
    r := Success(ranked);
  }

  /**
   * For a named reference user with bubbles on both sides, the pop always
   * finds the user, and the ranked users are exactly the other authors of
   * the candidate bubbles.
   */
  lemma RankedAreCandidateAuthors(objs: seq<StoredObject>, user: string, queryText: string, queryCategory: string,
                                  limit: nat, limitUser: nat, relevance: (string, string) -> real,
                                  faultUser: bool, faultOthers: bool)
    requires user != ""
    requires ProfileBubbles(objs, user, queryText, queryCategory, limitUser, relevance, faultUser) != []
    ensures var profile := ProfileBubbles(objs, user, queryText, queryCategory, limitUser, relevance, faultUser);
            var candidates := CandidateBubbles(objs, user, queryText, queryCategory, limit, relevance, faultOthers);
            user in Authors(candidates + profile) &&
            forall u :: u in Authors(candidates + profile) && u != user <==> u in Authors(candidates)
  {
    var profile := ProfileBubbles(objs, user, queryText, queryCategory, limitUser, relevance, faultUser);
    var candidates := CandidateBubbles(objs, user, queryText, queryCategory, limit, relevance, faultOthers);
    ProfileIsUsers(objs, user, queryText, queryCategory, limitUser, relevance, faultUser);
    CandidatesExcludeUser(objs, user, queryText, queryCategory, limit, relevance, faultOthers);
    AuthorsAppend(candidates, profile);
    assert Authors(profile)[0] in Authors(profile);
  }
}
