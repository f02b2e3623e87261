/**
 * The ranker and the sequential fan-outs around it: `compute_user_similarity`
 * (lib.py, src.py and bubbl.ai.py share one body), the `embed_user_summaries`
 * loop of src.py and bubbl.ai.py, and the identity `summarize_user_content`.
 * Embeddings are values of an arbitrary type `E` and the cosine score an
 * uninterpreted function of two of them.
 */
module Ranking {
  import opened Wrappers
  import opened Sorting
  import opened Dicts

  /** One entry of the ranking: `{"user": user, "similarity": similarity}`. */
  datatype Ranked = Ranked(user: string, similarity: real)

  function Similarity(r: Ranked): real
  {
    r.similarity
  }

  /** The entry of one user: its name and the score of its own embedding against the query. */
  function Score<E>(embeddings: Dict<E>, user: string, query: E, similarity: (E, E) -> real): Ranked
    requires user in embeddings.values
  {
    Ranked(user, similarity(embeddings.values[user], query))
  }

  /** The entries before the sort: one per user, in key order. */
  function Scored<E>(embeddings: Dict<E>, query: E, similarity: (E, E) -> real): seq<Ranked>
    requires Valid(embeddings)
  {
    seq(|embeddings.keys|, i requires 0 <= i < |embeddings.keys| => Score(embeddings, embeddings.keys[i], query, similarity))
  }

  /** The users of a ranking, in ranking order. */
  function Users(rs: seq<Ranked>): seq<string>
  {
    seq(|rs|, i requires 0 <= i < |rs| => rs[i].user)
  }

  /**
   * `compute_user_similarity`: one entry per user, each with the score of
   * that user's own embedding, in non-increasing score order; users with
   * equal scores keep their key order (the sort is stable).
   */
  method ComputeUserSimilarity<E>(userEmbeddings: Dict<E>, queryEmbedding: E, similarity: (E, E) -> real)
    returns (ranked: seq<Ranked>)
    requires Valid(userEmbeddings)
    ensures |ranked| == |userEmbeddings.keys|
    ensures SortedDesc(ranked, Similarity)
    ensures forall e :: e in ranked <==>
              e.user in userEmbeddings.values && e == Score(userEmbeddings, e.user, queryEmbedding, similarity)
    ensures forall s :: WithKey(ranked, Similarity, s) == WithKey(Scored(userEmbeddings, queryEmbedding, similarity), Similarity, s)
  {
    var keys := userEmbeddings.keys;
    var similarities: seq<Ranked> := [];
    for i := 0 to |keys|
      invariant |similarities| == i
      invariant forall j :: 0 <= j < i ==> similarities[j] == Score(userEmbeddings, keys[j], queryEmbedding, similarity)
    {
      var user := keys[i];
      var score := similarity(userEmbeddings.values[user], queryEmbedding);
      similarities := similarities + [Ranked(user, score)];
    }
    assert similarities == Scored(userEmbeddings, queryEmbedding, similarity);
    ranked := SortDesc(similarities, Similarity);
    SortDescSorted(similarities, Similarity);
    SortedScoredMembers(userEmbeddings, queryEmbedding, similarity);
    SortedScoredStable(userEmbeddings, queryEmbedding, similarity);
  }

  lemma SortedScoredMembers<E>(userEmbeddings: Dict<E>, queryEmbedding: E, similarity: (E, E) -> real)
    requires Valid(userEmbeddings)
    ensures forall e :: e in SortDesc(Scored(userEmbeddings, queryEmbedding, similarity), Similarity) <==>
              e.user in userEmbeddings.values && e == Score(userEmbeddings, e.user, queryEmbedding, similarity)
  {
    var scored := Scored(userEmbeddings, queryEmbedding, similarity);
    var ranked := SortDesc(scored, Similarity);
    forall e
      ensures e in ranked <==> e.user in userEmbeddings.values && e == Score(userEmbeddings, e.user, queryEmbedding, similarity)
    {
      assert e in ranked <==> e in multiset(scored);
      if e.user in userEmbeddings.values && e == Score(userEmbeddings, e.user, queryEmbedding, similarity) {
        var j :| 0 <= j < |userEmbeddings.keys| && userEmbeddings.keys[j] == e.user;
        assert scored[j] == e;
      }
    }
  }

  lemma SortedScoredStable<E>(userEmbeddings: Dict<E>, queryEmbedding: E, similarity: (E, E) -> real)
    requires Valid(userEmbeddings)
    ensures forall s :: WithKey(SortDesc(Scored(userEmbeddings, queryEmbedding, similarity), Similarity), Similarity, s) ==
                        WithKey(Scored(userEmbeddings, queryEmbedding, similarity), Similarity, s)
  {
    forall s
      ensures WithKey(SortDesc(Scored(userEmbeddings, queryEmbedding, similarity), Similarity), Similarity, s) ==
              WithKey(Scored(userEmbeddings, queryEmbedding, similarity), Similarity, s)
    {
      SortDescStable(Scored(userEmbeddings, queryEmbedding, similarity), Similarity, s);
    }
  }

  /** Every user of the input is ranked, and nothing else is. */
  lemma RankedUsers<E>(userEmbeddings: Dict<E>, queryEmbedding: E, similarity: (E, E) -> real, ranked: seq<Ranked>)
    requires Valid(userEmbeddings)
    requires forall e :: e in ranked <==>
               e.user in userEmbeddings.values && e == Score(userEmbeddings, e.user, queryEmbedding, similarity)
    ensures forall u :: u in Users(ranked) <==> u in userEmbeddings.values
  {
    forall u | u in userEmbeddings.values
      ensures u in Users(ranked)
    {
      var e := Score(userEmbeddings, u, queryEmbedding, similarity);
      assert e in ranked;
      var i :| 0 <= i < |ranked| && ranked[i] == e;
      assert Users(ranked)[i] == u;
    }
  }

  /** `built` holds the embeddings of the first `n` users of `d`, under their own keys. */
  ghost predicate EmbeddedUpTo<E>(built: Dict<E>, d: Dict<string>, embed: string -> Option<E>, n: nat)
    requires Valid(d) && n <= |d.keys|
  {
    Valid(built) && built.keys == d.keys[..n] &&
    forall k :: k in built.values ==> k in d.values && embed(d.values[k]) == Some(built.values[k])
  }

  lemma EmbeddedStep<E>(built: Dict<E>, d: Dict<string>, embed: string -> Option<E>, n: nat, e: E)
    requires Valid(d) && n < |d.keys| && EmbeddedUpTo(built, d, embed, n)
    requires embed(d.values[d.keys[n]]) == Some(e)
    ensures EmbeddedUpTo(Put(built, d.keys[n], e), d, embed, n + 1)
  {
    assert d.keys[n] !in d.keys[..n];
    assert d.keys[..n + 1] == d.keys[..n] + [d.keys[n]];
  }

  lemma EmbeddedAll<E>(built: Dict<E>, d: Dict<string>, embed: string -> Option<E>)
    requires Valid(d) && EmbeddedUpTo(built, d, embed, |d.keys|)
    ensures FanOut(d, embed) == Some(built)
  {
    assert d.keys[..|d.keys|] == d.keys;
    forall k | k in d.values
      ensures embed(d.values[k]).Some?
    {
      assert k in built.values;
    }
    var expected := FanOut(d, embed);
    SameEntries(built, expected.value);
  }

  /**
   * The `embed_user_summaries` loop: one embedding call per user in key
   * order, each result stored under its user. An embedding call that raises
   * ends the loop and the whole stage, which is the fan-out's all-or-nothing.
   */
  method EmbedUserSummaries<E>(userSummaries: Dict<string>, embed: string -> Option<E>)
    returns (userEmbeddings: Option<Dict<E>>)
    requires Valid(userSummaries)
    ensures userEmbeddings == FanOut(userSummaries, embed)
  {
    var keys := userSummaries.keys;
    var built: Dict<E> := Empty();
    for i := 0 to |keys|
      invariant EmbeddedUpTo(built, userSummaries, embed, i)
    {
      var user := keys[i];
      var embedding := embed(userSummaries.values[user]);
      if embedding.None? {
        return None;
      }
      EmbeddedStep(built, userSummaries, embed, i, embedding.value);
      built := Put(built, user, embedding.value);
    }
    EmbeddedAll(built, userSummaries, embed);
    userEmbeddings := Some(built);
  }

  /**
   * `summarize_user_content` of src.py and bubbl.ai.py: the comprehension
   * `{user: content for ...}` is a fan-out through the identity, so the
   * result is the grouping itself, keys and key order included.
   */
  function SummarizeUserContent<V>(userBubbles: Dict<V>): (r: Dict<V>)
    requires Valid(userBubbles)
    ensures r == userBubbles
  {
    FanOutIdentity(userBubbles);
    FanOut(userBubbles, (v: V) => Some(v)).value
  }
}
