# bubbl.ai in Dafny

bubbl.ai stores short posts, called *bubbles*, in a vector database. Each
bubble has a content, an author (`user`) and a category. On top of that
store it offers four things:

- it pages through bubbles by author, excluded author and category,
  newest first or by relevance to a query text;
- it groups bubbles by author, summarizes and embeds each author's text,
  and ranks the other users by the similarity of their embedding to the
  current user's;
- it inserts, removes and wipes bubbles, refusing a duplicate post and a
  removal by someone other than the author;
- it serves all of this through a console (`bubbl.ai.py`), a dispatcher
  (`src.py`'s `handle_action`), a Flask site (`app.py`) and a FastAPI notes
  service (`main.py`).

This project models that core on values and small classes. It proves
what each operation returns, how it changes the store, and the
properties its callers rely on.

The database is a sequence of stored objects inside a `ContentStore`
class (`store.dfy`). Each object carries an insertion counter: it stands
for the creation time and serves as the uuid. A query is modelled as
"select by filter, arrange, then page". The arrangement is newest first,
or, for a query text, a stable descending sort on an uninterpreted
relevance function. Every external service is a function-typed
parameter: relevance, summarization, embedding, similarity, password
hashing, integer parsing and completion. A store failure is a `fault`
flag.

The module layout follows the program:

- `text`, `dicts`, `sorting`, `wrappers`: Python strings, insertion-ordered
  dicts, `sorted(..., reverse=True)`, and the Option/Result types;
- `store`, `query`, `grouping`, `ranking`, `pipeline`, `gateway`: `lib.py`
  (`Handler`, queries, grouping, ranking, insert/remove);
- `profile`, `registry`: `src.py`'s variants and `handle_action`;
- `webapp`: `app.py`;
- `notes_api`: `main.py`;
- `console`: `bubbl.ai.py`.

`src.py` and `bubbl.ai.py` repeat `lib.py`'s grouping, embedding and
similarity functions (`src.py:130-192`, `bubbl.ai.py:62-125`), and one
model serves all three copies. They differ in two places:

- `lib.py` summarizes each author's text with a completion service
  (`summarize_with_gpt`, `lib.py:190-228`). That is `Dicts.FanOut` of a
  service parameter, and it may fail. In `src.py:147-153` and
  `bubbl.ai.py:79-85` the summary is the text itself: the
  `Ranking.SummarizeUserContent` identity.
- `lib.py` runs its service calls through `asyncio.gather`, which the
  model applies sequentially.

Where the code and the design description differ, the model follows the
code:

- `perform_query` refuses a request only when both users are given and
  equal (`lib.py:103`). Any other combination is served, and the
  author filter wins over the excluded-author filter.
- `query_user_profile` matches the user and the category with `like`,
  which is a prefix match in the model (`src.py:76-79`).
- `src.py`'s pipeline passes `top_k_user` into the category parameter of
  `query_user_profile` (`src.py:257`).
- A query-string option whose default is a boolean is converted with
  `bool`, so `"False"` becomes `True` (`app.py:226`).

## Model

| member | source | states |
|---|---|---|
| Store.SelectComplete | lib.py:106-114 | every stored object that satisfies the filter is returned by the selection |
| Store.Arrange | lib.py:117-139 | the arranged result is a permutation of the selected objects |
| Store.Page | lib.py:120-139 | `limit`/`offset` keep exactly the elements `offset .. offset+limit-1` that exist |
| Store.PageNonEmptyIff | lib.py:120-139 | a page is non-empty exactly when the limit is positive and the offset is within the list |
| Store.PagePrefixConsistent | lib.py:120-139 | two consecutive pages of size `limit` together form the page of size `2*limit` |
| Store.PageSorted | lib.py:117-139 | a page of a descending arrangement is itself descending |
| Store.FetchFrom | lib.py:120-139 | a fetch returns at most `limit` objects |
| Store.Lookup | lib.py:305 | `fetch_object_by_id` finds a stored object with that id, or reports that none has it |
| Store.ContentStore.InsertMany | lib.py:292-298 | a batch is appended with fresh consecutive ids, which are returned; a failing store changes nothing |
| Store.ContentStore.DeleteById | lib.py:318-321 | exactly the objects with that id are removed, unless the store fails |
| Store.ContentStore.DeleteAll | lib.py:378-397 | True and an empty store when both the delete and the re-creation work; a failing delete leaves every object; a failing re-creation answers False with the objects already gone |
| Query.BuildFilters | lib.py:100-114 | no filter exactly when both users are given and equal; otherwise the filter admits exactly `Admits` (author if given, else not the excluded author, and the category if given) |
| Query.PerformQuery | lib.py:93-144 | the response is the admitted objects, arranged newest first or by relevance, paged; None on refusal or store failure |
| Query.ProcessBubblesResponse | lib.py:146-160 | each bubble carries its object's content, user, category, creation time and uuid, in response order |
| Query.QueryMostRelevantBubbles | lib.py:162-171 | the bubbles are those of `perform_query`'s response for the same arguments |
| Query.QueryAdmitted | lib.py:102-114 | every returned object is stored and satisfies the user and category conditions |
| Query.AuthorFilterWins | lib.py:106-111 | with an author given, every result is by that author, whatever excluded author is passed |
| Query.QueryOrdered | lib.py:117-139 | results are newest first without a query text and by descending relevance with one |
| Query.QueryComplete | lib.py:102-139 | with a large enough limit and offset 0, every admitted object is returned |
| Grouping.FirstSeenMembers | lib.py:183-184 | the dict's keys are exactly the authors that occur |
| Grouping.FirstSeenDistinct | lib.py:183-184 | each author is a key once |
| Grouping.FirstSeenOrder | lib.py:183-184 | keys are in the order of each author's first bubble |
| Grouping.TextsByEmptyIff | lib.py:179-186 | a user has texts exactly when the user wrote a bubble |
| Grouping.GroupByUser | lib.py:173-188 | keys are the authors in first-seen order; each value is the user's contents in order joined by CRLF; a single bubble keeps its content unchanged |
| Grouping.NotesByEmptyIff | main.py:135-140 | a user has notes exactly when the user wrote one |
| Grouping.NotesByUser | main.py:135-140 | keys are the note authors in first-seen order; each value is the user's contents in fetch order |
| Dicts.Put | lib.py:184-186 | assignment keeps the key order, appends a new key, and changes only that key's value |
| Dicts.Without | lib.py:347 | removing a key leaves exactly the other keys, and no more of them |
| Dicts.Pop | lib.py:347 | `pop` returns the key's value and the dict without it |
| Dicts.Gather | lib.py:225 | gathering succeeds exactly when every call succeeds, with the results in order |
| Dicts.Zip | lib.py:226 | zipping keys with results gives a dict with the same keys mapped to those results |
| Dicts.CallsAllSucceed | lib.py:222-225 | gathering the calls succeeds exactly when the service succeeds on every value |
| Dicts.ZipCalls | lib.py:222-228 | the zipped results map each key to the service applied to its value |
| Dicts.FanOut | lib.py:215-228 | applying a service to every value keeps the keys and order; it fails exactly when one call fails |
| Dicts.FanOutIdentity | src.py:147-153 | applying a service that returns its input gives back the same dict |
| Sorting.InsertDesc | lib.py:271 | inserting keeps the multiset of elements, plus the new one |
| Sorting.SortDesc | lib.py:271 | `sorted(..., reverse=True)` gives a permutation of its input |
| Sorting.SortDescSorted | lib.py:271 | the sorted list is descending by the key |
| Sorting.SortDescStable | lib.py:271 | elements with equal keys keep their relative order (Python's sort is stable) |
| Sorting.SortedSlice | lib.py:271 | any slice of a descending list is descending |
| Ranking.ComputeUserSimilarity | lib.py:257-273 | one entry per user; descending by similarity; each entry is the user's similarity to the query; ties keep the dict's order |
| Ranking.SortedScoredMembers | lib.py:264-271 | the ranking holds exactly each user's score |
| Ranking.SortedScoredStable | lib.py:271 | the ranking keeps the dict order among equal similarities |
| Ranking.RankedUsers | lib.py:264-273 | the ranked users are exactly the embedded users |
| Ranking.EmbeddedStep | lib.py:243-249 | each embedding that succeeds extends the built prefix by one key |
| Ranking.EmbeddedAll | lib.py:243-249 | a dict built by embedding every summary equals the fan-out of the embedding service |
| Ranking.EmbedUserSummaries | src.py:164-174 | the embeddings are the service applied to every summary in key order; fails exactly when one call fails |
| Ranking.SummarizeUserContent | bubbl.ai.py:79-85 | the stubbed summarizer hands back the user-to-text dict unchanged |
| Pipeline.StagesOutcome | lib.py:342-346 | grouping, summarizing and embedding succeed exactly when every author's text can be summarized and embedded, and then give each author's vector |
| Pipeline.ProfileIsUsers | lib.py:337 | the profile query returns only the user's own bubbles |
| Pipeline.CandidatesExcludeUser | lib.py:340 | the candidate query returns no bubble of the user |
| Pipeline.AuthorsAppend | lib.py:341 | the authors of the two result lists together are those of either |
| Pipeline.PerformSimilaritySearchUsersByProfile | lib.py:326-349 | NoProfile exactly when the profile is empty and NoCandidates exactly when only the candidates are; a service failure exactly when some author's text cannot be embedded; KeyError exactly when the user is missing; success exactly when none of these holds; on success, descending, one entry per other author, each scored against the user's vector |
| Pipeline.RankedAreCandidateAuthors | lib.py:343-348 | with a non-empty profile, the ranked users are exactly the candidates' authors |
| Profile.ProfileFilterMeaning | src.py:76-79 | the profile filter admits exactly the user-prefix and category-prefix matches |
| Profile.QueryUserProfile | src.py:63-128 | None exactly on a store failure; otherwise the profile names the user, `total_bubbles` counts its entries, and there are at most `top_k` |
| Profile.ProfileEntriesAdmitted | src.py:76-115 | every profile entry comes from a stored object that the filter admits |
| Profile.ProfileEmptyIff | src.py:106-125 | `total_bubbles` is 0 exactly when no stored object is admitted or the limit is 0 |
| Profile.ProfilePrefixMatch | src.py:76 | the `like` filter is a prefix match: the profile of "ann" includes a bubble by "anna" |
| Profile.CategorySlot | src.py:257 | the integer lands in the category as its decimal text; only 0 becomes the empty string |
| Profile.SrcCandidates | src.py:38-61 | at most `k` candidates |
| Profile.SrcCandidatesExcludeUser | src.py:38-61 | no candidate is by the user |
| Profile.PerformSimilaritySearchUsersByProfileSrc | src.py:253-267 | a missing profile raises TypeError; an empty profile gives `[]`; after that a candidate-query failure is an error; ServiceFailure exactly when the profile or some candidate author's text cannot be embedded; otherwise a descending ranking with one entry per candidate author, never the user, each scored against the profile's embedding |
| Profile.TopKUserLandsInCategory | src.py:257 | with `top_k_user = 5`, the profile query filters on category prefix "5" |
| Gateway.DuplicateProbe | lib.py:284-289 | the probe finds a stored object exactly when one has the same user and content |
| Gateway.FirstDuplicate | lib.py:283-291 | the first bubble of the batch that duplicates a stored one, or none exactly when none does |
| Gateway.InsertBubbles | lib.py:275-298 | a stored duplicate raises DuplicateBubbleError and nothing is inserted; a store failure is DatabaseError; otherwise the batch is appended and its ids returned |
| Gateway.InsertOne | app.py:285-286 | a one-bubble insert: duplicate, then failure, then the one new id |
| Gateway.InsertRefusedIff | lib.py:284-291 | a batch is refused as a duplicate exactly when one of its bubbles duplicates a stored one |
| Gateway.InsertKeepsPairsUnique | lib.py:284-295 | with a batch free of internal repeats, accepted inserts keep (user, content) unique in the store |
| Gateway.BatchDuplicatesAccepted | lib.py:284-291 | a batch that repeats a post within itself is accepted, since only stored bubbles are probed |
| Gateway.RemoveEffect | lib.py:319 | deletion removes exactly the objects with that id |
| Gateway.RemoveAbsent | src.py:228 | deleting an absent id changes nothing |
| Gateway.LookupFinds | lib.py:305 | a stored object is found by its id |
| Gateway.RemoveOnlyOwn | lib.py:308-324 | removal succeeds exactly when the bubble exists, belongs to the user, and the store does not fail |
| Gateway.RemoveAbsentAsWritten | lib.py:300-306 | as written, an absent id raises AttributeError instead of BubbleNotFoundError |
| Gateway.RemoveAsWrittenAgreesWhenPresent | lib.py:300-317 | when the bubble exists, the as-written removal and the corrected removal agree |
| Gateway.GetBubbleAsWritten | lib.py:300-306 | an absent id fails with AttributeError; otherwise the object and whether the user owns it |
| Gateway.GetBubble | lib.py:300-306 | the object when it exists, and permission exactly when the user owns it |
| Gateway.RemoveBubbleAsWritten | lib.py:308-324 | the store changes exactly on a successful as-written removal |
| Gateway.RemoveBubble | lib.py:308-324 | the store changes exactly on a successful removal, by removing that id |
| Gateway.RemoveBubbleLoose | src.py:217-233 | `src.py`'s removal: refuses another user's bubble, reports True after deleting, None on failure |
| Gateway.LooseRemoveOfAbsent | src.py:222-230 | removing an absent id reports success and changes nothing, where `lib.py` raises BubbleNotFound |
| Gateway.LooseRefusalIsOwnership | src.py:223-225 | False is answered exactly when the bubble exists and belongs to someone else |
| Gateway.ConfirmedIff | lib.py:465 | the confirmation passes exactly when it lowercases to "yes" |
| Gateway.ConfirmationOrDefault | src.py:379 | a missing confirmation defaults to "no", which does not confirm |
| Gateway.RemoveAllBubbles | lib.py:461-467 | True exactly when confirmed and both the delete and the re-creation work; the bubbles are gone whenever confirmed and the delete works, even if the re-creation then fails |
| Gateway.RemoveAllBubblesInteractive | bubbl.ai.py:263-288 | the console strips and lowercases the answer before comparing with "yes"; the bubbles are gone whenever it confirms and the delete works |
| Gateway.StripMattersForConfirmation | bubbl.ai.py:267-269 | " Yes " confirms at the console but not through `Handler` |
| Registry.Dispatch | src.py:335-420 | the accepted action is the one requested by name |
| Registry.DispatchByName | src.py:335-418 | every action is reached by its own name |
| Registry.DispatchRejectsUnknown | src.py:419-420 | ValueError exactly when the name is no action's name |
| Registry.RegisterThenLogin | src.py:394-417 | a newly registered user logs in with that password and no other |
| Registry.RegisterNeverOverwrites | src.py:394-401 | registering a taken name leaves every login unchanged |
| Registry.MissingPasswordsMatch | src.py:397-415 | a user registered without a password logs in without one |
| Registry.DeregisterUndoesRegister | src.py:403-409 | the intended deregistration undoes a registration |
| Registry.UserTable.constructor | src.py:396 | the table holds the caller's dict |
| Registry.UserTable.Register | src.py:394-401 | a new name is added and the dict returned; a taken name changes nothing and gives None |
| Registry.UserTable.Login | src.py:411-417 | True exactly when the user is registered with that password |
| Registry.UserTable.DeregisterAsWritten | src.py:403-409 | as written, every deregistration raises UnboundLocalError and deletes nothing |
| Registry.UserTable.Deregister | src.py:403-409 | a registered user is deleted and the dict returned; otherwise None |
| Registry.DeregisterAfterRegister | src.py:394-409 | after registering "ann", the as-written deregistration fails while the intended one empties the table |
| WebApp.HandlePagination | app.py:100-103 | offset defaults to 0 and limit to the given default, both when the argument is absent and when it is not an int; a parseable argument overrides each |
| WebApp.OverrideOptions | app.py:223-226 | keys and order are kept; each option given in the query string is converted to its default's type; the others keep their defaults |
| WebApp.FalseFlagIsTrue | app.py:226 | `bool("False")` is True |
| WebApp.ProbeFindsIff | app.py:238-247 | the one-element probe finds something exactly when the store works and more matches exist past the page |
| WebApp.ProbeMatchesNextPage | app.py:238-247 | with a positive page size, the probe is non-empty exactly when the next page is |
| WebApp.HasMore | app.py:238-247 | `has_more` holds exactly when more matches exist after this page and the store works |
| WebApp.SliceBound | app.py:251 | a Python slice bound is clamped into the list |
| WebApp.PySlice | app.py:251 | a slice is no longer than the list |
| WebApp.SliceIsPage | app.py:251 | a slice with non-negative bounds is the page at that offset |
| WebApp.RankShown | app.py:249-251 | a slice is shown exactly when a ranking is cached, and is no longer than it |
| WebApp.RankShownIsPage | app.py:249-251 | with a non-negative offset, the shown ranking is the page |
| WebApp.NegativeOffsetCountsFromEnd | app.py:251 | a negative offset counts from the end of the ranking |
| WebApp.HasMoreRank | app.py:253-255 | with no cached ranking or an empty one, the flag keeps its prior value |
| WebApp.HasMoreRankIff | app.py:253-255 | with a cached non-empty ranking and a positive page size, the flag is true exactly when the next window is non-empty |
| WebApp.CreateBubble | app.py:277-293 | blank content creates nothing; otherwise the stripped content is inserted as the user's bubble unless a duplicate or failure refuses it |
| WebApp.CreateOutcomeCases | app.py:279-292 | blank content, then duplicate, then failure, then the new id |
| WebApp.BlankContentRefused | app.py:279-282 | content of whitespace only is refused as empty |
| WebApp.AdminIsLoggedIn | app.py:106-123 | whoever passes the admin check also passes the login check |
| WebApp.RegisterThenLogIn | app.py:154-166 | a newly registered user whose password checks logs in as that user |
| WebApp.AdminNameCanBeRegistered | app.py:154-171 | as written, registering the admin name with one's own password and logging in passes the admin check |
| WebApp.ReservedStaysReserved | app.py:154-161 | when the admin name is reserved, no request registers it |
| WebApp.ReservedAdminNeedsPassword | app.py:162-171 | when reserved, the admin session is only reached with the admin password |
| WebApp.Site.constructor | app.py:149 | the site starts with the loaded users and no session |
| WebApp.IndexDecision | app.py:147-174 | registration happens exactly for a new name, any name; "taken" exactly for a stored name; a user login exactly when the name is stored and the password checks; an admin login exactly when the user login fails and the admin's credentials are given; a failed login exactly when neither works |
| WebApp.IndexDecisionReserved | app.py:154-161 | the corrected decision: registration exactly for a new name other than the admin's, and "taken" exactly for a stored name or the admin's; every other action decides as written |
| WebApp.Site.Index | app.py:147-174 | the login page as written: its decision, the users it saves and the session it sets |
| WebApp.Site.IndexReserved | app.py:154-171 | the corrected login page: registering the admin's name is refused, and everything else is as written |
| WebApp.AdminTakeover | app.py:154-171 | on a site, registering "admin" with one's own password and then logging in reaches the admin session as written, and gets no session with the name reserved |
| NotesApi.ValidateQuery | main.py:113-124 | every failure is a missing or malformed query |
| NotesApi.ValidateQueryIff | main.py:113-124 | accepted exactly for a non-empty string, wrapped in a list, or a non-empty list of strings, kept as is |
| NotesApi.MixedListRefused | main.py:123-124 | a list with any non-string is refused |
| NotesApi.Limit | main.py:114 | the limit defaults to 1000 and is otherwise passed through |
| NotesApi.Status | main.py:117-124 | 400 exactly for a missing or malformed query; 500 for the rest |
| NotesApi.QueryNotes | main.py:103-146 | an error gives its status; otherwise the fetched notes grouped by user in first-seen order, each user's contents in fetch order |
| NotesApi.QueryTextIgnored | main.py:126-132 | the concepts do not reach the fetch: any two valid queries give the same notes |
| NotesApi.EmptyBodyAnswers500 | main.py:113-146 | as written, an empty body is a missing query answered with 500 |
| NotesApi.ClientFaultsAre400 | main.py:117-124 | with the intended statuses, 400 exactly when validation fails |
| NotesApi.SummarizeUserOpinions | main.py:148-161 | None exactly when the completion call fails; otherwise exactly the completion's text stripped of leading and trailing whitespace, so it neither starts nor ends with whitespace and is no longer than the completion |
| NotesApi.OpinionsPromptLength | main.py:152-157 | the prompt holds every note once, separated by single spaces |
| NotesApi.OpinionsPromptSnoc | main.py:152-157 | one more note is appended after one space |
| Console.CollectedByUser | bubbl.ai.py:195-215 | every collected bubble has the session's username, and no collected content is `exit` |
| Console.CollectedPairs | bubbl.ai.py:199-215 | the k-th bubble is the k-th content/category answer pair |
| Console.CollectStep | bubbl.ai.py:199-215 | one pair of answers moves into the collected bubbles |
| Console.ExitFirstCollectsNothing | bubbl.ai.py:199-205 | `exit` in any case first collects nothing |
| Console.WriteMode | bubbl.ai.py:191-230 | the session ends in end of input, nothing to insert, a failure, or the batch's new ids; the store grows by the batch only on success |
| Console.InsertBubblesFromJson | bubbl.ai.py:232-258 | an unreadable file and an empty list insert nothing; otherwise the list is inserted in one batch unless the store fails |
| Text.JoinLength | lib.py:186 | the joined text's length is the parts' lengths plus the separators |
| Text.StripEmptyIff | app.py:279-281 | a stripped text is empty exactly when it is whitespace only |
| Text.LowerEqualsWord | lib.py:465 | lowercasing equals a lowercase word exactly when each letter matches in either case |

## Left out

- The vector database is a sequence of objects. Connection and client
  set-up, schema creation (`create_bubble_schema`), the `near_text`
  vector index and `bubble_add_time` are not modelled. Relevance is an
  uninterpreted function; creation time is the insertion counter.
- Summarization, embedding and completion (OpenAI), cosine similarity and
  bcrypt are function parameters. Their arithmetic, floating point, and
  bcrypt's random salt are not modelled.
- `asyncio.gather` runs the calls concurrently; the model applies them
  in key order. The results agree because `gather` keeps that order.
- Logging and all printing are left out.
- `app.py`'s Flask routing, `flash`, templates and `users.json` reading
  and writing are left out. The session is a field of `Site`.
- `home`'s search, rank and remove redirects are left out, beyond the
  paging, ranking slice and bubble creation that are modelled. The
  `admin` page (`app.py:176-201`) is left out too.
- `WebApp.HasMore`: the page limit and offset are `nat`. A negative value
  from the query string is not modelled.
- `Query.PerformQuery`: limit and offset are `nat`. Negative values are
  undefined in the database and are not modelled.
- `WebApp.OverrideOptions`: a query-string value that does not convert
  becomes None, and `home`'s later arithmetic on it is not modelled.
- `NotesApi.QueryNotes`: a body that is not JSON at all is not modelled.
  Every non-object body becomes the `NotAnObject` error. The fetch is a
  parameter that takes the limit.
- `Gateway.InsertBubbles`: the duplicate probe runs outside the `try`
  (`lib.py:284-291`). If the probe raises, the raw exception propagates,
  and it is neither DuplicateBubbleError nor DatabaseError. The model has
  no such error: its `fault` stands only for `insert_many` raising.
- `Store.ContentStore.InsertMany`: a batch is inserted whole or not at
  all. A partial `insert_many` that stores some objects before raising is
  not modelled.
- `Gateway.RemoveBubble`, `Gateway.RemoveBubbleAsWritten`,
  `Gateway.GetBubble`: a failure of `fetch_object_by_id` itself
  (`lib.py:305`) propagates uncaught, and it is not modelled. Only the
  delete may fail.
- `Profile.PerformSimilaritySearchUsersByProfileSrc`: `src.py:259-264`
  hands the profile's `bubbles`, a list of dicts, to the embedding call
  unchanged. The embedding service does not take such a list, so in
  practice this call fails. The model keeps the call as the parameter
  `embedProfile`, which may fail, and does not decide its outcome.
- `Console.WriteMode`: the answers to `input()` are a finite sequence, and
  EOF is running out of answers.
- `Console.InsertBubblesFromJson`: a JSON file that parses to something
  other than a list of bubbles is not modelled separately.
- `Text.Lower`: only ASCII letters are case-folded. `Text.Strip` removes
  the same whitespace as Python's `str.isspace`.
- `lib.py`'s `insert_bubbles_from_json` (`lib.py:399-414`) is not
  modelled. It adds the objects through a dynamic batch, has no
  empty-data guard, and answers True or None. The import that is
  modelled is the console's (`Console.InsertBubblesFromJson`).
- `src.py`'s `search_bubbles` and `search_users_by_query` branches
  forward to functions outside this model. `Registry.Dispatch` models
  only the choice of branch.
- `cli.py` and `wv.py` are not part of this model. Neither is the
  commented-out code at the end of `main.py`, nor `main.py`'s
  `create_note` and schema check.

## Findings

| source | as written | input that shows it | evidently intended | confidence | as-written member | corrected member |
|---|---|---|---|---|---|---|
| lib.py:300-306 | `get_bubble` reads `.properties` of the lookup result before `remove_bubble` checks it for None | an empty store and any uuid | raise BubbleNotFoundError for an absent bubble | high, not executed | Gateway.RemoveAbsentAsWritten | Gateway.RemoveOnlyOwn |
| src.py:403-409 | `deregister_user` tests `user_name`, which `handle_action` binds only in its `query_user_profile` branch, so it raises UnboundLocalError | register "ann", then deregister "ann" | delete a registered `user` and return the dict | high, not executed | Registry.DeregisterAfterRegister | Registry.DeregisterUndoesRegister |
| main.py:113-146 | the 400 errors raised for a missing or malformed query are caught by the catch-all and re-raised as 500 | the body `{}` | answer 400 for the client's own faults | high, not executed | NotesApi.EmptyBodyAnswers500 | NotesApi.ClientFaultsAre400 |
| app.py:154-171 | registration accepts the admin username as an ordinary name; the new owner then logs in as that name and passes `admin_required` | admin "admin"/"secret"; register "admin" with password "mine", then log in with "mine" | reserve the admin name, so the admin session needs the admin password | medium (depends on the configured admin name), not executed | WebApp.AdminNameCanBeRegistered | WebApp.ReservedAdminNeedsPassword |

The site is modelled as written (`WebApp.Site.Index`). The corrected
login page is `WebApp.Site.IndexReserved`, and `WebApp.AdminTakeover`
runs the same two requests against both.
