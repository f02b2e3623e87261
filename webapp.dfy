/**
 * The decisions of the Flask front end (app.py): pagination parameters,
 * the option overrides, the has-more probe, the cached ranking's page
 * window, the empty-content check before creating a bubble, the
 * login/registration decisions of `index` and the two access guards.
 * Request arguments arrive as strings; `parseInt` stands for `int(s)`,
 * `hash` for bcrypt hashing and `check` for bcrypt's password check.
 */
module WebApp {
  import opened Wrappers
  import opened Text
  import opened Dicts
  import opened Store
  import opened Query
  import opened Gateway
  import opened Ranking

  /** `handle_pagination`: `offset` and `limit` from the arguments, 0 and `limit` when absent or not an int. */
  function HandlePagination(args: map<string, string>, parseInt: string -> Option<int>, limit: int := 5)
    : (r: (int, int))
    ensures "offset" !in args ==> r.1 == 0
    ensures "limit" !in args ==> r.0 == limit
    ensures "offset" in args && parseInt(args["offset"]).Some? ==> r.1 == parseInt(args["offset"]).value
    ensures "limit" in args && parseInt(args["limit"]).Some? ==> r.0 == parseInt(args["limit"]).value
    ensures "offset" in args && parseInt(args["offset"]).None? ==> r.1 == 0
    ensures "limit" in args && parseInt(args["limit"]).None? ==> r.0 == limit
  {
    var offset := if "offset" in args then parseInt(args["offset"]).GetOr(0) else 0;
    var newLimit := if "limit" in args then parseInt(args["limit"]).GetOr(limit) else limit;
    (newLimit, offset)
  }

  /** A value of the `options` dict of `home`. `NoValue` is the `None` a failed conversion leaves. */
  datatype OptionValue = IntValue(i: int) | StrValue(s: string) | BoolValue(b: bool) | NoValue

  /**
   * `request.args.get(key, type=type(current))`: the argument converted to
   * the type of the current value; a conversion that raises gives `None`.
   * `bool(s)` is true for every non-empty string.
   */
  function Convert(current: OptionValue, arg: string, parseInt: string -> Option<int>): OptionValue
  {
    match current
    case IntValue(_) => (match parseInt(arg) case Some(n) => IntValue(n) case None => NoValue)
    case StrValue(_) => StrValue(arg)
    case BoolValue(_) => BoolValue(arg != "")
    case NoValue => NoValue
  }

  /** The options of `home` after the overrides: each argument present replaces its option. */
  ghost predicate Overridden(options: Dict<OptionValue>, defaults: Dict<OptionValue>, args: map<string, string>,
                             parseInt: string -> Option<int>, n: nat)
    requires Valid(defaults) && n <= |defaults.keys|
  {
    Valid(options) && options.keys == defaults.keys &&
    forall k :: k in options.values ==>
      options.values[k] == if k in args && k in defaults.keys[..n] then Convert(defaults.values[k], args[k], parseInt)
                           else defaults.values[k]
  }

  /**
   * The loop of `home` that overrides the default options from the request
   * arguments: the keys and their order stay, an option without an argument
   * keeps its default.
   */
  method OverrideOptions(defaults: Dict<OptionValue>, args: map<string, string>, parseInt: string -> Option<int>)
    returns (options: Dict<OptionValue>)
    requires Valid(defaults)
    ensures Valid(options) && options.keys == defaults.keys
    ensures forall k :: k in options.values ==>
              options.values[k] == if k in args then Convert(defaults.values[k], args[k], parseInt) else defaults.values[k]
  {
    options := defaults;
    for i := 0 to |defaults.keys|
      invariant Overridden(options, defaults, args, parseInt, i)
    {
      var key := defaults.keys[i];
      assert defaults.keys[..i + 1] == defaults.keys[..i] + [key];
      assert key !in defaults.keys[..i];
      if key in args {
        options := Put(options, key, Convert(options.values[key], args[key], parseInt));
      }
    }
    assert defaults.keys[..|defaults.keys|] == defaults.keys;
  }

  /** A flag passed as "False" still reads as true. */
  lemma FalseFlagIsTrue(parseInt: string -> Option<int>)
    ensures Convert(BoolValue(true), "False", parseInt) == BoolValue(true)
  {
  }

  /** Whether the probe `home` sends finds anything: one bubble at `offset + limit`. */
  function ProbeFinds(objs: seq<StoredObject>, queryUser: string, queryText: string, queryCategory: string,
                      limit: nat, offset: nat, relevance: (string, string) -> real, fault: bool): bool
  {
    |BubblesOf(QueryResult(objs, queryUser, "", queryText, queryCategory, 1, offset + limit, relevance, fault))| > 0
  }

  /**
   * The has-more probe: there is a next page exactly when the store did not
   * fail and something matches beyond the current page.
   */
  lemma ProbeFindsIff(objs: seq<StoredObject>, queryUser: string, queryText: string, queryCategory: string,
                      limit: nat, offset: nat, relevance: (string, string) -> real, fault: bool)
    ensures ProbeFinds(objs, queryUser, queryText, queryCategory, limit, offset, relevance, fault) <==>
            !fault && offset + limit < |Matching(objs, queryUser, "", queryText, queryCategory, relevance)|
  {
    PageNonEmptyIff(Matching(objs, queryUser, "", queryText, queryCategory, relevance), 1, offset + limit);
  }

  /** With a positive page size, the probe finds something exactly when the next page is not empty. */
  lemma ProbeMatchesNextPage(objs: seq<StoredObject>, queryUser: string, queryText: string, queryCategory: string,
                             limit: nat, offset: nat, relevance: (string, string) -> real)
    requires limit > 0
    ensures ProbeFinds(objs, queryUser, queryText, queryCategory, limit, offset, relevance, false) <==>
            QueryResult(objs, queryUser, "", queryText, queryCategory, limit, offset + limit, relevance, false).value != []
  {
    ProbeFindsIff(objs, queryUser, queryText, queryCategory, limit, offset, relevance, false);
    PageNonEmptyIff(Matching(objs, queryUser, "", queryText, queryCategory, relevance), limit, offset + limit);
  }

  /** The has-more probe of `home`: a second query for one bubble just past the current page. */
  method HasMore(store: ContentStore, queryUser: string, queryText: string, queryCategory: string,
                 limit: nat, offset: nat, relevance: (string, string) -> real, fault: bool) returns (hasMore: bool)
    ensures hasMore <==> !fault && offset + limit < |Matching(store.records, queryUser, "", queryText, queryCategory, relevance)|
  {
    var nextOffset := offset + limit;
    var probe := QueryMostRelevantBubbles(store, "", queryUser, queryText, queryCategory, 1, nextOffset, relevance, fault);
    hasMore := |probe| > 0;
    ProbeFindsIff(store.records, queryUser, queryText, queryCategory, limit, offset, relevance, fault);
  }

  /** A Python slice bound: negative counts from the end, then clipped to `[0, n]`. */
  function SliceBound(i: int, n: nat): (r: nat)
    ensures r <= n
  {
    if i < 0 then (if i + n < 0 then 0 else i + n) else if i > n then n else i
  }

  /** `xs[lo:hi]`. */
  function PySlice<T>(xs: seq<T>, lo: int, hi: int): (r: seq<T>)
    ensures |r| <= |xs|
  {
    var a, b := SliceBound(lo, |xs|), SliceBound(hi, |xs|);
    if a < b then xs[a..b] else []
  }

  /**
   * For non-negative bounds the slice is the page window: clipped at the
   * end and empty past it.
   */
  lemma SliceIsPage<T>(xs: seq<T>, offset: nat, limit: nat)
    ensures PySlice(xs, offset, offset + limit) == Page(xs, limit, offset)
  {
  }

  /** The shown part of the cached ranking: a window of it, and nothing when no ranking is cached. */
  function RankShown(cache: Option<seq<Ranked>>, offsetRank: int, limitUsers: int): (r: Option<seq<Ranked>>)
    ensures r.Some? <==> cache.Some?
    ensures r.Some? ==> |r.value| <= |cache.value|
  {
    match cache
    case None => None
    case Some(ranking) => Some(PySlice(ranking, offsetRank, offsetRank + limitUsers))
  }

  /** With non-negative parameters the shown ranking is the page `[offsetRank, offsetRank + limitUsers)`. */
  lemma RankShownIsPage(ranking: seq<Ranked>, offsetRank: nat, limitUsers: nat)
    ensures RankShown(Some(ranking), offsetRank, limitUsers) == Some(Page(ranking, limitUsers, offsetRank))
  {
    SliceIsPage(ranking, offsetRank, limitUsers);
  }

  /** A negative offset counts from the end of the ranking, as Python slicing does. */
  lemma NegativeOffsetCountsFromEnd(ranking: seq<Ranked>, k: nat, j: nat)
    requires 0 < j < k <= |ranking|
    ensures RankShown(Some(ranking), -(k as int), j) == Some(ranking[|ranking| - k..|ranking| - k + j])
  {
  }

  /** `has_more_rank`: recomputed only for a non-empty cached ranking, else left as it was. */
  function HasMoreRank(cache: Option<seq<Ranked>>, offsetRank: int, limitUsers: int, prior: bool): (r: bool)
    ensures cache.None? || cache.value == [] ==> r == prior
  {
    if cache.Some? && cache.value != [] then offsetRank + limitUsers < |cache.value| else prior
  }

  /** For a non-empty ranking and a positive page size, `has_more_rank` says the next window is not empty. */
  lemma HasMoreRankIff(ranking: seq<Ranked>, offsetRank: nat, limitUsers: nat, prior: bool)
    requires ranking != [] && limitUsers > 0
    ensures HasMoreRank(Some(ranking), offsetRank, limitUsers, prior) <==>
            RankShown(Some(ranking), offsetRank + limitUsers, limitUsers).value != []
  {
    RankShownIsPage(ranking, offsetRank + limitUsers, limitUsers);
    PageNonEmptyIff(ranking, limitUsers, offsetRank + limitUsers);
  }

  /** What happens to a `create_bubble` form. */
  datatype CreateOutcome = EmptyContent | Created(ids: seq<nat>) | Refused(error: GatewayError)

  /** The bubble a form makes: content and category stripped, the session's user as author. */
  function FormBubble(userName: string, content: string, category: Option<string>): Properties
  {
    Properties(Strip(content), userName, Strip(category.GetOr("")))
  }

  /** The outcome of a `create_bubble` form against the store's records. */
  function CreateOutcomeOf(objs: seq<StoredObject>, nextId: nat, userName: string, content: string,
                           category: Option<string>, fault: bool): CreateOutcome
  {
    if Strip(content) == "" then EmptyContent
    else match InsertOutcome(objs, nextId, [FormBubble(userName, content, category)], fault)
      case Success(ids) => Created(ids)
      case Failure(e) => Refused(e)
  }

  /**
   * The `create_bubble` branch of `home`: content and category are
   * stripped; empty content is refused before any store access, otherwise
   * the one bubble goes through the duplicate-checked insert.
   */
  method CreateBubble(store: ContentStore, userName: string, content: string, category: Option<string>, fault: bool)
    returns (outcome: CreateOutcome)
    requires store.Valid()
    modifies store
    ensures store.Valid()
    ensures outcome == CreateOutcomeOf(old(store.records), old(store.nextId), userName, content, category, fault)
    ensures store.records == if outcome.Created? then old(store.records) + Stamp([FormBubble(userName, content, category)], old(store.nextId))
                             else old(store.records)
  {
    var text := Strip(content);
    if text == "" {
      return EmptyContent;
    }
    var bubble := FormBubble(userName, content, category);
    var r := InsertBubbles(store, [bubble], fault);
    outcome := if r.Success? then Created(r.value) else Refused(r.error);
  }

  /**
   * Empty content never reaches the store; otherwise the stripped bubble
   * is refused when the author already posted that content, and gets the
   * next id when the store does not fail.
   */
  lemma CreateOutcomeCases(objs: seq<StoredObject>, nextId: nat, userName: string, content: string,
                           category: Option<string>, fault: bool)
    ensures Strip(content) == "" ==> CreateOutcomeOf(objs, nextId, userName, content, category, fault) == EmptyContent
    ensures Strip(content) != "" ==>
              CreateOutcomeOf(objs, nextId, userName, content, category, fault) ==
              if IsDuplicate(objs, FormBubble(userName, content, category)) then Refused(DuplicateBubble(Strip(content)))
              else if fault then Refused(Database) else Created([nextId])
  {
    InsertOne(objs, nextId, FormBubble(userName, content, category), fault);
  }

  /** Whitespace-only content is never stored. */
  lemma BlankContentRefused(content: string)
    requires forall i :: 0 <= i < |content| ==> IsSpace(content[i])
    ensures Strip(content) == ""
  {
    StripEmptyIff(content);
  }

  /** `login_required`: a user is in the session. */
  predicate LoginRequired(session: Option<string>)
  {
    session.Some?
  }

  /** `admin_required`: the session's user is the admin. */
  predicate AdminRequired(session: Option<string>, adminUsername: string)
  {
    session == Some(adminUsername)
  }

  /** Admin access implies a logged-in session. */
  lemma AdminIsLoggedIn(session: Option<string>, adminUsername: string)
    requires AdminRequired(session, adminUsername)
    ensures LoginRequired(session)
  {
  }

  /** What `index` does with a POSTed form. */
  datatype IndexOutcome = Registered | UsernameTaken | LoggedIn | AdminLoggedIn | LoginFailed | NoAction

  /** The decision of `index` as written: registration of any new name; login as a user first, then as the admin. */
  function IndexDecision(users: map<string, string>, action: string, username: string, password: string,
                         check: (string, string) -> bool, adminUsername: string, adminPassword: string)
    : (r: IndexOutcome)
    ensures r == Registered <==> action == "register" && username !in users
    ensures r == UsernameTaken <==> action == "register" && username in users
    ensures r == LoggedIn <==> action == "login" && username in users && check(password, users[username])
    ensures r == AdminLoggedIn <==> action == "login" && !(username in users && check(password, users[username])) &&
                                    username == adminUsername && password == adminPassword
    ensures r == LoginFailed <==> action == "login" && !(username in users && check(password, users[username])) &&
                                  !(username == adminUsername && password == adminPassword)
    ensures r == NoAction <==> action != "register" && action != "login"
  {
    if action == "register" then (if username !in users then Registered else UsernameTaken)
    else if action == "login" then
      if username in users && check(password, users[username]) then LoggedIn
      else if username == adminUsername && password == adminPassword then AdminLoggedIn
      else LoginFailed
    else NoAction
  }

  /** The decision with the admin's name reserved: it cannot be registered as an ordinary user. */
  function IndexDecisionReserved(users: map<string, string>, action: string, username: string, password: string,
                                 check: (string, string) -> bool, adminUsername: string, adminPassword: string)
    : (r: IndexOutcome)
    ensures r == Registered <==> action == "register" && username !in users && username != adminUsername
    ensures r == UsernameTaken <==> action == "register" && (username in users || username == adminUsername)
    ensures action != "register" ==> r == IndexDecision(users, action, username, password, check, adminUsername, adminPassword)
  {
    if action == "register" && username == adminUsername then UsernameTaken
    else IndexDecision(users, action, username, password, check, adminUsername, adminPassword)
  }

  /** The session user a login outcome leaves. */
  function SessionAfter(outcome: IndexOutcome, username: string, adminUsername: string, session: Option<string>)
    : Option<string>
  {
    match outcome
    case LoggedIn => Some(username)
    case AdminLoggedIn => Some(adminUsername)
    case _ => session
  }

  /** The stored users a registration outcome leaves. */
  function UsersAfter(outcome: IndexOutcome, users: map<string, string>, username: string, password: string,
                      hash: string -> string): map<string, string>
  {
    if outcome == Registered then users[username := hash(password)] else users
  }

  /** With a password check that accepts a password's own hash, registering then logging in succeeds. */
  lemma RegisterThenLogIn(users: map<string, string>, username: string, password: string, hash: string -> string,
                          check: (string, string) -> bool, adminUsername: string, adminPassword: string)
    requires username !in users && check(password, hash(password))
    ensures var users' := UsersAfter(IndexDecision(users, "register", username, password, check, adminUsername, adminPassword),
                                     users, username, password, hash);
            IndexDecision(users', "login", username, password, check, adminUsername, adminPassword) == LoggedIn &&
            forall u :: u in users ==> u in users' && users'[u] == users[u]
  {
  }

  /**
   * The counterexample: anybody can register the admin's name with a
   * password of their own, log in with it and pass `admin_required`
   * without knowing the admin password.
   */
  lemma AdminNameCanBeRegistered(hash: string -> string, check: (string, string) -> bool)
    requires forall p :: check(p, hash(p))
    ensures var users := UsersAfter(IndexDecision(map[], "register", "admin", "mine", check, "admin", "secret"),
                                    map[], "admin", "mine", hash);
            var outcome := IndexDecision(users, "login", "admin", "mine", check, "admin", "secret");
            AdminRequired(SessionAfter(outcome, "admin", "admin", None), "admin")
  {
    assert check("mine", hash("mine"));
  }

  /** The admin's name is never among the stored users. */
  predicate AdminReserved(users: map<string, string>, adminUsername: string)
  {
    adminUsername !in users
  }

  /** With the name reserved, a form never makes the admin's name a stored user. */
  lemma ReservedStaysReserved(users: map<string, string>, action: string, username: string, password: string,
                              hash: string -> string, check: (string, string) -> bool,
                              adminUsername: string, adminPassword: string)
    requires AdminReserved(users, adminUsername)
    ensures var outcome := IndexDecisionReserved(users, action, username, password, check, adminUsername, adminPassword);
            AdminReserved(UsersAfter(outcome, users, username, password, hash), adminUsername)
  {
  }

  /**
   * With the name reserved, a login that leaves an admin session from a
   * non-admin one used the admin password.
   */
  lemma ReservedAdminNeedsPassword(users: map<string, string>, username: string, password: string,
                                   check: (string, string) -> bool, adminUsername: string, adminPassword: string,
                                   session: Option<string>)
    requires AdminReserved(users, adminUsername) && !AdminRequired(session, adminUsername)
    ensures var outcome := IndexDecisionReserved(users, "login", username, password, check, adminUsername, adminPassword);
            AdminRequired(SessionAfter(outcome, username, adminUsername, session), adminUsername) ==>
            username == adminUsername && password == adminPassword
  {
  }

  /** The stored users (users.json) and the session of one browser. */
  class Site {
    var users: map<string, string>
    var session: Option<string>

    constructor (users0: map<string, string>)
      ensures users == users0 && session == None
    {
      users, session := users0, None;
    }

    /**
     * `index` on a POST: registration adds only a new name (the new user
     * is not logged in); login tries the stored users, then the admin's
     * credentials; a failure leaves the session untouched. Any new name
     * can be registered, the admin's included.
     */
    method Index(action: string, username: string, password: string, hash: string -> string,
                 check: (string, string) -> bool, adminUsername: string, adminPassword: string)
      returns (outcome: IndexOutcome)
      modifies this
      ensures outcome == IndexDecision(old(users), action, username, password, check, adminUsername, adminPassword)
      ensures users == UsersAfter(outcome, old(users), username, password, hash)
      ensures session == SessionAfter(outcome, username, adminUsername, old(session))
    {
      if action == "register" {
        if username !in users {
          users := users[username := hash(password)];
          outcome := Registered;
        } else {
          outcome := UsernameTaken;
        }
      } else if action == "login" {
        if username in users && check(password, users[username]) {
          session := Some(username);
          outcome := LoggedIn;
        } else if username == adminUsername && password == adminPassword {
          session := Some(adminUsername);
          outcome := AdminLoggedIn;
        } else {
          outcome := LoginFailed;
        }
      } else {
        outcome := NoAction;
      }
    }

    /**
     * `index` as evidently intended: the same, except that the admin's
     * name is reserved and cannot be registered.
     */
    method IndexReserved(action: string, username: string, password: string, hash: string -> string,
                         check: (string, string) -> bool, adminUsername: string, adminPassword: string)
      returns (outcome: IndexOutcome)
      modifies this
      ensures outcome == IndexDecisionReserved(old(users), action, username, password, check, adminUsername, adminPassword)
      ensures users == UsersAfter(outcome, old(users), username, password, hash)
      ensures session == SessionAfter(outcome, username, adminUsername, old(session))
    {
      if action == "register" && username == adminUsername {
        return UsernameTaken;
      }
      outcome := Index(action, username, password, hash, check, adminUsername, adminPassword);
    }
  }

  /**
   * The counterexample on a site: register the admin's name with one's own
   * password, then log in with it. As written the session passes
   * `admin_required`; with the name reserved the registration is refused
   * and the same login fails.
   */
  method AdminTakeover(hash: string -> string, check: (string, string) -> bool)
    returns (asWritten: Option<string>, reserved: Option<string>)
    requires forall p :: check(p, hash(p))
    ensures AdminRequired(asWritten, "admin")
    ensures reserved == None
  {
    var site := new Site(map[]);
    var _ := site.Index("register", "admin", "mine", hash, check, "admin", "secret");
    assert check("mine", hash("mine"));
    var _ := site.Index("login", "admin", "mine", hash, check, "admin", "secret");
    asWritten := site.session;
    var guarded := new Site(map[]);
    var _ := guarded.IndexReserved("register", "admin", "mine", hash, check, "admin", "secret");
    var _ := guarded.IndexReserved("login", "admin", "mine", hash, check, "admin", "secret");
    reserved := guarded.session;
  }
}
