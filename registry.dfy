/**
 * src.py's `handle_action`: the dispatch on the action name and the three
 * account actions that work on the caller's `users` dict in place
 * (`register_user`, `deregister_user`, `login_user`). A password is
 * `kwargs.get('password')`, so it may be absent (`None`).
 */
module Registry {
  import opened Wrappers

  /** The actions `handle_action` knows. */
  datatype Action =
    | InsertBubbles | RemoveBubble | SearchBubbles | SearchUsersByProfile | SearchUsersByQuery
    | QueryUserProfile | RemoveAllBubbles | InsertBubblesFromJson | CreateBubbleSchema
    | RegisterUser | DeregisterUser | LoginUser

  /** The name each action is requested by. */
  function ActionName(a: Action): string
  {
    match a
    case InsertBubbles => "insert_bubbles"
    case RemoveBubble => "remove_bubble"
    case SearchBubbles => "search_bubbles"
    case SearchUsersByProfile => "search_users_by_profile"
    case SearchUsersByQuery => "search_users_by_query"
    case QueryUserProfile => "query_user_profile"
    case RemoveAllBubbles => "remove_all_bubbles"
    case InsertBubblesFromJson => "insert_bubbles_from_json"
    case CreateBubbleSchema => "create_bubble_schema"
    case RegisterUser => "register_user"
    case DeregisterUser => "deregister_user"
    case LoginUser => "login_user"
  }

  /** Python's `ValueError("Invalid action specified.")`. */
  datatype DispatchError = ValueError

  /** The `if`/`elif` chain of `handle_action`: the first branch whose name matches, else ValueError. */
  function Dispatch(action: string): (r: Result<Action, DispatchError>)
    ensures r.Success? ==> ActionName(r.value) == action
  {
    if action == "insert_bubbles" then Success(InsertBubbles)
    else if action == "remove_bubble" then Success(RemoveBubble)
    else if action == "search_bubbles" then Success(SearchBubbles)
    else if action == "search_users_by_profile" then Success(SearchUsersByProfile)
    else if action == "search_users_by_query" then Success(SearchUsersByQuery)
    else if action == "query_user_profile" then Success(QueryUserProfile)
    else if action == "remove_all_bubbles" then Success(RemoveAllBubbles)
    else if action == "insert_bubbles_from_json" then Success(InsertBubblesFromJson)
    else if action == "create_bubble_schema" then Success(CreateBubbleSchema)
    else if action == "register_user" then Success(RegisterUser)
    else if action == "deregister_user" then Success(DeregisterUser)
    else if action == "login_user" then Success(LoginUser)
    else Failure(ValueError)
  }

  /** Every action is reached by its own name, so no branch shadows another. */
  lemma DispatchByName(a: Action)
    ensures Dispatch(ActionName(a)) == Success(a)
  {
  }

  /** A name is accepted exactly when it is the name of an action; anything else raises ValueError. */
  lemma DispatchRejectsUnknown(action: string)
    ensures Dispatch(action) == Failure(ValueError) <==> forall a: Action :: ActionName(a) != action
  {
    if Dispatch(action).Success? {
      assert ActionName(Dispatch(action).value) == action;
    } else {
      forall a: Action
        ensures ActionName(a) != action
      {
        DispatchByName(a);
      }
    }
  }

  /** What `deregister_user` raises as written. */
  datatype AccountError = UnboundLocalError

  /** The answer `register_user` gives and the dict it leaves. */
  function Registered(users: map<string, Option<string>>, user: string, password: Option<string>)
    : (map<string, Option<string>>, Option<map<string, Option<string>>>)
  {
    if user !in users then (users[user := password], Some(users[user := password])) else (users, None)
  }

  /** `login_user`: the user is registered and the given password equals the stored one. */
  predicate LoginAccepted(users: map<string, Option<string>>, user: string, password: Option<string>)
  {
    user in users && password == users[user]
  }

  /** The answer `deregister_user` would give without the unbound name, and the dict it leaves. */
  function Deregistered(users: map<string, Option<string>>, user: string)
    : (map<string, Option<string>>, Option<map<string, Option<string>>>)
  {
    if user in users then (users - {user}, Some(users - {user})) else (users, None)
  }

  /** A user registered with a password can log in with it, and not with another one. */
  lemma RegisterThenLogin(users: map<string, Option<string>>, user: string, password: Option<string>,
                          attempt: Option<string>)
    requires user !in users
    ensures LoginAccepted(Registered(users, user, password).0, user, attempt) <==> attempt == password
  {
  }

  /** Registering an existing name changes no password, so its owner's login is unaffected. */
  lemma RegisterNeverOverwrites(users: map<string, Option<string>>, user: string, password: Option<string>,
                                other: string, attempt: Option<string>)
    requires other in users
    ensures LoginAccepted(Registered(users, user, password).0, other, attempt) <==> LoginAccepted(users, other, attempt)
  {
    assert other != user || user in users;
  }

  /** A user registered without a password logs in without one: `None == None`. */
  lemma MissingPasswordsMatch(users: map<string, Option<string>>, user: string)
    requires user !in users
    ensures LoginAccepted(Registered(users, user, None).0, user, None)
  {
  }

  /** Deregistering a user just registered restores the dict. */
  lemma DeregisterUndoesRegister(users: map<string, Option<string>>, user: string, password: Option<string>)
    requires user !in users
    ensures Deregistered(Registered(users, user, password).0, user) == (users, Some(users))
  {
    assert users[user := password] - {user} == users;
  }

  /** The `users` dict a caller passes to `handle_action` and that the account actions update in place. */
  class UserTable {
    var users: map<string, Option<string>>

    constructor (initial: map<string, Option<string>>)
      ensures users == initial
    {
      users := initial;
    }

    /** `register_user`: a new name is added and the dict returned; a taken name changes nothing. */
    method Register(user: string, password: Option<string>) returns (r: Option<map<string, Option<string>>>)
      modifies this
      ensures (users, r) == Registered(old(users), user, password)
    {
      if user !in users {
        users := users[user := password];
        return Some(users);
      }
      r := None;
    }

    /** `login_user`. */
    method Login(user: string, password: Option<string>) returns (ok: bool)
      ensures ok <==> LoginAccepted(users, user, password)
    {
      ok := user in users && password == users[user];
    }

    /**
     * `deregister_user` as written: its guard reads `user_name`, which
     * `handle_action` assigns only in its `query_user_profile` branch, so the
     * lookup raises UnboundLocalError on every call and nothing is deleted.
     */
    method DeregisterAsWritten(user: string) returns (r: Result<Option<map<string, Option<string>>>, AccountError>)
      ensures r == Failure(UnboundLocalError)
      ensures users == old(users)
    {
      r := Failure(UnboundLocalError);
    }

    /** `deregister_user` as evidently intended: a registered user is deleted and the dict returned. */
    method Deregister(user: string) returns (r: Option<map<string, Option<string>>>)
      modifies this
      ensures (users, r) == Deregistered(old(users), user)
    {
      if user in users {
        users := users - {user};
        return Some(users);
      }
      r := None;
    }
  }

  /** The counterexample: register a user, then deregister it; the code as written fails and keeps the user. */
  method DeregisterAfterRegister() returns (asWritten: Result<Option<map<string, Option<string>>>, AccountError>,
                                            intended: Option<map<string, Option<string>>>)
    ensures asWritten == Failure(UnboundLocalError)
    ensures intended == Some(map[])
  {
    var table := new UserTable(map[]);
    var _ := table.Register("ann", Some("pw"));
    asWritten := table.DeregisterAsWritten("ann");
    assert "ann" in table.users;
    intended := table.Deregister("ann");
    assert table.users == map[];
  }
}
