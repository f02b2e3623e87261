/**
 * The mutation gateway: the duplicate-checked batch insert and the
 * ownership-checked delete of lib.py, the looser delete of src.py, and the
 * confirmation gates in front of dropping the whole collection.
 * `fault` stands for an exception the store raises on the write itself.
 */
module Gateway {
  import opened Wrappers
  import opened Text
  import opened Store

  /** The exceptions the gateway raises. */
  datatype GatewayError =
    | DuplicateBubble(content: string)  // DuplicateBubbleError, naming the content
    | BubbleNotFound                    // BubbleNotFoundError
    | InvalidUser                       // InvalidUserError
    | Database                          // DatabaseError
    | AttributeError                    // Python's own error for an attribute of None

  /** A stored object already holds this author and this content. */
  predicate IsDuplicate(objs: seq<StoredObject>, p: Properties)
  {
    exists o :: o in objs && o.props.user == p.user && o.props.content == p.content
  }

  /** The probe `insert_bubbles` sends for one bubble: same user and same content. */
  function DuplicateFilter(p: Properties): Filter
  {
    [UserEqual(p.user), ContentEqual(p.content)]
  }

  /** The probe finds something exactly when the bubble duplicates a stored one. */
  lemma DuplicateProbe(objs: seq<StoredObject>, p: Properties)
    ensures Select(objs, (o: StoredObject) => Satisfies(o.props, DuplicateFilter(p))) != [] <==> IsDuplicate(objs, p)
  {
    var keep := (o: StoredObject) => Satisfies(o.props, DuplicateFilter(p));
    var found := Select(objs, keep);
    if found != [] {
      assert found[0] in found;
      assert Holds(found[0].props, UserEqual(p.user)) && Holds(found[0].props, ContentEqual(p.content));
    }
    if IsDuplicate(objs, p) {
      var o :| o in objs && o.props.user == p.user && o.props.content == p.content;
      SelectComplete(objs, keep, o);
    }
  }

  /** The position of the first batch element that duplicates a stored object. */
  function FirstDuplicate(objs: seq<StoredObject>, batch: seq<Properties>): (r: Option<nat>)
    ensures r.Some? ==> r.value < |batch| && IsDuplicate(objs, batch[r.value]) &&
                        forall j :: 0 <= j < r.value ==> !IsDuplicate(objs, batch[j])
    ensures r.None? <==> forall j :: 0 <= j < |batch| ==> !IsDuplicate(objs, batch[j])
    decreases |batch|
  {
    if batch == [] then None
    else match FirstDuplicate(objs, batch[..|batch| - 1])
      case Some(i) => Some(i)
      case None => if IsDuplicate(objs, batch[|batch| - 1]) then Some(|batch| - 1) else None
  }

  /**
   * What lib.py's `insert_bubbles` answers: the first duplicate's error,
   * else a database error when the bulk insert fails, else the fresh ids.
   */
  function InsertOutcome(objs: seq<StoredObject>, nextId: nat, batch: seq<Properties>, fault: bool)
    : Result<seq<nat>, GatewayError>
  {
    match FirstDuplicate(objs, batch)
    case Some(i) => Failure(DuplicateBubble(batch[i].content))
    case None => if fault then Failure(Database) else Success(Ids(Stamp(batch, nextId)))
  }

  /**
   * lib.py's `insert_bubbles`: every bubble is probed before anything is
   * written; the first duplicate aborts with nothing inserted, and a
   * failing bulk insert leaves the store as it was.
   */
  method InsertBubbles(store: ContentStore, bubbles: seq<Properties>, fault: bool)
    returns (r: Result<seq<nat>, GatewayError>)
    requires store.Valid()
    modifies store
    ensures store.Valid()
    ensures r == InsertOutcome(old(store.records), old(store.nextId), bubbles, fault)
    ensures store.records == if r.Success? then old(store.records) + Stamp(bubbles, old(store.nextId))
                             else old(store.records)
  {
    for i := 0 to |bubbles|
      invariant unchanged(store)
      invariant forall j :: 0 <= j < i ==> !IsDuplicate(store.records, bubbles[j])
    {
      var result := Select(store.records, (o: StoredObject) => Satisfies(o.props, DuplicateFilter(bubbles[i])));
      DuplicateProbe(store.records, bubbles[i]);
      if result != [] {
        assert FirstDuplicate(store.records, bubbles) == Some(i);
        return Failure(DuplicateBubble(bubbles[i].content));
      }
    }
    var ids := store.InsertMany(bubbles, fault);
    if ids.None? {
      return Failure(Database);
    }
    r := Success(ids.value);
  }

  /** A one-bubble insert: refused when that bubble is stored, else it gets the next id unless the store fails. */
  lemma InsertOne(objs: seq<StoredObject>, nextId: nat, b: Properties, fault: bool)
    ensures InsertOutcome(objs, nextId, [b], fault) ==
            if IsDuplicate(objs, b) then Failure(DuplicateBubble(b.content))
            else if fault then Failure(Database) else Success([nextId])
  {
    assert [b][0] == b;
    if IsDuplicate(objs, b) {
      assert FirstDuplicate(objs, [b]) == Some(0);
    } else {
      assert FirstDuplicate(objs, [b]) == None;
      assert Ids(Stamp([b], nextId)) == [nextId];
    }
  }

  /** An insert is refused as a duplicate exactly when some bubble of the batch is already stored. */
  lemma InsertRefusedIff(objs: seq<StoredObject>, nextId: nat, batch: seq<Properties>, fault: bool)
    ensures InsertOutcome(objs, nextId, batch, fault).Failure? &&
            InsertOutcome(objs, nextId, batch, fault).error.DuplicateBubble? <==>
            exists i :: 0 <= i < |batch| && IsDuplicate(objs, batch[i])
  {
    if exists i :: 0 <= i < |batch| && IsDuplicate(objs, batch[i]) {
      assert FirstDuplicate(objs, batch).Some?;
    }
  }

  /** No two stored objects share both author and content. */
  predicate PairsUnique(objs: seq<StoredObject>)
  {
    forall i, j :: 0 <= i < j < |objs| ==>
      objs[i].props.user != objs[j].props.user || objs[i].props.content != objs[j].props.content
  }

  /** No two bubbles of a batch share both author and content. */
  predicate BatchPairsUnique(batch: seq<Properties>)
  {
    forall i, j :: 0 <= i < j < |batch| ==> batch[i].user != batch[j].user || batch[i].content != batch[j].content
  }

  /**
   * The duplicate check keeps author and content unique across the store,
   * provided the batch itself holds no two equal bubbles: the check only
   * compares the batch against what is already stored.
   */
  lemma InsertKeepsPairsUnique(objs: seq<StoredObject>, nextId: nat, batch: seq<Properties>)
    requires PairsUnique(objs) && BatchPairsUnique(batch)
    requires InsertOutcome(objs, nextId, batch, false).Success?
    ensures PairsUnique(objs + Stamp(batch, nextId))
  {
    var added := Stamp(batch, nextId);
    var all := objs + added;
    assert FirstDuplicate(objs, batch).None?;
    forall i, j | 0 <= i < j < |all|
      ensures all[i].props.user != all[j].props.user || all[i].props.content != all[j].props.content
    {
      if j >= |objs| {
        assert all[j] == added[j - |objs|];
        assert !IsDuplicate(objs, batch[j - |objs|]);
        if i < |objs| {
          assert all[i] == objs[i] && objs[i] in objs;
        } else {
          assert all[i] == added[i - |objs|];
        }
      } else {
        assert all[i] == objs[i] && all[j] == objs[j];
      }
    }
  }

  /**
   * Duplicates inside one batch are not detected: two equal bubbles sent
   * together into an empty store are both inserted.
   */
  lemma BatchDuplicatesAccepted()
    ensures var p := Properties("same post", "ann", "misc");
            InsertOutcome([], 0, [p, p], false) == Success([0, 1]) && !PairsUnique(Stamp([p, p], 0))
  {
    var p := Properties("same post", "ann", "misc");
    assert FirstDuplicate([], [p, p]).None?;
    assert Ids(Stamp([p, p], 0)) == [0, 1];
    var stored := Stamp([p, p], 0);
    assert stored[0].props == stored[1].props;
  }

  /** The stored objects after deleting `uuid`: all others, and only those. */
  lemma RemoveEffect(objs: seq<StoredObject>, uuid: nat)
    ensures forall o :: o in Remove(objs, uuid) <==> o in objs && o.uuid != uuid
    ensures Lookup(Remove(objs, uuid), uuid).None?
  {
    forall o | o in objs && o.uuid != uuid
      ensures o in Remove(objs, uuid)
    {
      SelectComplete(objs, (o: StoredObject) => o.uuid != uuid, o);
    }
  }

  /** Deleting an id no object carries changes nothing. */
  lemma {:induction false} RemoveAbsent(objs: seq<StoredObject>, uuid: nat)
    requires Lookup(objs, uuid).None?
    ensures Remove(objs, uuid) == objs
  {
    if objs != [] {
      RemoveAbsent(objs[1..], uuid);
      assert objs == [objs[0]] + objs[1..];
    }
  }

  /**
   * The intended answer of lib.py's `remove_bubble`: not found, not the
   * owner's, a failing delete, or success.
   */
  function RemoveOutcome(objs: seq<StoredObject>, user: string, uuid: nat, fault: bool): Result<bool, GatewayError>
  {
    match Lookup(objs, uuid)
    case None => Failure(BubbleNotFound)
    case Some(o) =>
      if o.props.user != user then Failure(InvalidUser)
      else if fault then Failure(Database)
      else Success(true)
  }

  /**
   * lib.py's `remove_bubble` as written: `get_bubble` reads the owner of
   * what the lookup returned before anyone checks it, so an absent id
   * raises AttributeError and the not-found branch is never reached.
   */
  function RemoveOutcomeAsWritten(objs: seq<StoredObject>, user: string, uuid: nat, fault: bool)
    : Result<bool, GatewayError>
  {
    if Lookup(objs, uuid).None? then Failure(AttributeError) else RemoveOutcome(objs, user, uuid, fault)
  }

  /** In a store with increasing ids, the lookup of a stored object's id finds that object. */
  lemma {:induction false} LookupFinds(objs: seq<StoredObject>, o: StoredObject)
    requires IdsIncreasing(objs) && o in objs
    ensures Lookup(objs, o.uuid) == Some(o)
  {
    if objs[0] != o {
      var k :| 0 <= k < |objs| && objs[k] == o;
      assert objs[0].uuid < o.uuid;
      assert objs[1..][k - 1] == o;
      LookupFinds(objs[1..], o);
    }
  }

  /**
   * In a valid store the removal succeeds exactly for a stored bubble its
   * caller owns, and only then is anything deleted.
   */
  lemma RemoveOnlyOwn(objs: seq<StoredObject>, user: string, uuid: nat, fault: bool)
    requires IdsIncreasing(objs)
    ensures RemoveOutcome(objs, user, uuid, fault).Success? <==>
            !fault && exists o :: o in objs && o.uuid == uuid && o.props.user == user
  {
    if exists o :: o in objs && o.uuid == uuid && o.props.user == user {
      var o :| o in objs && o.uuid == uuid && o.props.user == user;
      LookupFinds(objs, o);
    }
  }

  /** The counterexample: an empty store and any id give AttributeError instead of BubbleNotFoundError. */
  lemma RemoveAbsentAsWritten(user: string, uuid: nat, fault: bool)
    ensures RemoveOutcomeAsWritten([], user, uuid, fault) == Failure(AttributeError)
    ensures RemoveOutcome([], user, uuid, fault) == Failure(BubbleNotFound)
  {
  }

  /** For a stored bubble the code as written and the corrected one answer alike. */
  lemma RemoveAsWrittenAgreesWhenPresent(objs: seq<StoredObject>, user: string, uuid: nat, fault: bool)
    requires exists o :: o in objs && o.uuid == uuid
    ensures RemoveOutcomeAsWritten(objs, user, uuid, fault) == RemoveOutcome(objs, user, uuid, fault)
  {
    var o :| o in objs && o.uuid == uuid;
    assert Lookup(objs, uuid).Some?;
  }

  /**
   * `get_bubble` as written: the lookup's result and whether `user` owns
   * it; reading the owner of a missing object raises AttributeError.
   */
  method GetBubbleAsWritten(store: ContentStore, user: string, uuid: nat)
    returns (r: Result<(StoredObject, bool), GatewayError>)
    ensures r.Failure? <==> forall o :: o in store.records ==> o.uuid != uuid
    ensures r.Failure? ==> r.error == AttributeError
    ensures r.Success? ==> r.value.0 in store.records && r.value.0.uuid == uuid && (r.value.1 <==> r.value.0.props.user == user)
  {
    var oldBubble := Lookup(store.records, uuid);
    if oldBubble.None? {
      return Failure(AttributeError);
    }
    r := Success((oldBubble.value, oldBubble.value.props.user == user));
  }

  /** `get_bubble` corrected: a missing object is reported as such and carries no permission. */
  method GetBubble(store: ContentStore, user: string, uuid: nat) returns (oldBubble: Option<StoredObject>, permission: bool)
    ensures oldBubble.None? <==> forall o :: o in store.records ==> o.uuid != uuid
    ensures oldBubble.Some? ==> oldBubble.value in store.records && oldBubble.value.uuid == uuid
    ensures permission <==> oldBubble.Some? && oldBubble.value.props.user == user
  {
    oldBubble := Lookup(store.records, uuid);
    permission := oldBubble.Some? && oldBubble.value.props.user == user;
  }

  /** lib.py's `remove_bubble` as written, over `get_bubble` as written. */
  method RemoveBubbleAsWritten(store: ContentStore, user: string, uuid: nat, fault: bool)
    returns (r: Result<bool, GatewayError>)
    requires store.Valid()
    modifies store
    ensures store.Valid()
    ensures r == RemoveOutcomeAsWritten(old(store.records), user, uuid, fault)
    ensures store.records == if r.Success? then Remove(old(store.records), uuid) else old(store.records)
  {
    var got := GetBubbleAsWritten(store, user, uuid);
    if got.Failure? {
      return Failure(got.error);
    }
    var (oldBubble, permission) := got.value;
    if !permission {
      return Failure(InvalidUser);
    }
    var ok := store.DeleteById(uuid, fault);
    if !ok {
      return Failure(Database);
    }
    r := Success(true);
  }

  /**
   * lib.py's `remove_bubble`, corrected: refusals raise BubbleNotFoundError
   * or InvalidUserError and leave the store unchanged; otherwise the bubble
   * is deleted and the answer is `True`.
   */
  method RemoveBubble(store: ContentStore, user: string, uuid: nat, fault: bool) returns (r: Result<bool, GatewayError>)
    requires store.Valid()
    modifies store
    ensures store.Valid()
    ensures r == RemoveOutcome(old(store.records), user, uuid, fault)
    ensures store.records == if r.Success? then Remove(old(store.records), uuid) else old(store.records)
  {
    var oldBubble, permission := GetBubble(store, user, uuid);
    if oldBubble.None? {
      return Failure(BubbleNotFound);
    }
    if !permission {
      return Failure(InvalidUser);
    }
    var ok := store.DeleteById(uuid, fault);
    if !ok {
      return Failure(Database);
    }
    r := Success(true);
  }

  /**
   * What src.py's `remove_bubble` answers: `False` for a bubble another
   * user owns, else the delete is attempted, even for an id nothing
   * carries: `True` when it goes through, `None` when it raises.
   */
  function RemoveLooseOutcome(objs: seq<StoredObject>, user: string, uuid: nat, fault: bool): Option<bool>
  {
    if Lookup(objs, uuid).Some? && Lookup(objs, uuid).value.props.user != user then Some(false)
    else if fault then None
    else Some(true)
  }

  /** src.py's `remove_bubble`. */
  method RemoveBubbleLoose(store: ContentStore, user: string, uuid: nat, fault: bool) returns (r: Option<bool>)
    requires store.Valid()
    modifies store
    ensures store.Valid()
    ensures r == RemoveLooseOutcome(old(store.records), user, uuid, fault)
    ensures store.records == if r == Some(true) then Remove(old(store.records), uuid) else old(store.records)
  {
    var oldBubble := Lookup(store.records, uuid);
    if oldBubble.Some? && oldBubble.value.props.user != user {
      return Some(false);
    }
    var ok := store.DeleteById(uuid, fault);
    if !ok {
      return None;
    }
    r := Some(true);
  }

  /**
   * The looser delete reports success for an id nothing carries, and the
   * store is left exactly as it was; the lib.py one raises instead.
   */
  lemma LooseRemoveOfAbsent(objs: seq<StoredObject>, user: string, uuid: nat)
    requires forall o :: o in objs ==> o.uuid != uuid
    ensures RemoveLooseOutcome(objs, user, uuid, false) == Some(true)
    ensures Remove(objs, uuid) == objs
    ensures RemoveOutcome(objs, user, uuid, false) == Failure(BubbleNotFound)
  {
    RemoveAbsent(objs, uuid);
  }

  /** The looser delete refuses exactly where the lib.py one refuses another user's bubble. */
  lemma LooseRefusalIsOwnership(objs: seq<StoredObject>, user: string, uuid: nat, fault: bool)
    ensures RemoveLooseOutcome(objs, user, uuid, fault) == Some(false) <==>
            RemoveOutcome(objs, user, uuid, fault) == Failure(InvalidUser)
  {
  }

  /** The confirmation `remove_all_bubbles` asks for: the answer lower-cases to "yes". */
  predicate Confirmed(confirmation: string)
  {
    Lower(confirmation) == "yes"
  }

  /** "yes" in any mix of cases, and nothing else, confirms. */
  lemma ConfirmedIff(confirmation: string)
    ensures Confirmed(confirmation) <==>
            |confirmation| == 3 && confirmation[0] in "yY" && confirmation[1] in "eE" && confirmation[2] in "sS"
  {
    LowerEqualsWord(confirmation, "yes");
    if |confirmation| == 3 {
      assert UpperChar('y') == 'Y' && UpperChar('e') == 'E' && UpperChar('s') == 'S';
    }
  }

  /** The answer `kwargs.get('confirmation', 'no')` yields: a missing answer is "no". */
  function ConfirmationOrDefault(confirmation: Option<string>): (r: string)
    ensures confirmation.None? ==> !Confirmed(r)
    ensures confirmation.Some? ==> r == confirmation.value
  {
    confirmation.GetOr("no")
  }

  /**
   * `Handler.remove_all_bubbles` of lib.py and the `remove_all_bubbles`
   * action of src.py: the collection is dropped and re-created only after a
   * confirmation; a store error is reported as `False`, and when it is the
   * re-creation that raises, the bubbles are already gone.
   */
  method RemoveAllBubbles(store: ContentStore, confirmation: string, fault: WipeFault) returns (ok: bool)
    requires store.Valid()
    modifies store
    ensures store.Valid() && store.nextId == old(store.nextId)
    ensures ok <==> Confirmed(confirmation) && fault == NoWipeFault
    ensures store.records == if Confirmed(confirmation) && fault != DeleteFails then [] else old(store.records)
  {
    if Lower(confirmation) == "yes" {
      ok := store.DeleteAll(fault);
    } else {
      ok := false;
    }
  }

  /**
   * `remove_all_bubbles` of bubbl.ai.py: the typed answer is stripped and
   * lower-cased first; errors are printed, nothing is returned.
   */
  method RemoveAllBubblesInteractive(store: ContentStore, answer: string, fault: WipeFault)
    requires store.Valid()
    modifies store
    ensures store.Valid() && store.nextId == old(store.nextId)
    ensures store.records == if Confirmed(Strip(answer)) && fault != DeleteFails then [] else old(store.records)
  {
    var confirmation := Lower(Strip(answer));
    if confirmation == "yes" {
      var _ := store.DeleteAll(fault);
    }
  }

  /** A padded answer confirms the interactive gate but not the other two. */
  lemma StripMattersForConfirmation()
    ensures Confirmed(Strip(" Yes ")) && !Confirmed(" Yes ")
  {
    StripPadded();
    LowerCapitalized();
    assert |Lower(" Yes ")| == 5;
  }

  lemma StripPadded()
    ensures Strip(" Yes ") == "Yes"
  {
    LStripPadded();
    RStripPadded();
  }

  lemma LStripPadded()
    ensures LStrip(" Yes ") == "Yes "
  {
    var s := " Yes ";
    assert IsSpace(s[0]);
    assert s[1..] == "Yes ";
    assert !IsSpace(s[1]);
  }

  lemma RStripPadded()
    ensures RStrip("Yes ") == "Yes"
  {
    var s := "Yes ";
    assert IsSpace(s[3]);
    assert s[..3] == "Yes";
    assert !IsSpace(s[2]);
  }


  lemma LowerCapitalized()
    ensures Lower("Yes") == "yes"
  {
    var lowered := Lower("Yes");
    assert lowered[0] == 'y' && lowered[1] == 'e' && lowered[2] == 's';
  }


}
