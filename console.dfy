/**
 * The interactive console (bubbl.ai.py): the write mode that collects
 * bubbles from successive answers and inserts them at once, and the
 * empty-file guard of the JSON import. The answers to `input()` are a
 * sequence of lines; running out of them is Python's EOFError.
 */
module Console {
  import opened Wrappers
  import opened Text
  import opened Store

  /** The bubbles the answers after the username describe, up to the `exit`; none when the answers run out first. */
  function Collected(rest: seq<string>, user: string): Option<seq<Properties>>
    decreases |rest|
  {
    if rest == [] then None
    else if Lower(rest[0]) == "exit" then Some([])
    else if |rest| == 1 then None
    else match Collected(rest[2..], user)
      case None => None
      case Some(more) => Some([Properties(rest[0], user, rest[1])] + more)
  }

  /** Every collected bubble is written by the one username and has a content that is not `exit`. */
  lemma {:induction false} CollectedByUser(rest: seq<string>, user: string)
    requires Collected(rest, user).Some?
    ensures forall b :: b in Collected(rest, user).value ==> b.user == user && Lower(b.content) != "exit"
    decreases |rest|
  {
    if rest != [] && Lower(rest[0]) != "exit" {
      CollectedByUser(rest[2..], user);
    }
  }

  /**
   * The k-th collected bubble is the k-th content/category pair of the
   * answers, and no earlier content is `exit`.
   */
  lemma {:induction false} CollectedPairs(rest: seq<string>, user: string, k: nat)
    requires Collected(rest, user).Some? && k < |Collected(rest, user).value|
    ensures 2 * k + 1 < |rest|
    ensures Collected(rest, user).value[k] == Properties(rest[2 * k], user, rest[2 * k + 1])
    decreases |rest|
  {
    if k > 0 {
      CollectedPairs(rest[2..], user, k - 1);
    }
  }

  /** `rest` after the bubbles already collected. */
  function Prefixed(bubbles: seq<Properties>, rest: Option<seq<Properties>>): Option<seq<Properties>>
  {
    match rest
    case None => None
    case Some(more) => Some(bubbles + more)
  }

  /** One content/category pair moves from the unread answers to the collected bubbles. */
  lemma CollectStep(answers: seq<string>, i: nat, user: string, bubbles: seq<Properties>)
    requires i + 1 < |answers| && Lower(answers[i]) != "exit"
    ensures Prefixed(bubbles, Collected(answers[i..], user)) ==
            Prefixed(bubbles + [Properties(answers[i], user, answers[i + 1])], Collected(answers[i + 2..], user))
  {
    assert answers[i..][2..] == answers[i + 2..];
    var p := Properties(answers[i], user, answers[i + 1]);
    match Collected(answers[i + 2..], user)
    case None =>
    case Some(more) =>
      assert bubbles + ([p] + more) == bubbles + [p] + more;
  }

  /** An answer of `exit` in any case ends the collection, with nothing collected when it comes first. */
  lemma ExitFirstCollectsNothing(rest: seq<string>, user: string)
    requires rest != [] && Lower(rest[0]) == "exit"
    ensures Collected(rest, user) == Some([])
  {
  }

  /** How a write-mode session ends. */
  datatype WriteOutcome =
    | EndOfInput            // `input()` raised EOFError
    | NothingToInsert       // `exit` before any bubble
    | Inserted(ids: seq<nat>)
    | InsertFailed          // `insert_many` raised

  /** The outcome a session with these answers has against a store with the given next id. */
  function WriteOutcomeOf(answers: seq<string>, nextId: nat, fault: bool): WriteOutcome
  {
    if answers == [] then EndOfInput
    else match Collected(answers[1..], answers[0])
      case None => EndOfInput
      case Some(bubbles) =>
        if bubbles == [] then NothingToInsert
        else if fault then InsertFailed
        else Inserted(Ids(Stamp(bubbles, nextId)))
  }

  /**
   * `insert_bubbles`' write mode: the first answer is the username, then
   * contents and categories alternate until a content that lowercases to
   * `exit`; the collected bubbles are inserted in one batch, and nothing
   * is inserted when none were collected.
   */
  method WriteMode(store: ContentStore, answers: seq<string>, fault: bool) returns (outcome: WriteOutcome)
    requires store.Valid()
    modifies store
    ensures store.Valid()
    ensures outcome == WriteOutcomeOf(answers, old(store.nextId), fault)
    ensures store.records == if outcome.Inserted? then old(store.records) + Stamp(Collected(answers[1..], answers[0]).value, old(store.nextId))
                             else old(store.records)
  {
    if |answers| == 0 {
      return EndOfInput;
    }
    var user := answers[0];
    var bubbles: seq<Properties> := [];
    var i := 1;
    assert Prefixed([], Collected(answers[1..], user)) == Collected(answers[1..], user) by {
      if Collected(answers[1..], user).Some? {
        assert [] + Collected(answers[1..], user).value == Collected(answers[1..], user).value;
      }
    }
    while true
      invariant 1 <= i <= |answers|
      invariant unchanged(store)
      invariant Collected(answers[1..], user) == Prefixed(bubbles, Collected(answers[i..], user))
      decreases |answers| - i
    {
      if i == |answers| {
        return EndOfInput;
      }
      var content := answers[i];
      if Lower(content) == "exit" {
        assert Collected(answers[1..], user) == Some(bubbles + []);
        assert bubbles + [] == bubbles;
        if |bubbles| == 0 {
          return NothingToInsert;
        }
        var ids := store.InsertMany(bubbles, fault);
        if ids.None? {
          return InsertFailed;
        }
        return Inserted(ids.value);
      }
      if i + 1 >= |answers| {
        return EndOfInput;
      }
      var category := answers[i + 1];
      CollectStep(answers, i, user, bubbles);
      bubbles := bubbles + [Properties(content, user, category)];
      i := i + 2;
    }
  }

  /** How an import from a JSON file ends. */
  datatype ImportOutcome = FileError | EmptyFile | Imported(ids: seq<nat>) | ImportFailed

  /**
   * `insert_bubbles_from_json`: `parsed` is the file's bubbles, `None`
   * when it is missing or not JSON. An empty file inserts nothing; any
   * other list is inserted in one batch, and a failure is reported.
   */
  method InsertBubblesFromJson(store: ContentStore, parsed: Option<seq<Properties>>, fault: bool)
    returns (outcome: ImportOutcome)
    requires store.Valid()
    modifies store
    ensures store.Valid()
    ensures parsed.None? ==> outcome == FileError
    ensures parsed == Some([]) ==> outcome == EmptyFile
    ensures parsed.Some? && parsed.value != [] ==>
              outcome == if fault then ImportFailed else Imported(Ids(Stamp(parsed.value, old(store.nextId))))
    ensures store.records == if outcome.Imported? then old(store.records) + Stamp(parsed.value, old(store.nextId))
                             else old(store.records)
  {
    if parsed.None? {
      return FileError;
    }
    var bubbles := parsed.value;
    if |bubbles| == 0 {
      return EmptyFile;
    }
    var ids := store.InsertMany(bubbles, fault);
    outcome := if ids.None? then ImportFailed else Imported(ids.value);
  }
}
