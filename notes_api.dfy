/**
 * The FastAPI notes service (main.py): the validation of a `/query`
 * request, the grouping of the fetched notes by user, the status code an
 * error ends in, and the space join `summarize_user_opinions` applies
 * before summarizing. The store's fetch and the completion service are
 * parameters.
 */
module NotesApi {
  import opened Wrappers
  import opened Text
  import opened Dicts
  import opened Grouping

  /** A decoded JSON value. */
  datatype Json =
    | JNull
    | JBool(b: bool)
    | JInt(i: int)
    | JStr(s: string)
    | JList(items: seq<Json>)
    | JObject(fields: map<string, Json>)

  /** Python truthiness of a decoded value: `None`, `False`, `0` and empty containers are false. */
  predicate Truthy(j: Json)
  {
    match j
    case JNull => false
    case JBool(b) => b
    case JInt(i) => i != 0
    case JStr(s) => s != ""
    case JList(items) => items != []
    case JObject(fields) => fields != map[]
  }

  /** `data.get(key, default)` on a decoded object. */
  function Get(fields: map<string, Json>, key: string, default: Json): Json
  {
    if key in fields then fields[key] else default
  }

  /** Every item is a string. */
  predicate AllStrings(items: seq<Json>)
  {
    forall i :: 0 <= i < |items| ==> items[i].JStr?
  }

  /** The strings of a list of strings. */
  function Strings(items: seq<Json>): (r: seq<string>)
    requires AllStrings(items)
    ensures |r| == |items| && forall i :: 0 <= i < |items| ==> items[i] == JStr(r[i])
  {
    seq(|items|, i requires 0 <= i < |items| => items[i].s)
  }

  /** Why a `/query` request fails. */
  datatype NotesError =
    | NotAnObject    // the body is not a JSON object, so `data.get` raises
    | MissingQuery   // `query` absent or falsy
    | BadQuery       // `query` neither a string nor a list of strings
    | StoreError     // the fetch raised

  /** The validation of `query`: required, a string wrapped into a list, or a list of strings. */
  function ValidateQuery(fields: map<string, Json>): (r: Result<seq<string>, NotesError>)
    ensures r.Failure? ==> r.error == MissingQuery || r.error == BadQuery
  {
    var query := Get(fields, "query", JNull);
    if !Truthy(query) then Failure(MissingQuery)
    else match query
      case JStr(s) => Success([s])
      case JList(items) => if AllStrings(items) then Success(Strings(items)) else Failure(BadQuery)
      case _ => Failure(BadQuery)
  }

  /**
   * The query is accepted exactly when it is a non-empty string, wrapped
   * into a one-element list, or a non-empty list of strings, passed as is.
   */
  lemma ValidateQueryIff(fields: map<string, Json>, concepts: seq<string>)
    ensures ValidateQuery(fields) == Success(concepts) <==>
            "query" in fields &&
            ((|concepts| == 1 && concepts[0] != "" && fields["query"] == JStr(concepts[0])) ||
             (fields["query"] == JList(seq(|concepts|, i requires 0 <= i < |concepts| => JStr(concepts[i]))) && concepts != []))
  {
    if "query" in fields && fields["query"].JList? {
      var items := fields["query"].items;
      var wrapped := seq(|concepts|, i requires 0 <= i < |concepts| => JStr(concepts[i]));
      if ValidateQuery(fields) == Success(concepts) {
        assert Strings(items) == concepts;
        assert |items| == |wrapped|;
        assert forall i :: 0 <= i < |items| ==> items[i] == wrapped[i];
        assert items == wrapped;
      }
      if items == wrapped && concepts != [] {
        assert items[0] in items;
        assert AllStrings(items);
        assert Strings(items) == concepts;
      }
    }
    if |concepts| == 1 {
      assert concepts == [concepts[0]];
    }
  }

  /** A list holding anything but strings is refused, even when it holds strings too. */
  lemma MixedListRefused(fields: map<string, Json>, items: seq<Json>, k: nat)
    requires "query" in fields && fields["query"] == JList(items)
    requires k < |items| && !items[k].JStr?
    ensures ValidateQuery(fields) == Failure(BadQuery)
  {
  }

  /** `data.get("limit", 1000)`: whatever the body holds, 1000 when absent. */
  function Limit(fields: map<string, Json>): (r: Json)
    ensures "limit" !in fields ==> r == JInt(1000)
    ensures "limit" in fields ==> r == fields["limit"]
  {
    Get(fields, "limit", JInt(1000))
  }

  /**
   * What a `/query` request computes: the validation, then the fetch with
   * the limit, then the grouping. The fetch takes the limit only: the
   * relevance search on the concepts is not part of the request.
   */
  function QueryOutcome(body: Json, fetch: Json -> Option<seq<Note>>): Result<seq<Note>, NotesError>
  {
    match body
    case JObject(fields) =>
      (match ValidateQuery(fields)
       case Failure(e) => Failure(e)
       case Success(_) =>
         match fetch(Limit(fields))
         case None => Failure(StoreError)
         case Some(notes) => Success(notes))
    case _ => Failure(NotAnObject)
  }

  /** An HTTP answer: the grouped notes, or an error status with its cause. */
  datatype Response = Grouped(notesByUser: Dict<seq<string>>) | HttpError(status: int, cause: NotesError)

  /** The status an error ends in as written: the catch-all turns every error, the 400s included, into a 500. */
  function StatusAsWritten(e: NotesError): int
  {
    500
  }

  /** The status an error evidently should end in: the request's own faults are a 400. */
  function Status(e: NotesError): (r: int)
    ensures r == 400 <==> e == MissingQuery || e == BadQuery
    ensures r == 500 <==> e == NotAnObject || e == StoreError
  {
    match e
    case MissingQuery => 400
    case BadQuery => 400
    case _ => 500
  }

  /**
   * `query_notes`: validate, fetch, and group the fetched notes by
   * `user_id` in a loop, each user's contents in fetch order.
   * `asWritten` selects the status mapping of the code as written.
   */
  method QueryNotes(body: Json, fetch: Json -> Option<seq<Note>>, asWritten: bool) returns (resp: Response)
    ensures QueryOutcome(body, fetch).Failure? ==>
              var e := QueryOutcome(body, fetch).error;
              resp == HttpError(if asWritten then StatusAsWritten(e) else Status(e), e)
    ensures QueryOutcome(body, fetch).Success? ==>
              var notes := QueryOutcome(body, fetch).value;
              && resp.Grouped?
              && Valid(resp.notesByUser)
              && resp.notesByUser.keys == FirstSeen(NoteAuthors(notes))
              && forall u :: u in resp.notesByUser.values ==> resp.notesByUser.values[u] == NotesBy(notes, u)
  {
    var outcome := QueryOutcome(body, fetch);
    if outcome.Failure? {
      var status := if asWritten then StatusAsWritten(outcome.error) else Status(outcome.error);
      return HttpError(status, outcome.error);
    }
    var grouped := NotesByUser(outcome.value);
    resp := Grouped(grouped);
  }

  /** The concepts do not reach the fetch: two valid queries with the same limit get the same notes. */
  lemma QueryTextIgnored(fields: map<string, Json>, other: Json, fetch: Json -> Option<seq<Note>>)
    requires ValidateQuery(fields).Success?
    requires ValidateQuery(fields["query" := other]).Success?
    ensures QueryOutcome(JObject(fields), fetch) == QueryOutcome(JObject(fields["query" := other]), fetch)
  {
    assert Limit(fields["query" := other]) == Limit(fields);
  }

  /** The counterexample: an empty body is the client's fault, yet the code as written answers 500. */
  lemma EmptyBodyAnswers500(fetch: Json -> Option<seq<Note>>)
    ensures QueryOutcome(JObject(map[]), fetch) == Failure(MissingQuery)
    ensures StatusAsWritten(MissingQuery) == 500 && Status(MissingQuery) == 400
  {
  }

  /** With the intended statuses, a request fails with 400 exactly when its query is missing or malformed. */
  lemma ClientFaultsAre400(fields: map<string, Json>, fetch: Json -> Option<seq<Note>>)
    ensures QueryOutcome(JObject(fields), fetch).Failure? && Status(QueryOutcome(JObject(fields), fetch).error) == 400
            <==> ValidateQuery(fields).Failure?
  {
  }

  /** The prompt prefix `summarize_user_opinions` sends. */
  const OpinionsPrompt := "Summarize these opinions: "

  /** The prompt `summarize_user_opinions` sends: the prefix, then the notes joined by single spaces. */
  function Prompt(notes: seq<string>): string
  {
    OpinionsPrompt + Join(" ", notes)
  }

  /**
   * `summarize_user_opinions`: the prompt is completed and the answer
   * stripped; a failing completion call is `None`.
   */
  function SummarizeUserOpinions(notes: seq<string>, complete: string -> Option<string>): (r: Option<string>)
    ensures r.None? <==> complete(Prompt(notes)).None?
    ensures r.Some? ==> r.value == Strip(complete(Prompt(notes)).value)
    ensures r.Some? && r.value != [] ==> !IsSpace(r.value[0]) && !IsSpace(r.value[|r.value| - 1])
    ensures r.Some? ==> |r.value| <= |complete(Prompt(notes)).value|
  {
    match complete(Prompt(notes))
    case None => None
    case Some(text) => Some(Strip(text))
  }

  /** The prompt holds every note, in order, one space apart: its length is the notes' plus the separators. */
  lemma OpinionsPromptLength(notes: seq<string>)
    ensures |Prompt(notes)| == |OpinionsPrompt| + TotalLength(notes) + if notes == [] then 0 else |notes| - 1
  {
    JoinLength(" ", notes);
  }

  /** A further note is appended after one space. */
  lemma OpinionsPromptSnoc(notes: seq<string>, note: string)
    requires notes != []
    ensures Prompt(notes + [note]) == Prompt(notes) + " " + note
  {
    JoinSnoc(" ", notes, note);
  }
}
