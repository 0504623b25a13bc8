/** The pure parts of the frontend's API client (api.ts): the request headers, the decision on a
    response's status, and the conversion of the backend's notes into the UI's. */
module Api {

  import opened Wrappers
  import opened Sequences

  /** A subject as the backend returns it. */
  datatype Subject = Subject(id: int, title: string, userId: int)

  /** A note as the pages use it. */
  datatype Note = Note(id: int, title: string, description: string, subjectId: int)

  /** A note as the backend returns it; its `content` may be missing (`null`). */
  datatype BackendNote = BackendNote(id: int, title: string, content: Option<string>, subjectId: int)

  /** HTTP headers, by name. */
  type Headers = map<string, string>

  const JsonContentType := "application/json"
  const BearerPrefix := "Bearer "

  /** `getAuthHeaders()` with the stored token passed in (`localStorage.getItem("token")`): the
      JSON content type always, and a bearer authorization whenever the token is present and not
      empty (a truthy string). */
  function AuthHeaders(token: Option<string>): (r: Headers)
    ensures "Content-Type" in r && r["Content-Type"] == JsonContentType
    ensures "Authorization" in r <==> token.Some? && token.value != ""
    ensures "Authorization" in r ==> r["Authorization"] == BearerPrefix + token.value
    ensures r.Keys <= {"Content-Type", "Authorization"}
  {
    var base := map["Content-Type" := JsonContentType];
    if token.Some? && token.value != "" then base["Authorization" := BearerPrefix + token.value] else base
  }

  /** The token a server reads back from the headers. */
  function BearerToken(h: Headers): Option<string>
  {
    if "Authorization" in h && |h["Authorization"]| >= |BearerPrefix| then Some(h["Authorization"][|BearerPrefix|..])
    else None
  }

  /** The headers carry exactly the stored token, unless it is empty. */
  lemma AuthHeadersCarryToken(token: Option<string>)
    ensures BearerToken(AuthHeaders(token)) == if token.Some? && token.value != "" then token else None
  {
    if token.Some? && token.value != "" {
      var h := AuthHeaders(token);
      assert h["Authorization"][|BearerPrefix|..] == token.value;
    }
  }

  /** A parsed JSON body: its value and its `detail` field, `None` when it has none. */
  datatype Body<J> = Body(value: J, detail: Option<string>)

  /** A fetch response: its status and its body, `None` when the body is not JSON. */
  datatype Response<J> = Response(status: int, body: Option<Body<J>>)

  /** `res.ok`: a status in the range 200-299. */
  predicate Ok(status: int)
  {
    200 <= status <= 299
  }

  /** What `handleResponse` settles to: an `Error` with a message, `null`, the parsed body, or the
      rejection of `res.json()` on a body that is not JSON. */
  datatype Outcome<J> = Failed(message: string) | NullResult | Parsed(value: J) | NotJson

  const RequestFailed := "Request failed"

  /** `handleResponse(res)`: a status that is not ok fails with the body's `detail`, or with
      "Request failed" when the body has none or is not JSON; 204 yields `null`; anything else
      yields the parsed body. */
  function HandleResponse<J>(res: Response<J>): (r: Outcome<J>)
    ensures r.Failed? <==> !Ok(res.status)
    ensures r.Failed? ==> r.message != ""
    ensures (r.Failed? && res.body.Some? && res.body.value.detail.Some? && res.body.value.detail.value != "")
            ==> r.message == res.body.value.detail.value
    ensures r.NullResult? <==> res.status == 204
    ensures r.Parsed? <==> Ok(res.status) && res.status != 204 && res.body.Some?
    ensures r.Parsed? ==> r.value == res.body.value.value
  {
    if !Ok(res.status) then
      var detail := if res.body.Some? then res.body.value.detail else None;
      Failed(if detail.Some? && detail.value != "" then detail.value else RequestFailed)
    else if res.status == 204 then NullResult
    else if res.body.Some? then Parsed(res.body.value.value)
    else NotJson
  }

  /** An error response without a usable detail fails with the fixed message. */
  lemma FailureWithoutDetail<J>(res: Response<J>)
    requires !Ok(res.status)
    requires res.body.None? || res.body.value.detail.None? || res.body.value.detail.value == ""
    ensures HandleResponse(res) == Failed(RequestFailed)
  {
  }

  /** `toUiNote(note)`: the same id, title and subject; the content becomes the description, and
      missing content becomes the empty description. */
  function ToUiNote(note: BackendNote): (r: Note)
    ensures r.id == note.id && r.title == note.title && r.subjectId == note.subjectId
    ensures note.content.Some? ==> r.description == note.content.value
    ensures r.description == "" <==> note.content.None? || note.content.value == ""
  {
    Note(note.id, note.title, if note.content.Some? then note.content.value else "", note.subjectId)
  }

  /** The backend note a UI note is stored as. */
  function ToBackendNote(note: Note): BackendNote
  {
    BackendNote(note.id, note.title, Some(note.description), note.subjectId)
  }

  /** Storing a UI note and reading it back gives it unchanged. */
  lemma UiNoteRoundTrip(note: Note)
    ensures ToUiNote(ToBackendNote(note)) == note
  {
  }

  /** A backend note of subject `subjectId`. */
  predicate OfSubject(subjectId: int, n: BackendNote)
  {
    n.subjectId == subjectId
  }

  /** Converting the notes kept for a subject: a note is listed exactly when it is a converted
      backend note of the subject. */
  lemma ListedNotes(backend: seq<BackendNote>, subjectId: int, kept: seq<BackendNote>)
    requires forall k :: 0 <= k < |kept| ==> kept[k] in backend && kept[k].subjectId == subjectId
    requires forall k :: 0 <= k < |backend| && backend[k].subjectId == subjectId ==> backend[k] in kept
    ensures forall k :: 0 <= k < |backend| && backend[k].subjectId == subjectId ==>
      ToUiNote(backend[k]) in Map(kept, ToUiNote)
    ensures forall k :: 0 <= k < |kept| ==>
      exists j :: 0 <= j < |backend| && backend[j].subjectId == subjectId && kept[k] == backend[j]
  {
    var r := Map(kept, ToUiNote);
    forall k | 0 <= k < |backend| && backend[k].subjectId == subjectId
      ensures ToUiNote(backend[k]) in r
    {
      var j :| 0 <= j < |kept| && kept[j] == backend[k];
      assert r[j] == ToUiNote(backend[k]);
    }
    forall k | 0 <= k < |kept|
      ensures exists j :: 0 <= j < |backend| && backend[j].subjectId == subjectId && kept[k] == backend[j]
    {
      var j :| 0 <= j < |backend| && backend[j] == kept[k];
    }
  }

  /** The `notes.list(subjectId)` continuation: the backend's notes of that subject, in their
      order, each converted by `toUiNote`. */
  function ListNotes(backend: seq<BackendNote>, subjectId: int): (r: seq<Note>)
    ensures |r| <= |backend|
    ensures forall k :: 0 <= k < |r| ==> r[k].subjectId == subjectId
    ensures forall k :: 0 <= k < |backend| && backend[k].subjectId == subjectId ==> ToUiNote(backend[k]) in r
    ensures forall k :: 0 <= k < |r| ==>
      exists j :: 0 <= j < |backend| && backend[j].subjectId == subjectId && r[k] == ToUiNote(backend[j])
  {
    var kept := Filter(backend, n => OfSubject(subjectId, n));
    ListedNotes(backend, subjectId, kept);
    Map(kept, ToUiNote)
  }

  /** Listing the notes of a concatenation lists each part: the order of the backend's notes
      is kept. */
  lemma ListNotesAppend(a: seq<BackendNote>, b: seq<BackendNote>, subjectId: int)
    ensures ListNotes(a + b, subjectId) == ListNotes(a, subjectId) + ListNotes(b, subjectId)
  {
    FilterAppend(a, b, n => OfSubject(subjectId, n));
  }

  /** A single backend note is listed exactly when it belongs to the subject. */
  lemma ListOneNote(n: BackendNote, subjectId: int)
    ensures ListNotes([n], subjectId) == if n.subjectId == subjectId then [ToUiNote(n)] else []
  {
    assert [n][1..] == [];
  }
}
