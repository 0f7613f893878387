/** `POST /api/chat`: checks the caller, starts a streamed completion and,
    when the stream completes, stores the transcript. The identity lookup,
    the completion service, the stream wrapper, the generated id, the clock
    and the database are inputs. */
module ChatRoute {
  import opened Common
  import opened Text

  /** One chat message as the client sends it. */
  datatype Message = Message(role: string, content: string)

  /** The parsed request body: its messages and the optional chat id. */
  datatype ChatRequest = ChatRequest(messages: seq<Message>, id: Option<string>)

  /** The kind of a thrown error: the database client's error type or any other. */
  datatype ErrorKind = PostgrestError | OtherError

  /** What `createChatCompletion` did: answered a stream, or threw. */
  datatype Completion = CompletionStarted | CompletionThrew(kind: ErrorKind)

  /** The HTTP response: the text stream, or a status with a plain body. */
  datatype Response = Streaming | Plain(status: int, body: string)

  /** The response and whether a completion was requested. */
  datatype Answer = Answer(response: Response, completionRequested: bool)

  const Unauthorized := Plain(401, "Unauthorized")
  const DatabaseAccessError := Plain(403, "Database access error")
  const InternalServerError := Plain(500, "Internal server error")
  const StreamingError := Plain(500, "Error in streaming response")

  /** The caller's id from the identity lookup (`userData?.user?.id`), when truthy. */
  function UserId(user: Option<User>): (id: Option<string>)
    ensures id.Some? <==> user.Some? && user.value.id != ""
    ensures id.Some? ==> id.value == user.value.id
  {
    if user.Some? && user.value.id != "" then Some(user.value.id) else None
  }

  /** The error-to-status rule of the outer `catch`. */
  function ErrorResponse(kind: ErrorKind): (r: Response)
    ensures r.Plain? && (r.status == 403 <==> kind == PostgrestError)
    ensures kind == PostgrestError ==> r == DatabaseAccessError
    ensures kind == OtherError ==> r == InternalServerError
  {
    if kind == PostgrestError then DatabaseAccessError else InternalServerError
  }

  /** `POST(req)`. `body` is `None` when the body is not valid JSON;
      `wrapThrows` says whether building the streaming response threw. */
  function Post(body: Option<ChatRequest>, user: Option<User>, completion: Completion, wrapThrows: bool): (r: Answer)
    ensures body.None? ==> r == Answer(InternalServerError, false)
    ensures body.Some? && UserId(user).None? ==> r == Answer(Unauthorized, false)
    ensures r.completionRequested <==> body.Some? && UserId(user).Some?
    ensures r.response == Streaming <==>
      r.completionRequested && completion == CompletionStarted && !wrapThrows
    ensures r.completionRequested && completion.CompletionThrew? ==> r.response == ErrorResponse(completion.kind)
    ensures r.completionRequested && completion == CompletionStarted && wrapThrows ==> r.response == StreamingError
  {
    if body.None? then Answer(ErrorResponse(OtherError), false)
    else if UserId(user).None? then Answer(Unauthorized, false)
    else
      match completion
      case CompletionThrew(kind) => Answer(ErrorResponse(kind), true)
      case CompletionStarted => Answer(if wrapThrows then StreamingError else Streaming, true)
  }

  /** The stored transcript. */
  datatype Payload = Payload(id: string, title: string, userId: string, createdAt: int,
                             path: string, messages: seq<Message>)

  /** The row upserted into the `chats` table. */
  datatype Row = Row(id: string, payload: Payload)

  const TitleLength := 100

  /** `onCompletion`: the row to store once the stream has produced
      `completion`, with the id `nanoid()` would give and the clock's time.
      With no first message the handler throws and nothing is stored. */
  function OnCompletion(req: ChatRequest, userId: string, completion: string,
                        freshId: string, now: int): (r: Option<Row>)
    ensures r.None? <==> req.messages == []
    ensures r.Some? ==> var p := r.value.payload;
      r.value.id == p.id &&
      p.id == (if req.id.Some? then req.id.value else freshId) &&
      p.path == "/chat/" + p.id &&
      p.title == JsTake(req.messages[0].content, TitleLength) &&
      StartsWith(req.messages[0].content, p.title) && JsLength(p.title) <= TitleLength &&
      (JsLength(req.messages[0].content) <= TitleLength ==> p.title == req.messages[0].content) &&
      p.userId == userId && p.createdAt == now &&
      |p.messages| == |req.messages| + 1 &&
      p.messages[..|req.messages|] == req.messages &&
      p.messages[|req.messages|..] == [Message("assistant", completion)]
  {
    if req.messages == [] then None
    else
      var id := Coalesce(req.id, freshId);
      var p := Payload(id, JsTake(req.messages[0].content, TitleLength), userId, now,
                       "/chat/" + id, req.messages + [Message("assistant", completion)]);
      Some(Row(id, p))
  }

  /** The transcript is one message longer than the request and its last
      message is the assistant's completion. */
  lemma TranscriptLength(req: ChatRequest, userId: string, completion: string, freshId: string, now: int)
    requires req.messages != []
    ensures var p := OnCompletion(req, userId, completion, freshId, now).value.payload;
      |p.messages| == |req.messages| + 1 &&
      p.messages[|req.messages|] == Message("assistant", completion)
  {
    var p := OnCompletion(req, userId, completion, freshId, now).value.payload;
    assert p.messages[|req.messages|..][0] == p.messages[|req.messages|];
  }

  /** The `chats` table, keyed by id. */
  type Table = map<string, Payload>

  /** `upsert({id, payload})`: a failure is only logged and leaves the table. */
  function Upsert(table: Table, row: Row, fails: bool): (t: Table)
    ensures fails ==> t == table
    ensures !fails ==> row.id in t && t[row.id] == row.payload
    ensures forall k :: k != row.id ==> (k in t <==> k in table) && (k in t ==> t[k] == table[k])
  {
    if fails then table else table[row.id := row.payload]
  }

  /** Storing the same chat again replaces it: the later transcript wins. */
  lemma UpsertOverwrites(table: Table, row: Row, row': Row)
    requires row.id == row'.id
    ensures Upsert(Upsert(table, row, false), row', false) == Upsert(table, row', false)
  {
  }
}
