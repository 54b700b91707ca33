/**
 * The chat endpoint of the server (`chat_route` in app/server/app.py): the
 * request checks, the resolution of the chat a turn belongs to, the collection
 * name the search runs in, and the newline-delimited JSON records its
 * `generate` stream emits, with the memories the turn stores.
 */
module Server {
  import opened Wrappers
  import Text
  import Json
  import Models
  import Llm
  import Rag
  import Framing

  /** The JSON body `request.get_json() or {}`; absent keys are `None`. */
  datatype ChatRequest = ChatRequest(query: Option<string>, chatId: Option<int>, collectionName: Option<string>, mode: string)

  /** What the route answers: a refusal with its status and error, or the stream it starts. */
  datatype ChatResponse =
    | Refused(status: int, error: string)
    | Streaming(chatId: Option<int>, collectionName: string)

  /** The statements the route sends to the database, in order. */
  datatype Statement =
    | SelectOwnedChat(chatId: int)
    | SelectCollection(filename: string)
    | SelectLatestChat(collectionId: int)
    | InsertChat(name: string, collectionId: int)
    | InsertMemory(role: string)

  /** Python truthiness of an optional integer: `None` and `0` are false. */
  predicate Set(id: Option<int>) {
    id.Some? && id.value != 0
  }

  /** Python truthiness of an optional string. */
  predicate Given(s: Option<string>) {
    s.Some? && s.value != ""
  }

  /** The per-user prefix of every collection. */
  function Prefix(userId: int): string {
    "user_" + Text.IntToString(userId) + "__"
  }

  /** The collection `process_pdf_task` files an upload under (app/server/tasks.py). */
  function IngestedName(userId: int, filename: string): (r: string)
    ensures Prefix(userId) <= r && r[|Prefix(userId)|..] == filename
  {
    Prefix(userId) + filename
  }

  /** The collection the chat route searches: the name prefixed unless it already carries the prefix. */
  function CollectionName(userId: int, rawName: string): (r: string)
    ensures Prefix(userId) <= r
    ensures Prefix(userId) <= rawName ==> r == rawName
    ensures !(Prefix(userId) <= rawName) ==> r == IngestedName(userId, rawName)
  {
    if Prefix(userId) <= rawName then rawName else Prefix(userId) + rawName
  }

  /** Prefixing twice is prefixing once. */
  lemma CollectionNameIdempotent(userId: int, rawName: string)
    ensures CollectionName(userId, CollectionName(userId, rawName)) == CollectionName(userId, rawName)
  {
  }

  /** Both the uploaded filename and the collection name it was stored under reach the same collection. */
  lemma CollectionNameFindsIngested(userId: int, filename: string)
    ensures CollectionName(userId, IngestedName(userId, filename)) == IngestedName(userId, filename)
    ensures !(Prefix(userId) <= filename) ==> CollectionName(userId, filename) == IngestedName(userId, filename)
  {
  }

  // ---------------------------------------------------------------------------
  // Queries over the tables

  /** `SELECT id FROM chats WHERE id = %s AND user_id = %s` finds a row. */
  predicate OwnsChat(chats: seq<Models.ChatRow>, chatId: int, userId: int) {
    exists k :: 0 <= k < |chats| && chats[k].id == chatId && chats[k].userId == userId
  }

  /** `SELECT id FROM collections WHERE user_id = %s AND filename = %s`: the first match. */
  function FindCollection(cols: seq<Models.CollectionRow>, userId: int, filename: string): (r: Option<nat>)
    ensures r.Some? ==> r.value < |cols| && cols[r.value].userId == userId && cols[r.value].filename == filename
    ensures r.None? ==> forall k :: 0 <= k < |cols| ==> !(cols[k].userId == userId && cols[k].filename == filename)
    decreases |cols|
  {
    if cols == [] then None
    else if cols[0].userId == userId && cols[0].filename == filename then Some(0)
    else
      var r := FindCollection(cols[1..], userId, filename);
      if r.Some? then Some(r.value + 1) else None
  }

  /** `SELECT id FROM chats WHERE collection_id = %s ORDER BY created_at DESC LIMIT 1`: the last one inserted. */
  function LatestChat(chats: seq<Models.ChatRow>, collectionId: int): (r: Option<nat>)
    ensures r.Some? ==> r.value < |chats| && chats[r.value].collectionId == Some(collectionId)
    ensures r.Some? ==> forall k :: r.value < k < |chats| ==> chats[k].collectionId != Some(collectionId)
    ensures r.None? ==> forall k :: 0 <= k < |chats| ==> chats[k].collectionId != Some(collectionId)
    decreases |chats|
  {
    if chats == [] then None
    else if chats[|chats| - 1].collectionId == Some(collectionId) then Some(|chats| - 1)
    else LatestChat(chats[..|chats| - 1], collectionId)
  }

  /** How the chat id of a turn is settled, before any row is inserted. */
  datatype Resolution =
    | Keep(chatId: Option<int>)                 // the id as it stands after the ownership check
    | Reuse(existing: int)                      // the latest chat of the matching collection
    | Create(collectionId: int)                 // a new chat for the matching collection

  /** The id the request carries once the ownership check has run. */
  function Checked(chats: seq<Models.ChatRow>, userId: int, chatId: Option<int>): Option<int> {
    if Set(chatId) && !OwnsChat(chats, chatId.value, userId) then None else chatId
  }

  /** The decision of `chat_route`'s lookups. */
  function Resolve(chats: seq<Models.ChatRow>, cols: seq<Models.CollectionRow>, userId: int, rawName: string,
                   chatId: Option<int>): Resolution
  {
    var checked := Checked(chats, userId, chatId);
    if Set(checked) then Keep(checked)
    else
      var col := FindCollection(cols, userId, rawName);
      if col.None? then Keep(checked)
      else
        var latest := LatestChat(chats, cols[col.value].id);
        if latest.Some? then Reuse(chats[latest.value].id) else Create(cols[col.value].id)
  }

  /** A chat id the user owns is kept and nothing is looked up or created for it. */
  lemma OwnedChatKept(chats: seq<Models.ChatRow>, cols: seq<Models.CollectionRow>, userId: int, rawName: string, id: int)
    requires id != 0 && OwnsChat(chats, id, userId)
    ensures Resolve(chats, cols, userId, rawName, Some(id)) == Keep(Some(id))
  {
  }

  /**
   * A chat id of another user is discarded: the turn goes to the user's
   * collection of that name, or to no chat at all.
   */
  lemma ForeignChatDiscarded(chats: seq<Models.ChatRow>, cols: seq<Models.CollectionRow>, userId: int, rawName: string, id: int)
    requires id != 0 && !OwnsChat(chats, id, userId)
    ensures Resolve(chats, cols, userId, rawName, Some(id)) == Resolve(chats, cols, userId, rawName, None)
    ensures Resolve(chats, cols, userId, rawName, Some(id)) != Keep(Some(id))
  {
  }

  /**
   * A chat reused or created belongs to the user's own collection with the
   * requested filename, and a reused one is the latest chat of that collection.
   */
  lemma ResolvedChatOfCollection(chats: seq<Models.ChatRow>, cols: seq<Models.CollectionRow>, userId: int, rawName: string,
                                 chatId: Option<int>)
    ensures match Resolve(chats, cols, userId, rawName, chatId)
      case Keep(id) => id == chatId || id.None?
      case Reuse(id) =>
        !Set(Checked(chats, userId, chatId)) &&
        exists c, k :: 0 <= c < |cols| && cols[c].userId == userId && cols[c].filename == rawName &&
          0 <= k < |chats| && chats[k].id == id && chats[k].collectionId == Some(cols[c].id) &&
          forall k' :: k < k' < |chats| ==> chats[k'].collectionId != Some(cols[c].id)
      case Create(cid) =>
        !Set(Checked(chats, userId, chatId)) &&
        (exists c :: 0 <= c < |cols| && cols[c].userId == userId && cols[c].filename == rawName && cols[c].id == cid) &&
        forall k :: 0 <= k < |chats| ==> chats[k].collectionId != Some(cid)
  {
    var checked := Checked(chats, userId, chatId);
    if !Set(checked) {
      var col := FindCollection(cols, userId, rawName);
      if col.Some? {
        var latest := LatestChat(chats, cols[col.value].id);
        if latest.Some? {
          assert chats[latest.value].collectionId == Some(cols[col.value].id);
        }
      }
    }
  }

  /** The statements the lookups send: the ownership check, then the collection and its latest chat. */
  function Lookups(chats: seq<Models.ChatRow>, cols: seq<Models.CollectionRow>, userId: int, rawName: string,
                   chatId: Option<int>): seq<Statement>
  {
    var own := if Set(chatId) then [SelectOwnedChat(chatId.value)] else [];
    if Set(Checked(chats, userId, chatId)) then own
    else
      var col := FindCollection(cols, userId, rawName);
      if col.None? then own + [SelectCollection(rawName)]
      else
        var cid := cols[col.value].id;
        own + [SelectCollection(rawName), SelectLatestChat(cid)] +
          (if LatestChat(chats, cid).None? then [InsertChat(rawName, cid)] else [])
  }

  /** Exactly one chat is inserted when it is created, and none otherwise. */
  lemma InsertOnlyOnCreate(chats: seq<Models.ChatRow>, cols: seq<Models.CollectionRow>, userId: int, rawName: string,
                           chatId: Option<int>)
    ensures var r := Resolve(chats, cols, userId, rawName, chatId);
      var ls := Lookups(chats, cols, userId, rawName, chatId);
      (r.Create? ==> ls[|ls| - 1] == InsertChat(rawName, r.collectionId)) &&
      (forall k :: 0 <= k < |ls| && ls[k].InsertChat? ==> r.Create? && k == |ls| - 1)
  {
  }

  // ---------------------------------------------------------------------------
  // The route

  /** The chat id a resolution leaves, `next` being the id a new chat gets. */
  function ResolvedId(r: Resolution, next: nat): Option<int> {
    match r
    case Keep(id) => id
    case Reuse(id) => Some(id)
    case Create(_) => Some(next)
  }

  /** The lookups of `chat_route` and the insert of a new chat, in the route's order. */
  method ResolveChat(store: Models.Store, u: int, raw: string, requested: Option<int>, mode: string)
    returns (chatId: Option<int>, statements: seq<Statement>)
    requires store.Valid()
    modifies store
    ensures store.Valid()
    ensures var res := Resolve(old(store.chats), old(store.collections), u, raw, requested);
      chatId == ResolvedId(res, old(store.nextChatId)) &&
      statements == Lookups(old(store.chats), old(store.collections), u, raw, requested) &&
      store.chats == old(store.chats) + (if res.Create? then [Models.ChatRow(old(store.nextChatId), u, Some(raw), Some(res.collectionId), mode)] else []) &&
      store.memories == old(store.memories) && store.nextMemoryId == old(store.nextMemoryId) &&
      store.collections == old(store.collections)
  {
    statements := [];
    chatId := requested;
    if Set(chatId) {
      statements := statements + [SelectOwnedChat(chatId.value)];
      if !OwnsChat(store.chats, chatId.value, u) {
        chatId := None;
      }
    }
    if !Set(chatId) {
      statements := statements + [SelectCollection(raw)];
      var col := FindCollection(store.collections, u, raw);
      if col.Some? {
        var collectionId := store.collections[col.value].id;
        statements := statements + [SelectLatestChat(collectionId)];
        var latest := LatestChat(store.chats, collectionId);
        if latest.Some? {
          chatId := Some(store.chats[latest.value].id);
        } else {
          statements := statements + [InsertChat(raw, collectionId)];
          var id := store.CreateChat(u, Some(raw), Some(collectionId), mode);
          chatId := Some(id);
        }
      }
    }
  }

  /**
   * `chat_route()`. `session` is the session's `user_id`. Lookups and inserts
   * run against `store`; `statements` lists them in the order they are sent.
   * Both refusals come before any statement.
   */
  method ChatRoute(store: Models.Store, session: Option<int>, req: ChatRequest)
    returns (resp: ChatResponse, statements: seq<Statement>)
    requires store.Valid()
    modifies store
    ensures store.Valid()
    ensures !Set(session) ==> resp == Refused(401, "Unauthorized") && statements == [] && unchanged(store)
    ensures Set(session) && !Given(req.collectionName) ==>
      resp == Refused(400, "No document selected") && statements == [] && unchanged(store)
    ensures Set(session) && Given(req.collectionName) ==>
      var u := session.value;
      var raw := req.collectionName.value;
      var res := Resolve(old(store.chats), old(store.collections), u, raw, req.chatId);
      var chatId := ResolvedId(res, old(store.nextChatId));
      resp == Streaming(chatId, CollectionName(u, raw)) &&
      store.collections == old(store.collections) &&
      store.chats == old(store.chats) + (if res.Create? then [Models.ChatRow(old(store.nextChatId), u, Some(raw), Some(res.collectionId), req.mode)] else []) &&
      store.memories == old(store.memories) + (if Set(chatId) then [Models.MemoryRow(old(store.nextMemoryId), u, chatId.value, "user", req.query)] else []) &&
      statements == Lookups(old(store.chats), old(store.collections), u, raw, req.chatId) +
        (if Set(chatId) then [InsertMemory("user")] else [])
  {
    if !Set(session) {
      return Refused(401, "Unauthorized"), [];
    }
    var u := session.value;
    if !Given(req.collectionName) {
      return Refused(400, "No document selected"), [];
    }
    var raw := req.collectionName.value;
    var chatId;
    chatId, statements := ResolveChat(store, u, raw, req.chatId, req.mode);
    var name := CollectionName(u, raw);
    if Set(chatId) {
      statements := statements + [InsertMemory("user")];
      store.AddMemory(u, chatId.value, "user", req.query);
    }
    resp := Streaming(chatId, name);
  }

  // ---------------------------------------------------------------------------
  // The records of the stream

  function OptionalString(s: Option<string>): Json.Json {
    if s.Some? then Json.JStr(s.value) else Json.JNull
  }

  function ChatIdJson(id: Option<int>): Json.Json {
    if id.Some? then Json.JInt(id.value) else Json.JNull
  }

  /** `{"type": "pdf", "page": ..., "snippet": ...}`; a missing page is `null`. */
  function PdfJson(p: Rag.PdfSource): Json.Json {
    Json.JObj([("type", Json.JStr(p.kind)), ("page", ChatIdJson(p.page)), ("snippet", Json.JStr(p.snippet))])
  }

  /** A web hit as the search step lists it; a missing field is `null`. */
  function WebJson(w: Llm.WebSource): Json.Json {
    Json.JObj([("title", OptionalString(w.title)), ("url", OptionalString(w.url)), ("snippet", OptionalString(w.snippet))])
  }

  function PdfList(ps: seq<Rag.PdfSource>): (r: seq<Json.Json>)
    ensures |r| == |ps| && forall k :: 0 <= k < |ps| ==> r[k] == PdfJson(ps[k])
  {
    seq(|ps|, k requires 0 <= k < |ps| => PdfJson(ps[k]))
  }

  function WebList(ws: seq<Llm.WebSource>): (r: seq<Json.Json>)
    ensures |r| == |ws| && forall k :: 0 <= k < |ws| ==> r[k] == WebJson(ws[k])
  {
    seq(|ws|, k requires 0 <= k < |ws| => WebJson(ws[k]))
  }

  /** `result["sources"]`: `{"pdf": [...], "web": [...]}`. */
  function SourcesJson(agent: Rag.Agent): Json.Json {
    Json.JObj([("pdf", Json.JArr(PdfList(agent.pdf))), ("web", Json.JArr(WebList(agent.web)))])
  }

  function SourcesRecord(agent: Rag.Agent, chatId: Option<int>): Json.Json {
    Json.JObj([("type", Json.JStr("sources")), ("data", SourcesJson(agent)), ("chat_id", ChatIdJson(chatId))])
  }

  function TokenRecord(chunk: string): Json.Json {
    Json.JObj([("type", Json.JStr("token")), ("data", Json.JStr(chunk))])
  }

  /** `{"type": "error", "data": str(e)}`. */
  function ErrorRecord(message: string): Json.Json {
    Json.JObj([("type", Json.JStr("error")), ("data", Json.JStr(message))])
  }

  /** `json.dumps(record) + "\n"`. */
  function Frame(record: Json.Json): string {
    Json.Dumps(record) + "\n"
  }

  /**
   * What the answer generator yields: its chunks in order, and the message of
   * the exception it raises after them, if it does.
   */
  datatype Generated = Generated(chunks: seq<string>, failure: Option<string>)

  function TokenRecords(chunks: seq<string>): (r: seq<Json.Json>)
    ensures |r| == |chunks|
    ensures forall k :: 0 <= k < |chunks| ==> r[k] == TokenRecord(chunks[k])
  {
    seq(|chunks|, k requires 0 <= k < |chunks| => TokenRecord(chunks[k]))
  }

  /**
   * The records `generate()` emits. `agent` is the outcome of `run_agent`
   * (`Err` when it raises): a failure there leaves only the error record.
   */
  function Records(agent: Result<Rag.Agent>, chatId: Option<int>, answer: Generated): seq<Json.Json> {
    match agent
    case Err(m) => [ErrorRecord(m)]
    case Ok(a) =>
      [SourcesRecord(a, chatId)] + TokenRecords(answer.chunks) +
      (if answer.failure.Some? then [ErrorRecord(answer.failure.value)] else [])
  }

  function Frames(records: seq<Json.Json>): (r: seq<string>)
    ensures |r| == |records|
    ensures forall k :: 0 <= k < |records| ==> r[k] == Frame(records[k])
  {
    seq(|records|, k requires 0 <= k < |records| => Frame(records[k]))
  }

  /**
   * `generate()`: the frames it yields in order, and the assistant memory it
   * stores: the whole answer, only when the turn has a chat and nothing raised.
   */
  method Generate(store: Models.Store, userId: int, chatId: Option<int>, agent: Result<Rag.Agent>, answer: Generated)
    returns (frames: seq<string>)
    requires store.Valid()
    modifies store
    ensures store.Valid()
    ensures frames == Frames(Records(agent, chatId, answer))
    ensures store.memories == old(store.memories) +
      (if agent.Ok? && answer.failure.None? && Set(chatId) then
         [Models.MemoryRow(old(store.nextMemoryId), userId, chatId.value, "assistant", Some(Framing.Concat(answer.chunks)))]
       else [])
    ensures store.chats == old(store.chats) && store.collections == old(store.collections)
  {
    if agent.Err? {
      frames := [Frame(ErrorRecord(agent.message))];
      assert frames == Frames(Records(agent, chatId, answer));
      return;
    }
    var tokens, full := EmitTokens(answer.chunks);
    frames := [Frame(SourcesRecord(agent.value, chatId))] + tokens;
    assert frames == Frames([SourcesRecord(agent.value, chatId)] + TokenRecords(answer.chunks));
    if answer.failure.Some? {
      frames := frames + [Frame(ErrorRecord(answer.failure.value))];
      return;
    }
    if Set(chatId) {
      store.AddMemory(userId, chatId.value, "assistant", Some(full));
    }
  }

  /** The loop over the generator: one token frame per chunk, and `full_answer` growing by each. */
  method EmitTokens(chunks: seq<string>) returns (frames: seq<string>, full: string)
    ensures frames == Frames(TokenRecords(chunks))
    ensures full == Framing.Concat(chunks)
  {
    frames := [];
    full := "";
    for i := 0 to |chunks|
      invariant full == Framing.Concat(chunks[..i])
      invariant frames == Frames(TokenRecords(chunks[..i]))
    {
      assert chunks[..i + 1][..i] == chunks[..i];
      full := full + chunks[i];
      frames := frames + [Frame(TokenRecord(chunks[i]))];
    }
    assert chunks[..|chunks|] == chunks;
  }

  /**
   * The shape of the stream: one sources record carrying the chat id, then one
   * token record per chunk in order, then at most one error record.
   */
  lemma StreamShape(a: Rag.Agent, chatId: Option<int>, answer: Generated)
    ensures var rs := Records(Ok(a), chatId, answer);
      |rs| == 1 + |answer.chunks| + (if answer.failure.Some? then 1 else 0) &&
      rs[0] == SourcesRecord(a, chatId) &&
      (forall k :: 0 <= k < |answer.chunks| ==> rs[1 + k] == TokenRecord(answer.chunks[k])) &&
      (answer.failure.Some? ==> rs[|rs| - 1] == ErrorRecord(answer.failure.value))
  {
  }

  /** Every frame is one line: a single line feed, at its end. */
  lemma FrameIsOneLine(record: Json.Json)
    ensures var f := Frame(record); |f| > 0 && f[|f| - 1] == '\n' && '\n' !in f[..|f| - 1]
  {
    assert Frame(record)[..|Frame(record)| - 1] == Json.Dumps(record);
  }
}
