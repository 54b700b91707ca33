/**
 * The chat pane of the client (frontend/app/components/chat-area.tsx): resolving
 * the selected document to a chat, sending a question and folding the streamed
 * newline-delimited JSON records into the assistant's reply, stopping a reply and
 * clearing the pane.
 */
module ChatArea {
  import opened Wrappers
  import Text
  import opened Json
  import Framing

  datatype Role = User | Assistant

  /** One entry of the message log; `sources` is absent until a sources record arrives. */
  datatype Message = Message(id: string, role: Role, content: string, sources: Option<seq<string>>)

  const WelcomeMessage := Message("welcome", Assistant, "Hello! Select a document to start chatting.", None)
  const ClearedMessage := Message("reset", Assistant, "Conversation cleared (Visual only).", None)

  function WelcomeBack(doc: string): Message {
    Message("welcome", Assistant, "Welcome back! Ask me anything about " + doc + ".", None)
  }

  function Ready(doc: string): Message {
    Message("welcome", Assistant, "I'm ready to analyze " + doc + ".", None)
  }

  /** JavaScript truthiness of the `selectedDocument` prop: null and "" are both falsy. */
  predicate Selected(doc: Option<string>) {
    doc.Some? && doc.value != ""
  }

  /** `prev.map(msg => msg.id === id ? f(msg) : msg)`. */
  function Update(ms: seq<Message>, id: string, f: Message -> Message): (r: seq<Message>)
    ensures |r| == |ms|
  {
    seq(|ms|, k requires 0 <= k < |ms| => if ms[k].id == id then f(ms[k]) else ms[k])
  }

  function SetContent(ms: seq<Message>, id: string, c: string): seq<Message> {
    Update(ms, id, (m: Message) => m.(content := c))
  }

  function SetSources(ms: seq<Message>, id: string, s: seq<string>): seq<Message> {
    Update(ms, id, (m: Message) => m.(sources := Some(s)))
  }

  function AppendContent(ms: seq<Message>, id: string, suffix: string): seq<Message> {
    Update(ms, id, (m: Message) => m.(content := m.content + suffix))
  }

  /** The ids of the log before the question are all different from the reply's. */
  predicate FreshReply(base: seq<Message>, u: Message, replyId: string) {
    u.id != replyId && forall k :: 0 <= k < |base| ==> base[k].id != replyId
  }

  // With fresh ids, mapping over the log by the reply's id changes the reply and nothing else.

  lemma ContentSetOnlyOnReply(base: seq<Message>, u: Message, a: Message, c: string)
    requires FreshReply(base, u, a.id)
    ensures SetContent(base + [u, a], a.id, c) == base + [u, a.(content := c)]
  {
    var ms := base + [u, a];
    assert forall k :: 0 <= k < |base| ==> ms[k] == base[k];
  }

  lemma SourcesSetOnlyOnReply(base: seq<Message>, u: Message, a: Message, s: seq<string>)
    requires FreshReply(base, u, a.id)
    ensures SetSources(base + [u, a], a.id, s) == base + [u, a.(sources := Some(s))]
  {
    var ms := base + [u, a];
    assert forall k :: 0 <= k < |base| ==> ms[k] == base[k];
  }

  lemma ContentAppendedOnlyOnReply(base: seq<Message>, u: Message, a: Message, suffix: string)
    requires FreshReply(base, u, a.id)
    ensures AppendContent(base + [u, a], a.id, suffix) == base + [u, a.(content := a.content + suffix)]
  {
    var ms := base + [u, a];
    assert forall k :: 0 <= k < |base| ==> ms[k] == base[k];
  }

  // ---------------------------------------------------------------------------
  // Records of the stream, as the client's handler reads them

  /** What one line of the stream does to the reply being built. */
  datatype Event =
    | Token(text: string)                                     // appended to the accumulator, which is shown
    | SourcesRecord(labels: seq<string>, chatId: Option<Json>) // replaces the reply's sources
    | Note(text: string)                                      // appended to the accumulator only
    | Skip                                                    // blank, unparsable, unknown or throwing line

  /**
   * The labels of a `pdf` or `web` list: `prefix + item[key]` for each item when
   * the list is truthy; `None` where the handler throws (a truthy value that is
   * not an array, or a null item).
   */
  function Labels(list: Option<Json>, prefix: string, key: string): Option<seq<string>> {
    if !Truthy(list) then Some([])
    else if !list.value.JArr? then None
    else
      var items := list.value.items;
      if exists k :: 0 <= k < |items| && items[k].JNull? then None
      else Some(seq(|items|, k requires 0 <= k < |items| => prefix + JsString(Get(items[k], key))))
  }

  /**
   * The handler of one parsed line. Reading a property of `null` throws, which
   * skips the line; a value that is not an object has no `type`.
   */
  function Interpret(v: Json): Event {
    var t := Get(v, "type");
    if t == Some(JStr("token")) then Token(JsString(Get(v, "data")))
    else if t == Some(JStr("sources")) then
      var data := Get(v, "data");
      if data.None? || data.value.JNull? then Skip
      else
        var pdf := Labels(Get(data.value, "pdf"), "Page ", "page");
        var web := Labels(Get(data.value, "web"), "Web: ", "title");
        if pdf.None? || web.None? then Skip
        else SourcesRecord(pdf.value + web.value, Get(v, "chat_id"))
    else if t == Some(JStr("error")) then Note("\n[Error: " + JsString(Get(v, "data")) + "]")
    else Skip
  }

  /** One complete line: blank lines and lines `parse` rejects are skipped. */
  function DecodeLine(line: string, parse: string -> Option<Json>): Event {
    if Text.JsBlank(line) then Skip
    else match parse(line)
      case None => Skip
      case Some(v) => Interpret(v)
  }

  function Events(lines: seq<string>, parse: string -> Option<Json>): (r: seq<Event>)
    ensures |r| == |lines|
  {
    seq(|lines|, k requires 0 <= k < |lines| => DecodeLine(lines[k], parse))
  }

  lemma EventsAppend(a: seq<string>, b: seq<string>, parse: string -> Option<Json>)
    ensures Events(a + b, parse) == Events(a, parse) + Events(b, parse)
  {
    var l := Events(a + b, parse);
    var r := Events(a, parse) + Events(b, parse);
    assert |l| == |r|;
    forall k | 0 <= k < |l|
      ensures l[k] == r[k]
    {
      if k < |a| {
        assert (a + b)[k] == a[k];
      } else {
        assert (a + b)[k] == b[k - |a|];
      }
    }
  }

  // ---------------------------------------------------------------------------
  // The fold of the records into the reply

  /**
   * What the handler has built so far: the accumulator `currentText`, the
   * reply's visible content and sources, and the chat id state.
   */
  datatype View = View(text: string, content: string, sources: Option<seq<string>>, chatId: Option<Json>)

  /** The reply as `handleSend` starts it, with the chat id it captured. */
  function Start(captured: Option<Json>): View {
    View("", "", None, captured)
  }

  /**
   * One record. The chat id test reads the value `handleSend` captured when it
   * was called, not the one an earlier record of the same stream set.
   */
  function Apply(v: View, e: Event, captured: Option<Json>): View {
    match e
    case Token(t) => v.(text := v.text + t, content := v.text + t)
    case SourcesRecord(labels, id) =>
      v.(sources := Some(labels), chatId := if Truthy(id) && !Truthy(captured) then id else v.chatId)
    case Note(t) => v.(text := v.text + t)
    case Skip => v
  }

  function ApplyAll(v: View, es: seq<Event>, captured: Option<Json>): View
    decreases |es|
  {
    if es == [] then v else Apply(ApplyAll(v, es[..|es| - 1], captured), es[|es| - 1], captured)
  }

  lemma {:induction false} ApplyAllAppend(v: View, a: seq<Event>, b: seq<Event>, captured: Option<Json>)
    ensures ApplyAll(v, a + b, captured) == ApplyAll(ApplyAll(v, a, captured), b, captured)
    decreases |b|
  {
    if b == [] {
      assert a + b == a;
    } else {
      assert (a + b)[..|a + b| - 1] == a + b[..|b| - 1];
      ApplyAllAppend(v, a, b[..|b| - 1], captured);
    }
  }

  // Reference definitions of what the fold computes

  /** The text a record adds to the accumulator. */
  function Payload(e: Event): string {
    match e
    case Token(t) => t
    case Note(t) => t
    case _ => ""
  }

  /** Every token payload and error note, in arrival order. */
  function Texts(es: seq<Event>): string
    decreases |es|
  {
    if es == [] then "" else Texts(es[..|es| - 1]) + Payload(es[|es| - 1])
  }

  /** The length of the shortest prefix of `es` that holds all its token records. */
  function TokensEnd(es: seq<Event>): (n: nat)
    ensures n <= |es|
    ensures n > 0 ==> es[n - 1].Token?
    ensures forall k :: n <= k < |es| ==> !es[k].Token?
    decreases |es|
  {
    if es == [] then 0
    else if es[|es| - 1].Token? then |es|
    else TokensEnd(es[..|es| - 1])
  }

  /** The index of the last sources record, if any. */
  function LastSources(es: seq<Event>): (r: Option<nat>)
    ensures r.Some? ==> r.value < |es| && es[r.value].SourcesRecord?
    ensures r.Some? ==> forall k :: r.value < k < |es| ==> !es[k].SourcesRecord?
    ensures r.None? ==> forall k :: 0 <= k < |es| ==> !es[k].SourcesRecord?
    decreases |es|
  {
    if es == [] then None
    else if es[|es| - 1].SourcesRecord? then Some(|es| - 1)
    else LastSources(es[..|es| - 1])
  }

  /** The last truthy `chat_id` carried by a sources record, if any. */
  function LastChatId(es: seq<Event>): (r: Option<Json>)
    ensures r.Some? ==> Truthy(r) && exists k :: 0 <= k < |es| && es[k].SourcesRecord? && es[k].chatId == r
    decreases |es|
  {
    if es == [] then None
    else if es[|es| - 1].SourcesRecord? && Truthy(es[|es| - 1].chatId) then es[|es| - 1].chatId
    else LastChatId(es[..|es| - 1])
  }

  /** The accumulator is every token payload and error note, in arrival order. */
  lemma {:induction false} FoldText(v: View, es: seq<Event>, captured: Option<Json>)
    ensures ApplyAll(v, es, captured).text == v.text + Texts(es)
    decreases |es|
  {
    if es != [] {
      FoldText(v, es[..|es| - 1], captured);
    }
  }

  /**
   * The visible content is the accumulator as it stood at the last token record:
   * an error note after it is never shown.
   */
  lemma {:induction false} FoldContent(v: View, es: seq<Event>, captured: Option<Json>)
    ensures ApplyAll(v, es, captured).content ==
      if TokensEnd(es) == 0 then v.content else v.text + Texts(es[..TokensEnd(es)])
    decreases |es|
  {
    if es != [] {
      var init := es[..|es| - 1];
      if es[|es| - 1].Token? {
        FoldText(v, init, captured);
        TakeAll(es);
      } else {
        FoldContent(v, init, captured);
        assert TokensEnd(es) == TokensEnd(init);
        TakeOfInit(es, TokensEnd(es));
      }
    }
  }

  lemma TakeAll<T>(s: seq<T>)
    ensures s[..|s|] == s
  {
  }

  lemma TakeOfInit<T>(s: seq<T>, n: nat)
    requires n < |s|
    ensures s[..|s| - 1][..n] == s[..n]
  {
  }

  /** The sources are those of the last sources record, replacing any before it. */
  lemma {:induction false} FoldSources(v: View, es: seq<Event>, captured: Option<Json>)
    ensures ApplyAll(v, es, captured).sources ==
      if LastSources(es).None? then v.sources else Some(es[LastSources(es).value].labels)
    decreases |es|
  {
    if es != [] {
      var init := es[..|es| - 1];
      if !es[|es| - 1].SourcesRecord? {
        FoldSources(v, init, captured);
        assert LastSources(es) == LastSources(init);
      }
    }
  }

  /** A chat id is taken from the records only when none was known at send time. */
  lemma {:induction false} FoldChatId(v: View, es: seq<Event>, captured: Option<Json>)
    ensures ApplyAll(v, es, captured).chatId ==
      if Truthy(captured) || LastChatId(es).None? then v.chatId else LastChatId(es)
    decreases |es|
  {
    if es != [] {
      FoldChatId(v, es[..|es| - 1], captured);
    }
  }

  /** A skipped line leaves every later record's effect as it would have been without it. */
  function Kept(es: seq<Event>): (r: seq<Event>)
    ensures forall k :: 0 <= k < |r| ==> !r[k].Skip?
    decreases |es|
  {
    if es == [] then []
    else if es[|es| - 1].Skip? then Kept(es[..|es| - 1])
    else Kept(es[..|es| - 1]) + [es[|es| - 1]]
  }

  lemma {:induction false} SkipsAreInert(v: View, es: seq<Event>, captured: Option<Json>)
    ensures ApplyAll(v, es, captured) == ApplyAll(v, Kept(es), captured)
    decreases |es|
  {
    if es != [] {
      var init := es[..|es| - 1];
      SkipsAreInert(v, init, captured);
      if !es[|es| - 1].Skip? {
        var k := Kept(init) + [es[|es| - 1]];
        assert k[..|k| - 1] == Kept(init);
      }
    }
  }

  // ---------------------------------------------------------------------------
  // The transport, as the client sees it

  /** A thrown error: its `name` (only "AbortError" is told apart) and `message`. */
  datatype Failure = Failure(name: string, message: string)

  const Unauthorized := Failure("Error", "Unauthorized: Please log in again.")
  const NoBody := Failure("Error", "No response body")

  /** How the body stream ends after its reads: reported done, or a rejected read. */
  datatype Ending = Finished | Broken(failure: Failure)

  /** The reads of a response body, already decoded to text, in arrival order. */
  datatype Stream = Stream(chunks: seq<string>, ending: Ending)

  /** The outcome of `fetch`: it rejects, or a status with a body that may be missing. */
  datatype Reply = NoReply(failure: Failure) | Answered(status: int, body: Option<Stream>)

  /** The JSON body `handleSend` posts. */
  datatype Request = Request(query: string, chatId: Option<Json>, collectionName: Option<string>, mode: string)

  /** The catch block: any failure but an abort appends a bracketed note to the visible content. */
  function Annotate(v: View, f: Failure): View {
    if f.name == "AbortError" then v else v.(content := v.content + FailureNote(f))
  }

  /** The bracketed note, with "Connection Failed" standing in for an empty message. */
  function FailureNote(f: Failure): string {
    "\n[" + (if f.message == "" then "Connection Failed" else f.message) + "]"
  }

  /** The error `handleSend` catches, if any: a rejected fetch, 401, a missing body or a rejected read. */
  function FailureOf(reply: Reply): Option<Failure> {
    match reply
    case NoReply(f) => Some(f)
    case Answered(status, body) =>
      if status == 401 then Some(Unauthorized)
      else if body.None? then Some(NoBody)
      else if body.value.ending.Broken? then Some(body.value.ending.failure)
      else None
  }

  /**
   * The reply as the records left it, stated on the whole text of the body: the
   * records are the complete lines of the concatenated reads, so the result does
   * not depend on how the text was cut into reads, and a final unterminated
   * fragment is never parsed. Only a body read past the status checks has records.
   */
  function Received(reply: Reply, parse: string -> Option<Json>, captured: Option<Json>): View {
    if reply.Answered? && reply.status != 401 && reply.body.Some? then
      var lines := Framing.CompleteLines(Framing.Concat(reply.body.value.chunks));
      ApplyAll(Start(captured), Events(lines, parse), captured)
    else Start(captured)
  }

  /** The reply `handleSend` leaves behind: what the records built, then the catch block. */
  function Outcome(reply: Reply, parse: string -> Option<Json>, captured: Option<Json>): View {
    var v := Received(reply, parse, captured);
    match FailureOf(reply)
    case None => v
    case Some(f) => Annotate(v, f)
  }

  /** Two bodies with the same text leave the same reply. */
  lemma OutcomeIgnoresChunking(a: seq<string>, b: seq<string>, ending: Ending, status: int,
                               parse: string -> Option<Json>, captured: Option<Json>)
    requires Framing.Concat(a) == Framing.Concat(b)
    ensures Outcome(Answered(status, Some(Stream(a, ending))), parse, captured)
         == Outcome(Answered(status, Some(Stream(b, ending))), parse, captured)
  {
  }

  // ---------------------------------------------------------------------------
  // Resolving the selected document to a chat

  datatype ChatSummary = ChatSummary(id: int, name: string)
  datatype CollectionSummary = CollectionSummary(id: int, filename: string)
  datatype HistoryEntry = HistoryEntry(role: Role, content: string)
  datatype HistoryReply = HistoryReply(ok: bool, history: seq<HistoryEntry>)
  datatype CreateReply = CreateReply(ok: bool, chatId: int)

  /** The server's answers; `Err` is a call that throws. */
  datatype Backend = Backend(
    chats: Result<seq<ChatSummary>>,
    history: int -> Result<HistoryReply>,
    collections: Result<seq<CollectionSummary>>,
    create: (string, int) -> Result<CreateReply>)

  /** The calls the resolution makes, in order. */
  datatype Call = ListChats | GetHistory(chatId: int) | ListCollections | CreateChat(name: string, collectionId: int)

  /** `xs.find(p)`, as an index. */
  function FirstIndex<T>(xs: seq<T>, p: T -> bool): (r: Option<nat>)
    ensures r.Some? ==> r.value < |xs| && p(xs[r.value]) && forall k :: 0 <= k < r.value ==> !p(xs[k])
    ensures r.None? ==> forall k :: 0 <= k < |xs| ==> !p(xs[k])
  {
    if xs == [] then None
    else if p(xs[0]) then Some(0)
    else
      var r := FirstIndex(xs[1..], p);
      if r.None? then None else Some(r.value + 1)
  }

  /** The stored history as messages `hist-0`, `hist-1`, ... with role and content only. */
  function HistoryMessages(h: seq<HistoryEntry>): (r: seq<Message>)
    ensures |r| == |h|
    ensures forall k :: 0 <= k < |h| ==>
      r[k] == Message("hist-" + Text.NatToString(k), h[k].role, h[k].content, None)
  {
    seq(|h|, k requires 0 <= k < |h| => Message("hist-" + Text.NatToString(k), h[k].role, h[k].content, None))
  }

  /** `chats.find(c => c.name === doc)`. */
  function ChatNamed(chats: seq<ChatSummary>, doc: string): Option<nat> {
    FirstIndex(chats, (c: ChatSummary) => c.name == doc)
  }

  /** `collections.find(c => c.filename === doc)`. */
  function CollectionFor(cols: seq<CollectionSummary>, doc: string): Option<nat> {
    FirstIndex(cols, (c: CollectionSummary) => c.filename == doc)
  }

  datatype Resolution = Resolution(messages: seq<Message>, chatId: Option<Json>, calls: seq<Call>)

  function Resolve(doc: Option<string>, chatId: Option<Json>, backend: Backend): (r: Resolution)
    // no document: one welcome message and no chat, without asking the server
    ensures !Selected(doc) ==> r == Resolution([WelcomeMessage], None, [])
    // otherwise the chat list is asked first
    ensures Selected(doc) ==> |r.calls| >= 1 && r.calls[0] == ListChats
    // a failed call leaves the cleared log empty and the chat id as it was
    ensures Selected(doc) && backend.chats.Err? ==> r == Resolution([], chatId, [ListChats])
    // an exact name match reuses that chat and never creates one
    ensures Selected(doc) && backend.chats.Ok? ==>
      var i := ChatNamed(backend.chats.value, doc.value);
      i.Some? ==> r.chatId == Some(JInt(backend.chats.value[i.value].id)) && r.calls == [ListChats, GetHistory(backend.chats.value[i.value].id)]
    // at most one chat is created, and only when no chat has the document's name
    // and a collection has it as its file name
    ensures forall k :: 0 <= k < |r.calls| && r.calls[k].CreateChat? ==>
      k == |r.calls| - 1 && Selected(doc) && backend.chats.Ok? && backend.collections.Ok?
      && (forall c :: c in backend.chats.value ==> c.name != doc.value)
      && r.calls[k].name == doc.value
      && exists c :: c in backend.collections.value && c.filename == doc.value && c.id == r.calls[k].collectionId
    // the chat id changes only to a chat found or created
    ensures r.chatId != chatId ==>
      (r.chatId == None || (r.chatId.Some? && r.chatId.value.JInt? &&
        ((backend.chats.Ok? && exists c :: c in backend.chats.value && c.id == r.chatId.value.n) ||
         (exists k :: 0 <= k < |r.calls| && r.calls[k].CreateChat?))))
  {
    if !Selected(doc) then Resolution([WelcomeMessage], None, [])
    else
      var d := doc.value;
      match backend.chats
      case Err(_) => Resolution([], chatId, [ListChats])
      case Ok(chats) =>
        var i := ChatNamed(chats, d);
        if i.Some? then
          var id := chats[i.value].id;
          var log := match backend.history(id)
            case Ok(h) => if !h.ok then [] else if |h.history| > 0 then HistoryMessages(h.history) else [WelcomeBack(d)]
            case Err(_) => [];
          Resolution(log, Some(JInt(id)), [ListChats, GetHistory(id)])
        else
          match backend.collections
          case Err(_) => Resolution([], chatId, [ListChats, ListCollections])
          case Ok(cols) =>
            var j := CollectionFor(cols, d);
            if j.None? then Resolution([], chatId, [ListChats, ListCollections])
            else
              var colId := cols[j.value].id;
              var calls := [ListChats, ListCollections, CreateChat(d, colId)];
              assert cols[j.value] in cols;
              assert calls[2].CreateChat?;
              match backend.create(d, colId)
              case Ok(c) =>
                if c.ok then Resolution([Ready(d)], Some(JInt(c.chatId)), calls)
                else Resolution([], chatId, calls)
              case Err(_) => Resolution([], chatId, calls)
  }

  /** A second resolution, once the created chat is listed, creates nothing. */
  lemma ResolveAfterCreateReuses(doc: Option<string>, chatId: Option<Json>, backend: Backend, created: ChatSummary)
    requires Selected(doc)
    requires backend.chats.Ok? && created in backend.chats.value && created.name == doc.value
    ensures forall k :: 0 <= k < |Resolve(doc, chatId, backend).calls| ==> !Resolve(doc, chatId, backend).calls[k].CreateChat?
  {
  }

  // ---------------------------------------------------------------------------
  // The component's state

  /** The abort controller of a reply in progress. */
  datatype Controller = Controller(aborted: bool)

  /** `showSuggestions` holds exactly when the log is one assistant message. */
  predicate Suggests(ms: seq<Message>) {
    |ms| == 1 && ms[0].role == Assistant
  }

  class ChatSession {
    var messages: seq<Message>
    var input: string
    var isLoading: bool
    var chatId: Option<Json>
    var isWebSearch: bool
    var selectedDocument: Option<string>
    var controller: Option<Controller>

    constructor()
      ensures messages == [] && input == "" && !isLoading && chatId == None
      ensures !isWebSearch && selectedDocument == None && controller == None
    {
      messages := [];
      input := "";
      isLoading := false;
      chatId := None;
      isWebSearch := false;
      selectedDocument := None;
      controller := None;
    }

    /** `showSuggestions`. */
    predicate ShowSuggestions()
      reads this
    {
      Suggests(messages)
    }

    /** The suggestion panel is drawn only when `showSuggestions` holds and a document is selected. */
    predicate SuggestionsDrawn()
      reads this
    {
      ShowSuggestions() && Selected(selectedDocument)
    }

    /**
     * The effect run when the `selectedDocument` prop becomes `doc`: the log is
     * cleared and rebuilt from what the server answers, in the order of the calls
     * returned.
     */
    method Initialize(doc: Option<string>, backend: Backend) returns (calls: seq<Call>)
      modifies this
      ensures var r := Resolve(doc, old(chatId), backend);
        messages == r.messages && chatId == r.chatId && calls == r.calls
      ensures selectedDocument == doc
      ensures isLoading == (if Selected(doc) then false else old(isLoading))
      ensures input == old(input) && isWebSearch == old(isWebSearch) && controller == old(controller)
      ensures !Selected(doc) ==> ShowSuggestions() && !SuggestionsDrawn()
    {
      selectedDocument := doc;
      if !Selected(doc) {
        messages := [WelcomeMessage];
        chatId := None;
        calls := [];
        return;
      }
      var d := doc.value;
      isLoading := true;
      messages := [];
      calls := [ListChats];
      ghost var r := Resolve(doc, old(chatId), backend);
      match backend.chats {
        case Err(_) =>
        case Ok(chats) =>
          var i := ChatNamed(chats, d);
          if i.Some? {
            var id := chats[i.value].id;
            chatId := Some(JInt(id));
            calls := [ListChats, GetHistory(id)];
            match backend.history(id) {
              case Err(_) =>
              case Ok(h) =>
                if h.ok {
                  messages := if |h.history| > 0 then HistoryMessages(h.history) else [WelcomeBack(d)];
                }
            }
          } else {
            calls := [ListChats, ListCollections];
            match backend.collections {
              case Err(_) =>
              case Ok(cols) =>
                var j := CollectionFor(cols, d);
                if j.Some? {
                  var colId := cols[j.value].id;
                  calls := [ListChats, ListCollections, CreateChat(d, colId)];
                  match backend.create(d, colId) {
                    case Err(_) =>
                    case Ok(c) =>
                      if c.ok {
                        chatId := Some(JInt(c.chatId));
                        messages := [Ready(d)];
                      }
                  }
                }
            }
          }
      }
      assert messages == r.messages;
      assert chatId == r.chatId;
      assert calls == r.calls;
      isLoading := false;
    }

    /** The log while a reply is being built: the old log, the question, the reply. */
    ghost predicate Shows(base: seq<Message>, question: Message, replyId: string, v: View)
      reads this
    {
      messages == base + [question, Message(replyId, Assistant, v.content, v.sources)] && chatId == v.chatId
    }

    /**
     * `handleSend`. Ignored when the text is blank or a reply is loading;
     * otherwise it posts `sent`, appends the question and an empty reply, reads
     * the body to its end and leaves the reply as `Outcome` states. `userId` and
     * `replyId` stand for the two fresh ids the browser generates.
     */
    method Send(text: string, userId: string, replyId: string, reply: Reply, parse: string -> Option<Json>)
      returns (sent: Option<Request>)
      requires userId != replyId
      requires forall k :: 0 <= k < |messages| ==> messages[k].id != replyId
      modifies this
      ensures old(Text.JsBlank(text) || isLoading) ==> sent == None && unchanged(this)
      ensures !old(Text.JsBlank(text) || isLoading) ==>
        sent == Some(Request(text, old(chatId), old(selectedDocument), if old(isWebSearch) then "hybrid" else "discrete"))
        && (var v := Outcome(reply, parse, old(chatId));
            messages == old(messages) + [Message(userId, User, text, None), Message(replyId, Assistant, v.content, v.sources)]
            && chatId == v.chatId)
        && !isLoading && controller == None && input == ""
        && isWebSearch == old(isWebSearch) && selectedDocument == old(selectedDocument)
    {
      if Text.JsBlank(text) || isLoading {
        return None;
      }
      var captured := chatId;
      ghost var base := messages;
      var question := Message(userId, User, text, None);
      assert FreshReply(base, question, replyId);
      input := "";
      isLoading := true;
      messages := messages + [question, Message(replyId, Assistant, "", None)];
      controller := Some(Controller(false));
      sent := Some(Request(text, captured, selectedDocument, if isWebSearch then "hybrid" else "discrete"));
      var failure;
      ghost var view;
      failure, view := Exchange(reply, parse, replyId, captured, base, question);
      if failure.Some? {
        var f := failure.value;
        if f.name != "AbortError" {
          var note := FailureNote(f);
          ContentAppendedOnlyOnReply(base, question, Message(replyId, Assistant, view.content, view.sources), note);
          messages := AppendContent(messages, replyId, note);
        }
        view := Annotate(view, f);
      }
      isLoading := false;
      controller := None;
    }

    /** The `try` block of `handleSend`: the status checks, then the body read to its end. */
    method Exchange(reply: Reply, parse: string -> Option<Json>, replyId: string, captured: Option<Json>,
                    ghost base: seq<Message>, ghost question: Message)
      returns (failure: Option<Failure>, ghost view: View)
      requires FreshReply(base, question, replyId)
      requires Shows(base, question, replyId, Start(captured))
      modifies this
      ensures failure == FailureOf(reply) && view == Received(reply, parse, captured)
      ensures Shows(base, question, replyId, view)
      ensures input == old(input) && isLoading == old(isLoading) && controller == old(controller)
      ensures selectedDocument == old(selectedDocument) && isWebSearch == old(isWebSearch)
    {
      view := Start(captured);
      match reply {
        case NoReply(f) =>
          failure := Some(f);
        case Answered(status, body) =>
          if status == 401 {
            failure := Some(Unauthorized);
          } else if body.None? {
            failure := Some(NoBody);
          } else {
            failure, view := ReadBody(body.value, parse, replyId, captured, base, question);
          }
      }
    }

    /**
     * The `while (!done)` loop of `handleSend`: each read is appended to the
     * carried buffer, the complete lines are handled and the unterminated
     * fragment is kept; a rejected read ends the loop with its failure.
     */
    method ReadBody(stream: Stream, parse: string -> Option<Json>, replyId: string, captured: Option<Json>,
                    ghost base: seq<Message>, ghost question: Message)
      returns (failure: Option<Failure>, ghost view: View)
      requires FreshReply(base, question, replyId)
      requires Shows(base, question, replyId, Start(captured))
      modifies this
      ensures view == ApplyAll(Start(captured),
        Events(Framing.CompleteLines(Framing.Concat(stream.chunks)), parse), captured)
      ensures failure == if stream.ending.Broken? then Some(stream.ending.failure) else None
      ensures Shows(base, question, replyId, view)
      ensures input == old(input) && isLoading == old(isLoading) && controller == old(controller)
      ensures selectedDocument == old(selectedDocument) && isWebSearch == old(isWebSearch)
    {
      view := Start(captured);
      failure := None;
      var done := false;
      var i := 0;
      var currentText := "";
      var buffer := "";
      while !done
        invariant 0 <= i <= |stream.chunks|
        invariant failure == None
        invariant done ==> i == |stream.chunks| && stream.ending.Finished?
        invariant view == ApplyAll(Start(captured),
          Events(Framing.CompleteLines(Framing.Concat(stream.chunks[..i])), parse), captured)
        invariant buffer == Framing.Remainder(Framing.Concat(stream.chunks[..i]))
        invariant currentText == view.text && Shows(base, question, replyId, view)
        invariant input == old(input) && isLoading == old(isLoading) && controller == old(controller)
        invariant selectedDocument == old(selectedDocument) && isWebSearch == old(isWebSearch)
        decreases |stream.chunks| - i, if done then 0 else 1
      {
        var chunk: string;
        if i < |stream.chunks| {
          chunk := stream.chunks[i];
        } else if stream.ending.Finished? {
          // the read that reports `done` carries no text
          done := true;
          chunk := "";
        } else {
          failure := Some(stream.ending.failure);
          break;
        }
        buffer, currentText, view := ReadChunk(stream.chunks, i, chunk, done, buffer, parse, replyId, captured,
                                               currentText, base, question, view);
        if !done {
          i := i + 1;
        }
      }
      assert stream.chunks[..i] == stream.chunks;
    }

    /** One pass of the read loop: the chunk joins the buffer and the complete lines are handled. */
    method ReadChunk(chunks: seq<string>, i: nat, chunk: string, done: bool, buffer: string,
                     parse: string -> Option<Json>, replyId: string, captured: Option<Json>, text: string,
                     ghost base: seq<Message>, ghost question: Message, ghost v: View)
      returns (buffer': string, currentText: string, ghost view: View)
      requires FreshReply(base, question, replyId)
      requires i <= |chunks|
      requires !done ==> i < |chunks| && chunk == chunks[i]
      requires done ==> i == |chunks| && chunk == ""
      requires v == ApplyAll(Start(captured), Events(Framing.CompleteLines(Framing.Concat(chunks[..i])), parse), captured)
      requires buffer == Framing.Remainder(Framing.Concat(chunks[..i]))
      requires text == v.text && Shows(base, question, replyId, v)
      modifies this
      ensures var n := if done then i else i + 1;
        n <= |chunks| &&
        view == ApplyAll(Start(captured), Events(Framing.CompleteLines(Framing.Concat(chunks[..n])), parse), captured) &&
        buffer' == Framing.Remainder(Framing.Concat(chunks[..n]))
      ensures currentText == view.text && Shows(base, question, replyId, view)
      ensures input == old(input) && isLoading == old(isLoading) && controller == old(controller)
      ensures selectedDocument == old(selectedDocument) && isWebSearch == old(isWebSearch)
    {
      var step := Framing.Feed(buffer, chunk);
      buffer' := step.buffer;
      currentText, view := HandleLines(step.lines, parse, replyId, captured, text, base, question, v);
      FeedText(Framing.Concat(chunks[..i]), chunk, step, parse, captured, v, view);
      ReadExtends(chunks, i, chunk, done);
    }

    /**
     * The `for (const line of lines)` loop of `handleSend`: every line is decoded
     * and its record folded into the reply, the accumulator and the chat id.
     */
    method HandleLines(lines: seq<string>, parse: string -> Option<Json>, replyId: string, captured: Option<Json>,
                       text: string, ghost base: seq<Message>, ghost question: Message, ghost v: View)
      returns (currentText: string, ghost view: View)
      requires FreshReply(base, question, replyId)
      requires text == v.text && Shows(base, question, replyId, v)
      modifies this
      ensures view == ApplyAll(v, Events(lines, parse), captured)
      ensures currentText == view.text && Shows(base, question, replyId, view)
      ensures input == old(input) && isLoading == old(isLoading) && controller == old(controller)
      ensures selectedDocument == old(selectedDocument) && isWebSearch == old(isWebSearch)
    {
      currentText := text;
      view := v;
      var j := 0;
      while j < |lines|
        invariant 0 <= j <= |lines|
        invariant view == ApplyAll(v, Events(lines[..j], parse), captured)
        invariant currentText == view.text && Shows(base, question, replyId, view)
        invariant input == old(input) && isLoading == old(isLoading) && controller == old(controller)
        invariant selectedDocument == old(selectedDocument) && isWebSearch == old(isWebSearch)
      {
        var e := DecodeLine(lines[j], parse);
        assert Events(lines[..j + 1], parse) == Events(lines[..j], parse) + [e];
        ApplyAllAppend(v, Events(lines[..j], parse), [e], captured);
        assert [e][..0] == [];
        assert ApplyAll(view, [e], captured) == Apply(view, e, captured);
        currentText, view := HandleRecord(e, replyId, captured, currentText, base, question, view);
        j := j + 1;
      }
      assert lines[..|lines|] == lines;
    }

    /** The body of the `try` for one record: the reply and the chat id change as `Apply` states. */
    method HandleRecord(e: Event, replyId: string, captured: Option<Json>,
                        text: string, ghost base: seq<Message>, ghost question: Message, ghost v: View)
      returns (currentText: string, ghost view: View)
      requires FreshReply(base, question, replyId)
      requires text == v.text && Shows(base, question, replyId, v)
      modifies this
      ensures view == Apply(v, e, captured)
      ensures currentText == view.text && Shows(base, question, replyId, view)
      ensures input == old(input) && isLoading == old(isLoading) && controller == old(controller)
      ensures selectedDocument == old(selectedDocument) && isWebSearch == old(isWebSearch)
    {
      currentText := text;
      var reply := Message(replyId, Assistant, v.content, v.sources);
      match e {
        case Token(t) =>
          currentText := currentText + t;
          ContentSetOnlyOnReply(base, question, reply, currentText);
          messages := SetContent(messages, replyId, currentText);
        case SourcesRecord(labels, id) =>
          SourcesSetOnlyOnReply(base, question, reply, labels);
          messages := SetSources(messages, replyId, labels);
          if Truthy(id) && !Truthy(captured) {
            chatId := id;
          }
        case Note(t) =>
          currentText := currentText + t;
        case Skip =>
      }
      view := Apply(v, e, captured);
    }

    /** `stopGeneration`: aborts the reply in progress and stops the spinner at once. */
    method StopGeneration()
      modifies this
      ensures old(controller).Some? ==> controller == Some(Controller(true)) && !isLoading
      ensures old(controller).None? ==> controller == None && isLoading == old(isLoading)
      ensures messages == old(messages) && chatId == old(chatId) && input == old(input)
      ensures isWebSearch == old(isWebSearch) && selectedDocument == old(selectedDocument)
    {
      if controller.Some? {
        controller := Some(Controller(true));
        isLoading := false;
      }
    }

    /** `clearConversation`: the log becomes the single "cleared" notice; nothing else changes. */
    method ClearConversation()
      modifies this
      ensures messages == [ClearedMessage]
      ensures ShowSuggestions() && (SuggestionsDrawn() <==> Selected(selectedDocument))
      ensures chatId == old(chatId) && isLoading == old(isLoading) && input == old(input)
      ensures controller == old(controller) && isWebSearch == old(isWebSearch)
      ensures selectedDocument == old(selectedDocument)
    {
      messages := [ClearedMessage];
    }
  }

  /**
   * One read of the loop extends the text read so far by its chunk; the final
   * read that reports `done` carries no text.
   */
  lemma ReadExtends(chunks: seq<string>, i: nat, chunk: string, done: bool)
    requires i <= |chunks|
    requires !done ==> i < |chunks| && chunk == chunks[i]
    requires done ==> i == |chunks| && chunk == ""
    ensures var n := if done then i else i + 1;
      n <= |chunks| && Framing.Concat(chunks[..n]) == Framing.Concat(chunks[..i]) + chunk
  {
    if done {
      assert Framing.Concat(chunks[..i]) + chunk == Framing.Concat(chunks[..i]);
    } else {
      assert chunks[..i + 1][..i] == chunks[..i];
    }
  }

  /** Feeding `c` after the text `p` leaves the view and buffer of the text `p + c`. */
  lemma FeedText(p: string, c: string, step: Framing.Step, parse: string -> Option<Json>, captured: Option<Json>,
                 viewBefore: View, view: View)
    requires viewBefore == ApplyAll(Start(captured), Events(Framing.CompleteLines(p), parse), captured)
    requires step == Framing.Feed(Framing.Remainder(p), c)
    requires view == ApplyAll(viewBefore, Events(step.lines, parse), captured)
    ensures view == ApplyAll(Start(captured), Events(Framing.CompleteLines(p + c), parse), captured)
    ensures step.buffer == Framing.Remainder(p + c)
  {
    Framing.FeedExtends(p, c);
    EventsAppend(Framing.CompleteLines(p), step.lines, parse);
    ApplyAllAppend(Start(captured), Events(Framing.CompleteLines(p), parse), Events(step.lines, parse), captured);
  }
}
