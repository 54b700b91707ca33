/**
 * The chat stream end to end: the frames `generate()` yields on the server,
 * cut into received in any way by the transport, framed into lines and decoded by
 * the client's `handleSend`. The records arrive as sent, and the reply the
 * user sees is the concatenation of the generated chunks.
 */
module Protocol {
  import opened Wrappers
  import Text
  import Json
  import Framing
  import ChatArea
  import Server
  import Rag
  import Llm

  /** The serialized records, one per line. */
  function Dumped(records: seq<Json.Json>): (r: seq<string>)
    ensures |r| == |records|
    ensures forall k :: 0 <= k < |records| ==> r[k] == Json.Dumps(records[k])
  {
    seq(|records|, k requires 0 <= k < |records| => Json.Dumps(records[k]))
  }

  /** The body text is the serialized records, each ended by a line feed. */
  lemma {:induction false} FramesText(records: seq<Json.Json>)
    ensures Framing.Concat(Server.Frames(records)) == Framing.Terminated(Dumped(records))
    decreases |records|
  {
    if records != [] {
      var init := records[..|records| - 1];
      FramesText(init);
      assert Server.Frames(records)[..|records| - 1] == Server.Frames(init);
      assert Dumped(records)[..|records| - 1] == Dumped(init);
    }
  }

  /** However the body is cut into received, the client's lines are exactly the serialized records. */
  lemma LinesAreRecords(records: seq<Json.Json>, received: seq<string>)
    requires Framing.Concat(received) == Framing.Concat(Server.Frames(records))
    ensures Framing.CompleteLines(Framing.Concat(received)) == Dumped(records)
    ensures Framing.Remainder(Framing.Concat(received)) == ""
  {
    FramesText(records);
    Framing.TerminatedFramesBack(Dumped(records));
  }

  /** A serialized object starts with '{', so its line is never skipped as blank. */
  lemma ObjectNotBlank(fields: seq<(string, Json.Json)>)
    ensures !Text.JsBlank(Json.Dumps(Json.JObj(fields)))
  {
    var d := Json.Dumps(Json.JObj(fields));
    assert d[0] == '{';
  }

  /** `parse` received back each of these records: `JSON.parse` undoing `json.dumps`. */
  predicate ParsesBack(records: seq<Json.Json>, parse: string -> Option<Json.Json>) {
    forall k :: 0 <= k < |records| ==> parse(Json.Dumps(records[k])) == Some(records[k])
  }

  predicate AllObjects(records: seq<Json.Json>) {
    forall k :: 0 <= k < |records| ==> records[k].JObj?
  }

  /** `f` applied to each element, in order. */
  function Map<A, B>(f: A -> B, s: seq<A>): (r: seq<B>)
    ensures |r| == |s|
    ensures forall k :: 0 <= k < |s| ==> r[k] == f(s[k])
  {
    seq(|s|, k requires 0 <= k < |s| => f(s[k]))
  }

  lemma MapAppend<A, B>(f: A -> B, a: seq<A>, b: seq<A>)
    ensures Map(f, a + b) == Map(f, a) + Map(f, b)
  {
    var l := Map(f, a + b);
    var r := Map(f, a) + Map(f, b);
    forall k | 0 <= k < |l|
      ensures l[k] == r[k]
    {
      if k < |a| {
        assert (a + b)[k] == a[k];
      } else {
        assert (a + b)[k] == b[k - |a|];
      }
    }
  }

  /** What the client's handler makes of each record, in order. */
  function Meanings(records: seq<Json.Json>): seq<ChatArea.Event> {
    Map(ChatArea.Interpret, records)
  }

  /** Every line of the body is handled as the record it carries. */
  lemma DecodeRecords(records: seq<Json.Json>, parse: string -> Option<Json.Json>)
    requires ParsesBack(records, parse) && AllObjects(records)
    ensures ChatArea.Events(Dumped(records), parse) == Meanings(records)
  {
    forall k | 0 <= k < |records|
      ensures ChatArea.Events(Dumped(records), parse)[k] == ChatArea.Interpret(records[k])
    {
      ObjectNotBlank(records[k].fields);
    }
  }

  // ---------------------------------------------------------------------------
  // What each record means to the client

  /** `Page ${s.page}`: a missing page renders as "null". */
  function PdfLabel(p: Rag.PdfSource): string {
    "Page " + (if p.page.Some? then Text.IntToString(p.page.value) else "null")
  }

  /** `Web: ${w.title}`. */
  function WebLabel(w: Llm.WebSource): string {
    "Web: " + (if w.title.Some? then w.title.value else "null")
  }

  /** The source chips of a reply: the pdf entries in order, then the web entries. */
  function SourceLabels(a: Rag.Agent): seq<string> {
    PdfLabelList(a.pdf) + WebLabelList(a.web)
  }

  function PdfLabelList(ps: seq<Rag.PdfSource>): (r: seq<string>)
    ensures |r| == |ps| && forall k :: 0 <= k < |ps| ==> r[k] == PdfLabel(ps[k])
  {
    seq(|ps|, k requires 0 <= k < |ps| => PdfLabel(ps[k]))
  }

  function WebLabelList(ws: seq<Llm.WebSource>): (r: seq<string>)
    ensures |r| == |ws| && forall k :: 0 <= k < |ws| ==> r[k] == WebLabel(ws[k])
  {
    seq(|ws|, k requires 0 <= k < |ws| => WebLabel(ws[k]))
  }

  /** Looking up a key finds the last field that carries it. */
  lemma {:induction false} GetField(fields: seq<(string, Json.Json)>, i: nat, key: string)
    requires i < |fields| && fields[i].0 == key
    requires forall j :: i < j < |fields| ==> fields[j].0 != key
    ensures Json.Get(Json.JObj(fields), key) == Some(fields[i].1)
    decreases |fields|
  {
    if i < |fields| - 1 {
      var init := fields[..|fields| - 1];
      GetField(init, i, key);
    }
  }

  lemma TokenMeaning(chunk: string)
    ensures ChatArea.Interpret(Server.TokenRecord(chunk)) == ChatArea.Token(chunk)
  {
    var fields := Server.TokenRecord(chunk).fields;
    GetField(fields, 0, "type");
    GetField(fields, 1, "data");
  }

  lemma ErrorMeaning(message: string)
    ensures ChatArea.Interpret(Server.ErrorRecord(message)) == ChatArea.Note("\n[Error: " + message + "]")
  {
    var fields := Server.ErrorRecord(message).fields;
    GetField(fields, 0, "type");
    GetField(fields, 1, "data");
  }

  /** What the client makes of a sources record with an object for `data`. */
  lemma SourcesShape(data: Json.Json, chatId: Json.Json)
    requires data.JObj?
    ensures var pdf := ChatArea.Labels(Json.Get(data, "pdf"), "Page ", "page");
      var web := ChatArea.Labels(Json.Get(data, "web"), "Web: ", "title");
      ChatArea.Interpret(Json.JObj([("type", Json.JStr("sources")), ("data", data), ("chat_id", chatId)])) ==
        if pdf.None? || web.None? then ChatArea.Skip else ChatArea.SourcesRecord(pdf.value + web.value, Some(chatId))
  {
    var fields := [("type", Json.JStr("sources")), ("data", data), ("chat_id", chatId)];
    GetField(fields, 0, "type");
    GetField(fields, 1, "data");
    GetField(fields, 2, "chat_id");
  }

  /** The two lists of a sources object label as the pdf pages and the web titles. */
  lemma SourceListLabels(a: Rag.Agent)
    ensures ChatArea.Labels(Json.Get(Server.SourcesJson(a), "pdf"), "Page ", "page") == Some(PdfLabelList(a.pdf))
    ensures ChatArea.Labels(Json.Get(Server.SourcesJson(a), "web"), "Web: ", "title") == Some(WebLabelList(a.web))
  {
    var data := Server.SourcesJson(a);
    GetField(data.fields, 0, "pdf");
    GetField(data.fields, 1, "web");
    PdfLabels(a.pdf);
    WebLabels(a.web);
  }

  lemma SourcesMeaning(a: Rag.Agent, chatId: Option<int>)
    ensures ChatArea.Interpret(Server.SourcesRecord(a, chatId)) ==
      ChatArea.SourcesRecord(SourceLabels(a), Some(Server.ChatIdJson(chatId)))
  {
    SourceListLabels(a);
    SourcesShape(Server.SourcesJson(a), Server.ChatIdJson(chatId));
  }

  lemma PdfLabels(ps: seq<Rag.PdfSource>)
    ensures ChatArea.Labels(Some(Json.JArr(Server.PdfList(ps))), "Page ", "page")
      == Some(PdfLabelList(ps))
  {
    var items := Server.PdfList(ps);
    assert forall k :: 0 <= k < |items| ==> items[k].JObj?;
    var got := seq(|items|, k requires 0 <= k < |items| => "Page " + Json.JsString(Json.Get(items[k], "page")));
    forall k | 0 <= k < |ps|
      ensures got[k] == PdfLabel(ps[k])
    {
      GetField(items[k].fields, 1, "page");
    }
    assert got == PdfLabelList(ps);
  }

  lemma WebLabels(ws: seq<Llm.WebSource>)
    ensures ChatArea.Labels(Some(Json.JArr(Server.WebList(ws))), "Web: ", "title")
      == Some(WebLabelList(ws))
  {
    var items := Server.WebList(ws);
    assert forall k :: 0 <= k < |items| ==> items[k].JObj?;
    var got := seq(|items|, k requires 0 <= k < |items| => "Web: " + Json.JsString(Json.Get(items[k], "title")));
    forall k | 0 <= k < |ws|
      ensures got[k] == WebLabel(ws[k])
    {
      GetField(items[k].fields, 0, "title");
    }
    assert got == WebLabelList(ws);
  }

  function TokenEvents(chunks: seq<string>): (r: seq<ChatArea.Event>)
    ensures |r| == |chunks|
  {
    seq(|chunks|, k requires 0 <= k < |chunks| => ChatArea.Token(chunks[k]))
  }

  /** The events the client derives from the stream of a turn. */
  function Expected(agent: Result<Rag.Agent>, chatId: Option<int>, answer: Server.Generated): seq<ChatArea.Event> {
    match agent
    case Err(m) => [ChatArea.Note("\n[Error: " + m + "]")]
    case Ok(a) =>
      [ChatArea.SourcesRecord(SourceLabels(a), Some(Server.ChatIdJson(chatId)))] + TokenEvents(answer.chunks) +
      (if answer.failure.Some? then [ChatArea.Note("\n[Error: " + answer.failure.value + "]")] else [])
  }

  /** Token records mean token events. */
  lemma TokenMeanings(chunks: seq<string>)
    ensures AllObjects(Server.TokenRecords(chunks))
    ensures Meanings(Server.TokenRecords(chunks)) == TokenEvents(chunks)
  {
    forall k | 0 <= k < |chunks|
      ensures Meanings(Server.TokenRecords(chunks))[k] == TokenEvents(chunks)[k]
    {
      TokenMeaning(chunks[k]);
    }
  }

  /** An error record on its own means the bracketed note. */
  lemma ErrorMeanings(message: string)
    ensures AllObjects([Server.ErrorRecord(message)])
    ensures Meanings([Server.ErrorRecord(message)]) == [ChatArea.Note("\n[Error: " + message + "]")]
  {
    ErrorMeaning(message);
  }

  /** A sources record on its own means the source chips and the chat id. */
  lemma SourcesMeanings(a: Rag.Agent, chatId: Option<int>)
    ensures AllObjects([Server.SourcesRecord(a, chatId)])
    ensures Meanings([Server.SourcesRecord(a, chatId)]) ==
      [ChatArea.SourcesRecord(SourceLabels(a), Some(Server.ChatIdJson(chatId)))]
  {
    SourcesMeaning(a, chatId);
  }

  /** The optional closing error record means the closing note. */
  lemma FailureMeanings(failure: Option<string>)
    ensures var tail := if failure.Some? then [Server.ErrorRecord(failure.value)] else [];
      AllObjects(tail) &&
      Meanings(tail) == if failure.Some? then [ChatArea.Note("\n[Error: " + failure.value + "]")] else []
  {
    if failure.Some? {
      ErrorMeanings(failure.value);
    }
  }

  lemma InterpretRecords(agent: Result<Rag.Agent>, chatId: Option<int>, answer: Server.Generated)
    ensures var rs := Server.Records(agent, chatId, answer);
      AllObjects(rs) && Meanings(rs) == Expected(agent, chatId, answer)
  {
    match agent {
      case Err(m) =>
        ErrorMeanings(m);
      case Ok(a) =>
        var head := [Server.SourcesRecord(a, chatId)];
        var tokens := Server.TokenRecords(answer.chunks);
        var tail := if answer.failure.Some? then [Server.ErrorRecord(answer.failure.value)] else [];
        SourcesMeanings(a, chatId);
        TokenMeanings(answer.chunks);
        FailureMeanings(answer.failure);
        MapAppend(ChatArea.Interpret, head, tokens);
        MapAppend(ChatArea.Interpret, head + tokens, tail);
        AllObjectsAppend(head, tokens);
        AllObjectsAppend(head + tokens, tail);
    }
  }

  lemma AllObjectsAppend(a: seq<Json.Json>, b: seq<Json.Json>)
    requires AllObjects(a) && AllObjects(b)
    ensures AllObjects(a + b)
  {
    forall k | 0 <= k < |a + b|
      ensures (a + b)[k].JObj?
    {
      if k < |a| {
        assert (a + b)[k] == a[k];
      } else {
        assert (a + b)[k] == b[k - |a|];
      }
    }
  }

  /** Token records make the visible content follow the accumulator. */
  lemma {:induction false} FoldTokens(v: ChatArea.View, chunks: seq<string>, captured: Option<Json.Json>)
    requires v.content == v.text
    ensures ChatArea.ApplyAll(v, TokenEvents(chunks), captured) ==
      v.(text := v.text + Framing.Concat(chunks), content := v.text + Framing.Concat(chunks))
    decreases |chunks|
  {
    if chunks == [] {
      assert v.text + Framing.Concat(chunks) == v.text;
    } else {
      var init := chunks[..|chunks| - 1];
      FoldTokens(v, init, captured);
      assert TokenEvents(chunks)[..|chunks| - 1] == TokenEvents(init);
    }
  }

  /** However the body is cut into reads, the client derives the expected events from it. */
  lemma BodyEvents(agent: Result<Rag.Agent>, chatId: Option<int>, answer: Server.Generated, received: seq<string>,
                   parse: string -> Option<Json.Json>)
    requires Framing.Concat(received) == Framing.Concat(Server.Frames(Server.Records(agent, chatId, answer)))
    requires ParsesBack(Server.Records(agent, chatId, answer), parse)
    ensures ChatArea.Events(Framing.CompleteLines(Framing.Concat(received)), parse) == Expected(agent, chatId, answer)
  {
    var rs := Server.Records(agent, chatId, answer);
    LinesAreRecords(rs, received);
    InterpretRecords(agent, chatId, answer);
    DecodeRecords(rs, parse);
  }

  /** A finished 200 body leaves exactly what its records build. */
  lemma FinishedOutcome(received: seq<string>, parse: string -> Option<Json.Json>, captured: Option<Json.Json>)
    ensures ChatArea.Outcome(ChatArea.Answered(200, Some(ChatArea.Stream(received, ChatArea.Finished))), parse, captured) ==
      ChatArea.ApplyAll(ChatArea.Start(captured),
        ChatArea.Events(Framing.CompleteLines(Framing.Concat(received)), parse), captured)
  {
  }

  /** The events of a turn whose agent failed leave only the error note in the accumulator. */
  lemma ApplyAgentError(m: string, chatId: Option<int>, answer: Server.Generated, captured: Option<Json.Json>)
    ensures ChatArea.ApplyAll(ChatArea.Start(captured), Expected(Err(m), chatId, answer), captured) ==
      ChatArea.View("\n[Error: " + m + "]", "", None, captured)
  {
    var es := Expected(Err(m), chatId, answer);
    assert es[..0] == [];
  }

  /** The events of an answered turn: sources first, then the tokens, then the optional note. */
  lemma ApplyAnswer(a: Rag.Agent, chatId: Option<int>, answer: Server.Generated, captured: Option<Json.Json>)
    ensures var v := ChatArea.ApplyAll(ChatArea.Start(captured), Expected(Ok(a), chatId, answer), captured);
      v.content == Framing.Concat(answer.chunks) &&
      v.text == Framing.Concat(answer.chunks) + (if answer.failure.Some? then "\n[Error: " + answer.failure.value + "]" else "") &&
      v.sources == Some(SourceLabels(a)) &&
      v.chatId == (if Server.Set(chatId) && !Json.Truthy(captured) then Some(Json.JInt(chatId.value)) else captured)
  {
    var start := ChatArea.Start(captured);
    var s := ChatArea.SourcesRecord(SourceLabels(a), Some(Server.ChatIdJson(chatId)));
    var v1 := ChatArea.Apply(start, s, captured);
    assert ChatArea.ApplyAll(start, [s], captured) == v1 by {
      assert [s][..0] == [];
    }
    FoldTokens(v1, answer.chunks, captured);
    var tail := if answer.failure.Some? then [ChatArea.Note("\n[Error: " + answer.failure.value + "]")] else [];
    assert Expected(Ok(a), chatId, answer) == [s] + TokenEvents(answer.chunks) + tail;
    ChatArea.ApplyAllAppend(start, [s], TokenEvents(answer.chunks), captured);
    ChatArea.ApplyAllAppend(start, [s] + TokenEvents(answer.chunks), tail, captured);
    if answer.failure.Some? {
      assert tail[..0] == [];
    }
  }

  /**
   * The reply a finished stream leaves: the visible content is every generated
   * chunk in order (a trailing error shows only in the accumulator), the source
   * chips are the pdf pages then the web titles, and the chat id the server
   * settled is adopted when it is set and the client had none.
   */
  lemma RoundTrip(agent: Result<Rag.Agent>, chatId: Option<int>, answer: Server.Generated, received: seq<string>,
                  parse: string -> Option<Json.Json>, captured: Option<Json.Json>)
    requires Framing.Concat(received) == Framing.Concat(Server.Frames(Server.Records(agent, chatId, answer)))
    requires ParsesBack(Server.Records(agent, chatId, answer), parse)
    ensures var v := ChatArea.Outcome(ChatArea.Answered(200, Some(ChatArea.Stream(received, ChatArea.Finished))), parse, captured);
      match agent
      case Err(m) =>
        v == ChatArea.View("\n[Error: " + m + "]", "", None, captured)
      case Ok(a) =>
        v.content == Framing.Concat(answer.chunks) &&
        v.text == Framing.Concat(answer.chunks) + (if answer.failure.Some? then "\n[Error: " + answer.failure.value + "]" else "") &&
        v.sources == Some(SourceLabels(a)) &&
        v.chatId == (if Server.Set(chatId) && !Json.Truthy(captured) then Some(Json.JInt(chatId.value)) else captured)
  {
    BodyEvents(agent, chatId, answer, received, parse);
    FinishedOutcome(received, parse, captured);
    match agent {
      case Err(m) => ApplyAgentError(m, chatId, answer, captured);
      case Ok(a) => ApplyAnswer(a, chatId, answer, captured);
    }
  }
}
