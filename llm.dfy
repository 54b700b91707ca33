/**
 * Prompt assembly and model choice on the server (app/server/llm.py): the hard
 * character cap, the layout of the retrieved page text and the web results in
 * the prompt, and the rule that picks a Gemini model from the ones on offer.
 */
module Llm {
  import opened Wrappers
  import Text
  import Textwrap

  /** `_truncate_tokens(s, max_chars)`: nothing for a missing or empty text, else its first `maxChars` characters. */
  function TruncateTokens(s: Option<string>, maxChars: nat): (r: string)
    ensures |r| <= maxChars
    ensures s.None? ==> r == ""
    ensures s.Some? ==> r <= s.value && (|s.value| <= maxChars ==> r == s.value)
    ensures s.Some? && |s.value| > maxChars ==> |r| == maxChars
  {
    if s.None? || s.value == "" then ""
    else if |s.value| <= maxChars then s.value
    else s.value[..maxChars]
  }

  /** Cutting twice at the same length cuts nothing more. */
  lemma TruncateIdempotent(s: Option<string>, maxChars: nat)
    ensures TruncateTokens(Some(TruncateTokens(s, maxChars)), maxChars) == TruncateTokens(s, maxChars)
  {
  }

  const MaxChunks: nat := 10
  const MaxUserBlock: nat := 20000
  const NoPdfText: string := "[No relevant PDF text found]"
  const DefaultWebTitle: string := "Web Source"

  /** The triple-quoted instructions as written, with their four-blank indentation. */
  const SystemTemplate: string :=
    "\n    You are an expert technical analyst. Answer the user's question using the provided context.\n"
    + "    \n"
    + "    Formatting Rules:\n"
    + "    - Use **Markdown** formatting (bolding, bullets).\n"
    + "    - Explain code logic if present, don't just repeat it.\n"
    + "    - Cite information using [Page X] or [Web X] format.\n"
    + "    - If the answer is not in the context, say \"I cannot find that information.\"\n"
    + "    "

  /** The instructions that open every prompt: `textwrap.dedent(...).strip()`. */
  function SystemText(): string {
    Text.PyStrip(Textwrap.Dedent(SystemTemplate))
  }

  /** The metadata stored with a chunk; only its page number is read. */
  datatype ChunkMeta = ChunkMeta(page: Option<int>)

  /** A chunk returned by the semantic search: `{"text": ..., "meta": {...}}`, either part may be missing. */
  datatype Retrieved = Retrieved(text: Option<string>, meta: Option<ChunkMeta>)

  /** A web search hit: `{"title", "url", "snippet"}`, any of them may be missing. */
  datatype WebSource = WebSource(title: Option<string>, url: Option<string>, snippet: Option<string>)

  /** `(x or "")` for an optional string. */
  function OrEmpty(s: Option<string>): string {
    s.GetOr("")
  }

  /** `(ch.get("text") or "").strip()`. */
  function ChunkText(ch: Retrieved): string {
    Text.PyStrip(OrEmpty(ch.text))
  }

  /** `meta.get("page", "?")` as the f-string renders it. */
  function PageLabel(ch: Retrieved): string {
    match ch.meta
    case None => "?"
    case Some(m) => if m.page.Some? then Text.IntToString(m.page.value) else "?"
  }

  /** The block of one chunk: its page label, then its whole stripped text. */
  function Block(ch: Retrieved): string {
    "[Page " + PageLabel(ch) + "]:\n" + ChunkText(ch)
  }

  /** The blocks of the chunks whose stripped text is not empty, in order. */
  function Blocks(chunks: seq<Retrieved>): seq<string> {
    if chunks == [] then []
    else
      var last := chunks[|chunks| - 1];
      Blocks(chunks[..|chunks| - 1]) + (if ChunkText(last) != "" then [Block(last)] else [])
  }

  /** The chunks the prompt looks at: the first ten. */
  function Considered(chunks: seq<Retrieved>): seq<Retrieved> {
    if |chunks| <= MaxChunks then chunks else chunks[..MaxChunks]
  }

  /** `chunks_joined`. */
  function Context(chunks: seq<Retrieved>): string {
    var blocks := Blocks(Considered(chunks));
    if blocks != [] then Text.Join(blocks, "\n\n") else NoPdfText
  }

  /** The title of a hit, `"Web Source"` when missing or empty, stripped. */
  function WebTitle(w: WebSource): string {
    Text.PyStrip(if w.title.None? || w.title.value == "" then DefaultWebTitle else w.title.value)
  }

  /** The snippet of a hit, stripped and on one line. */
  function WebSnippet(w: WebSource): (r: string)
    ensures '\n' !in r
  {
    Text.ReplaceChar(Text.PyStrip(OrEmpty(w.snippet)), '\n', ' ')
  }

  /** The line for the `j`-th hit, counting from 1. */
  function WebLine(j: nat, w: WebSource): string {
    "[Web " + Text.NatToString(j) + "] " + WebTitle(w) + " (" + Text.PyStrip(OrEmpty(w.url)) + "): " + WebSnippet(w)
  }

  function WebLines(ws: seq<WebSource>): seq<string> {
    if ws == [] then [] else WebLines(ws[..|ws| - 1]) + [WebLine(|ws|, ws[|ws| - 1])]
  }

  /** `mode.lower() == "hybrid"`; no character outside ASCII lower-cases into the letters of "hybrid". */
  predicate IsHybrid(mode: string) {
    Text.LowerAscii(mode) == "hybrid"
  }

  /** `web_block`: present only in hybrid mode with at least one hit. */
  function WebBlock(web: Option<seq<WebSource>>, mode: string): string {
    if IsHybrid(mode) && web.Some? && web.value != [] then
      "\n\nWeb Sources:\n" + Text.Join(WebLines(web.value), "\n")
    else ""
  }

  /** The f-string of the user block as written, its lines indented by four blanks. */
  function UserTemplate(query: string, context: string, webBlock: string): string {
    "\n    USER QUERY: " + query + "\n\n    DOCUMENT CONTEXT:\n    " + context + "\n\n    " + webBlock + "\n    "
  }

  /** The user block before the cap: `textwrap.dedent(f"""...""").strip()`. */
  function UserBlock(query: string, context: string, webBlock: string): string {
    Text.PyStrip(Textwrap.Dedent(UserTemplate(query, context, webBlock)))
  }

  /** `_format_prompt(query, pdf_chunks, web_sources, mode)`. */
  function Prompt(query: string, chunks: seq<Retrieved>, web: Option<seq<WebSource>>, mode: string): string {
    SystemText() + "\n\n" + TruncateTokens(Some(UserBlock(query, Context(chunks), WebBlock(web, mode))), MaxUserBlock)
  }

  /** The first loop of `_format_prompt`, appending a block per chunk with text. */
  method CollectBlocks(considered: seq<Retrieved>) returns (blocks: seq<string>)
    ensures blocks == Blocks(considered)
  {
    blocks := [];
    for i := 0 to |considered|
      invariant blocks == Blocks(considered[..i])
    {
      assert considered[..i + 1][..i] == considered[..i];
      var text := ChunkText(considered[i]);
      if text != "" {
        blocks := blocks + ["[Page " + PageLabel(considered[i]) + "]:\n" + text];
      }
    }
    assert considered[..|considered|] == considered;
  }

  /** The loop over the web hits, `enumerate(web_sources, 1)`. */
  method CollectWebLines(ws: seq<WebSource>) returns (lines: seq<string>)
    ensures lines == WebLines(ws)
  {
    lines := [];
    for j := 0 to |ws|
      invariant lines == WebLines(ws[..j])
    {
      assert ws[..j + 1][..j] == ws[..j];
      lines := lines + [WebLine(j + 1, ws[j])];
    }
    assert ws[..|ws|] == ws;
  }

  /** `_format_prompt(query, pdf_chunks, web_sources, mode)`, built as the source builds it. */
  method FormatPrompt(query: string, chunks: seq<Retrieved>, web: Option<seq<WebSource>>, mode: string)
    returns (prompt: string)
    ensures prompt == Prompt(query, chunks, web, mode)
  {
    var blocks := CollectBlocks(if |chunks| <= MaxChunks then chunks else chunks[..MaxChunks]);
    var joined := if blocks != [] then Text.Join(blocks, "\n\n") else NoPdfText;
    var webBlock := "";
    if IsHybrid(mode) && web.Some? && web.value != [] {
      var lines := CollectWebLines(web.value);
      webBlock := "\n\nWeb Sources:\n" + Text.Join(lines, "\n");
    }
    assert joined == Context(chunks);
    assert webBlock == WebBlock(web, mode);
    var user := UserBlock(query, joined, webBlock);
    prompt := SystemText() + "\n\n" + TruncateTokens(Some(user), MaxUserBlock);
  }

  /** The instructions are never cut: only the user block is capped. */
  lemma PromptKeepsSystemText(query: string, chunks: seq<Retrieved>, web: Option<seq<WebSource>>, mode: string)
    ensures var p := Prompt(query, chunks, web, mode);
      |SystemText()| + 2 <= |p| <= |SystemText()| + 2 + MaxUserBlock && p[..|SystemText()| + 2] == SystemText() + "\n\n"
  {
  }

  /** Chunks after the tenth have no effect on the prompt. */
  lemma OnlyFirstChunksCount(query: string, chunks: seq<Retrieved>, web: Option<seq<WebSource>>, mode: string)
    requires |chunks| >= MaxChunks
    ensures Prompt(query, chunks, web, mode) == Prompt(query, chunks[..MaxChunks], web, mode)
  {
    assert Considered(chunks[..MaxChunks]) == Considered(chunks);
  }

  /** With no chunk text left after stripping, the context is the fixed notice. */
  lemma {:induction false} NoTextNoBlocks(chunks: seq<Retrieved>)
    requires forall k :: 0 <= k < |chunks| ==> ChunkText(chunks[k]) == ""
    ensures Blocks(chunks) == []
    decreases |chunks|
  {
    if chunks != [] {
      NoTextNoBlocks(chunks[..|chunks| - 1]);
    }
  }

  lemma NoTextContext(chunks: seq<Retrieved>)
    requires forall k :: 0 <= k < |chunks| ==> ChunkText(chunks[k]) == ""
    ensures Context(chunks) == NoPdfText
  {
    NoTextNoBlocks(Considered(chunks));
  }

  /**
   * Chunks that all carry text each become one block, in order, holding the
   * whole stripped text: no per-chunk cap applies.
   */
  lemma {:induction false} BlocksOfTexts(chunks: seq<Retrieved>)
    requires forall k :: 0 <= k < |chunks| ==> ChunkText(chunks[k]) != ""
    ensures |Blocks(chunks)| == |chunks|
    ensures forall k :: 0 <= k < |chunks| ==> Blocks(chunks)[k] == Block(chunks[k])
    decreases |chunks|
  {
    if chunks != [] {
      var init := chunks[..|chunks| - 1];
      assert forall k :: 0 <= k < |init| ==> init[k] == chunks[k];
      BlocksOfTexts(init);
      BlocksSnoc(chunks);
      forall k | 0 <= k < |chunks|
        ensures Blocks(chunks)[k] == Block(chunks[k])
      {
        if k < |init| {
          assert Blocks(chunks)[k] == Blocks(init)[k];
          assert init[k] == chunks[k];
        } else {
          assert k == |chunks| - 1;
        }
      }
    }
  }

  lemma BlocksSnoc(chunks: seq<Retrieved>)
    requires chunks != [] && ChunkText(chunks[|chunks| - 1]) != ""
    ensures Blocks(chunks) == Blocks(chunks[..|chunks| - 1]) + [Block(chunks[|chunks| - 1])]
  {
  }

  /** The web block is there exactly in hybrid mode with a non-empty list of hits. */
  lemma WebBlockGate(web: Option<seq<WebSource>>, mode: string)
    ensures WebBlock(web, mode) != "" <==> IsHybrid(mode) && web.Some? && web.value != []
  {
  }

  /** The hits are numbered from 1 in list order, one line each. */
  lemma {:induction false} WebLinesNumbered(ws: seq<WebSource>)
    ensures |WebLines(ws)| == |ws|
    ensures forall j :: 0 <= j < |ws| ==> WebLines(ws)[j] == WebLine(j + 1, ws[j])
    decreases |ws|
  {
    if ws != [] {
      var init := ws[..|ws| - 1];
      WebLinesNumbered(init);
      assert WebLines(ws) == WebLines(init) + [WebLine(|ws|, ws[|ws| - 1])];
      forall j | 0 <= j < |ws|
        ensures WebLines(ws)[j] == WebLine(j + 1, ws[j])
      {
        if j < |init| {
          assert WebLines(ws)[j] == WebLines(init)[j];
          assert init[j] == ws[j];
        } else {
          assert j == |ws| - 1;
        }
      }
    }
  }

  /**
   * `textwrap.dedent` runs after the interpolation, so the lines of retrieved
   * text and of the web block take part in the margin. A retrieved chunk's text
   * starts flush left after its page label, and "Web Sources:" starts flush
   * left: with either in the prompt the margin is empty and the four-blank
   * indentation of the template stays; only its lines of blanks are emptied.
   */
  lemma TemplateIndentKept(query: string, chunks: seq<Retrieved>, web: Option<seq<WebSource>>, mode: string)
    requires Blocks(Considered(chunks)) != [] || WebBlock(web, mode) != ""
    ensures var t := UserTemplate(query, Context(chunks), WebBlock(web, mode));
      UserBlock(query, Context(chunks), WebBlock(web, mode)) ==
      Text.PyStrip(Text.Join(Textwrap.BlankedLines(Text.Split(t, '\n')), "\n"))
  {
    var context := Context(chunks);
    var wb := WebBlock(web, mode);
    if Blocks(Considered(chunks)) != [] {
      var j := ContextFlush(chunks);
      ContextKeepsIndent(query, context, wb, j);
    } else {
      WebBlockFlush(web, mode);
      WebKeepsIndent(query, context, wb);
    }
  }

  lemma ContextKeepsIndent(query: string, context: string, webBlock: string, j: int)
    requires FlushAt(context, j)
    ensures UserBlock(query, context, webBlock) ==
      Text.PyStrip(Text.Join(Textwrap.BlankedLines(Text.Split(UserTemplate(query, context, webBlock), '\n')), "\n"))
  {
    var pre := "\n    USER QUERY: " + query + "\n\n    DOCUMENT CONTEXT:\n    ";
    var post := "\n\n    " + webBlock + "\n    ";
    assert UserTemplate(query, context, webBlock) == pre + context + post;
    FlushAtShift(pre, context, post, j);
    UserBlockKept(query, context, webBlock, |pre| + j);
  }

  lemma WebKeepsIndent(query: string, context: string, webBlock: string)
    requires FlushAt(webBlock, 2)
    ensures UserBlock(query, context, webBlock) ==
      Text.PyStrip(Text.Join(Textwrap.BlankedLines(Text.Split(UserTemplate(query, context, webBlock), '\n')), "\n"))
  {
    var mid := "\n    USER QUERY: " + query + "\n\n    DOCUMENT CONTEXT:\n    " + context + "\n\n    ";
    assert UserTemplate(query, context, webBlock) == mid + webBlock + "\n    ";
    FlushAtShift(mid, webBlock, "\n    ", 2);
    UserBlockKept(query, context, webBlock, |mid| + 2);
  }

  lemma UserBlockKept(query: string, context: string, webBlock: string, i: int)
    requires FlushAt(UserTemplate(query, context, webBlock), i)
    ensures UserBlock(query, context, webBlock) ==
      Text.PyStrip(Text.Join(Textwrap.BlankedLines(Text.Split(UserTemplate(query, context, webBlock), '\n')), "\n"))
  {
    Textwrap.FlushCharKeepsIndent(UserTemplate(query, context, webBlock), i);
  }

  lemma FlushAtShift(a: string, t: string, b: string, j: int)
    requires FlushAt(t, j)
    ensures FlushAt(a + t + b, |a| + j)
  {
    assert (a + t + b)[|a| + j] == t[j] && (a + t + b)[|a| + j - 1] == t[j - 1];
  }

  lemma WebBlockFlush(web: Option<seq<WebSource>>, mode: string)
    requires WebBlock(web, mode) != ""
    ensures FlushAt(WebBlock(web, mode), 2)
  {
    HeaderFlush(Text.Join(WebLines(web.value), "\n"));
  }

  lemma HeaderFlush(body: string)
    ensures FlushAt("\n\nWeb Sources:\n" + body, 2)
  {
    var wb := "\n\nWeb Sources:\n" + body;
    assert wb[1] == '\n' && wb[2] == 'W';
  }

  /** Where the text of the first retrieved block starts in the context. */
  lemma ContextFlush(chunks: seq<Retrieved>) returns (j: int)
    requires Blocks(Considered(chunks)) != []
    ensures FlushAt(Context(chunks), j)
  {
    var blocks := Blocks(Considered(chunks));
    j := BlocksFlushHead(Considered(chunks));
    JoinHead(blocks, "\n\n");
    assert Context(chunks)[j] == blocks[0][j] && Context(chunks)[j - 1] == blocks[0][j - 1];
  }

  /** A line feed at `i - 1` followed by a character that starts a line flush left. */
  predicate FlushAt(t: string, i: int) {
    0 < i < |t| && t[i - 1] == '\n' && !Textwrap.IsIndentChar(t[i]) && t[i] != '\n'
  }

  /** The first block of the context has its text flush left after the label line. */
  lemma {:induction false} BlocksFlushHead(chunks: seq<Retrieved>) returns (j: int)
    requires Blocks(chunks) != []
    ensures FlushAt(Blocks(chunks)[0], j)
    decreases |chunks|
  {
    var init := chunks[..|chunks| - 1];
    var last := chunks[|chunks| - 1];
    if Blocks(init) != [] {
      j := BlocksFlushHead(init);
      assert Blocks(chunks)[0] == Blocks(init)[0];
    } else {
      assert ChunkText(last) != "";
      BlocksSnoc(chunks);
      j := BlockFlush(last);
    }
  }

  /** A block's text starts on the line after its label. */
  lemma BlockFlush(ch: Retrieved) returns (j: int)
    requires ChunkText(ch) != ""
    ensures FlushAt(Block(ch), j)
  {
    var head := "[Page " + PageLabel(ch) + "]:\n";
    var text := ChunkText(ch);
    assert !Text.IsPySpace(text[0]);
    assert Text.IsPySpace(' ') && Text.IsPySpace('\t') && Text.IsPySpace('\n');
    assert Block(ch) == head + text;
    j := |head|;
    assert Block(ch)[j] == text[0];
  }

  lemma {:induction false} JoinHead(parts: seq<string>, sep: string)
    requires parts != []
    ensures parts[0] <= Text.Join(parts, sep)
  {
    if |parts| > 1 {
      assert Text.Join(parts, sep) == parts[0] + (sep + Text.Join(parts[1..], sep));
    }
  }

  // ---------------------------------------------------------------------------
  // Model choice

  /** One entry of `genai.list_models()`. */
  datatype ModelInfo = ModelInfo(name: string, methods: seq<string>)

  const Priorities: seq<string> := ["gemini-1.5-flash", "gemini-1.5-pro", "gemini-pro"]
  const FallbackModel: string := "gemini-pro"

  /** The names of the models that support `generateContent`, in listing order. */
  function Available(models: seq<ModelInfo>): seq<string> {
    if models == [] then []
    else
      var last := models[|models| - 1];
      Available(models[..|models| - 1]) + (if "generateContent" in last.methods then [last.name] else [])
  }

  predicate NoneContains(names: seq<string>, p: string) {
    forall k :: 0 <= k < |names| ==> !Text.Contains(names[k], p)
  }

  /**
   * `_get_working_model()`. `hasKey` is whether an API key is set and `listing`
   * the outcome of listing the models (`Err` when it raises). With a key, the
   * choice is the first available name containing the first priority that any
   * available name contains; failing that the first available name; failing
   * that, or when the listing fails, `"gemini-pro"`.
   */
  method GetWorkingModel(hasKey: bool, listing: Result<seq<ModelInfo>>) returns (r: Option<string>)
    ensures !hasKey <==> r.None?
    ensures hasKey && listing.Err? ==> r == Some(FallbackModel)
    ensures hasKey && listing.Ok? ==>
      var names := Available(listing.value);
      r.Some? &&
      ((exists q :: 0 <= q < |Priorities| && Chosen(names, q, r.value)) ||
       ((forall q :: 0 <= q < |Priorities| ==> NoneContains(names, Priorities[q])) &&
        r.value == (if names != [] then names[0] else FallbackModel)))
  {
    if !hasKey {
      return None;
    }
    if listing.Err? {
      return Some(FallbackModel);
    }
    var available: seq<string> := [];
    for i := 0 to |listing.value|
      invariant available == Available(listing.value[..i])
    {
      assert listing.value[..i + 1][..i] == listing.value[..i];
      var m := listing.value[i];
      if "generateContent" in m.methods {
        available := available + [m.name];
      }
    }
    assert listing.value[..|listing.value|] == listing.value;
    for q := 0 to |Priorities|
      invariant forall q' :: 0 <= q' < q ==> NoneContains(available, Priorities[q'])
    {
      for j := 0 to |available|
        invariant forall k :: 0 <= k < j ==> !Text.Contains(available[k], Priorities[q])
      {
        if Text.Contains(available[j], Priorities[q]) {
          assert Chosen(available, q, available[j]);
          return Some(available[j]);
        }
      }
    }
    if |available| > 0 {
      return Some(available[0]);
    }
    return Some(FallbackModel);
  }

  /**
   * `name` is what the scan returns at priority `q`: no available name holds a
   * higher priority, and `name` is the first that holds this one.
   */
  predicate Chosen(names: seq<string>, q: nat, name: string)
    requires q < |Priorities|
  {
    (forall q' :: 0 <= q' < q ==> NoneContains(names, Priorities[q'])) &&
    exists j :: 0 <= j < |names| && names[j] == name && Text.Contains(name, Priorities[q]) &&
      forall k :: 0 <= k < j ==> !Text.Contains(names[k], Priorities[q])
  }

  /** At most one name is chosen, and at one priority only: the choice is determined by the listing. */
  lemma ChosenUnique(names: seq<string>, q1: nat, n1: string, q2: nat, n2: string)
    requires q1 < |Priorities| && q2 < |Priorities|
    requires Chosen(names, q1, n1) && Chosen(names, q2, n2)
    ensures q1 == q2 && n1 == n2
  {
    var j1 :| 0 <= j1 < |names| && names[j1] == n1 && Text.Contains(n1, Priorities[q1]) &&
      forall k :: 0 <= k < j1 ==> !Text.Contains(names[k], Priorities[q1]);
    var j2 :| 0 <= j2 < |names| && names[j2] == n2 && Text.Contains(n2, Priorities[q2]) &&
      forall k :: 0 <= k < j2 ==> !Text.Contains(names[k], Priorities[q2]);
  }
}
