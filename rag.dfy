/**
 * The retrieval step of a chat turn (app/server/rag.py): semantic search over
 * the user's collection, the optional web search in hybrid mode, the source
 * summaries sent to the client, and the arguments handed to the answer stream.
 */
module Rag {
  import opened Wrappers
  import Text
  import Llm

  const SnippetLength: nat := 200
  const DefaultTopK: nat := 5

  /** One entry of `sources.pdf`: `{"type": "pdf", "page": ..., "snippet": ...}`. */
  datatype PdfSource = PdfSource(kind: string, page: Option<int>, snippet: string)

  /** What `generate_answer_stream` is called with; the stream itself is the generator's. */
  datatype Generation = Generation(query: string, chunks: seq<Llm.Retrieved>, web: seq<Llm.WebSource>, mode: string)

  /** The value `run_agent` returns: the pending stream and the sources of the answer. */
  datatype Agent = Agent(stream: Generation, pdf: seq<PdfSource>, web: seq<Llm.WebSource>)

  /** `(item.get("text") or "").strip().replace("\n", " ")[:200]`. */
  function Snippet(item: Llm.Retrieved): (r: string)
    ensures |r| <= SnippetLength
    ensures '\n' !in r
    ensures var flat := Text.ReplaceChar(Text.PyStrip(Llm.OrEmpty(item.text)), '\n', ' ');
      r <= flat && |r| == (if |flat| <= SnippetLength then |flat| else SnippetLength)
  {
    var flat := Text.ReplaceChar(Text.PyStrip(Llm.OrEmpty(item.text)), '\n', ' ');
    if |flat| <= SnippetLength then flat else flat[..SnippetLength]
  }

  /** `meta.get("page")` with `meta = item.get("meta") or {}`. */
  function PageOf(item: Llm.Retrieved): (r: Option<int>)
    ensures r.Some? <==> item.meta.Some? && item.meta.value.page.Some?
  {
    if item.meta.Some? then item.meta.value.page else None
  }

  function SourceOf(item: Llm.Retrieved): PdfSource {
    PdfSource("pdf", PageOf(item), Snippet(item))
  }

  /** One summary per retrieved item, in order. */
  function PdfSources(items: seq<Llm.Retrieved>): (r: seq<PdfSource>)
    ensures |r| == |items|
  {
    if items == [] then [] else PdfSources(items[..|items| - 1]) + [SourceOf(items[|items| - 1])]
  }

  /**
   * `run_agent(query, collection_name, mode)`. `retrieved` is what
   * `semantic_search(collection_name, query, top_k)` returns and `search` the
   * outcome of rewriting the query and searching the web (`Err` when either
   * raises); `searched` reports whether that pipeline was started.
   */
  method RunAgent(query: string, mode: string, retrieved: seq<Llm.Retrieved>, search: Result<seq<Llm.WebSource>>)
    returns (agent: Agent, searched: bool)
    ensures searched <==> Llm.IsHybrid(mode)
    ensures agent.web == (if searched && search.Ok? then search.value else [])
    ensures agent.stream == Generation(query, retrieved, agent.web, Text.LowerAscii(mode))
    ensures agent.pdf == PdfSources(retrieved)
  {
    var web: seq<Llm.WebSource> := [];
    searched := false;
    if Text.LowerAscii(mode) == "hybrid" {
      searched := true;
      match search {
        case Ok(found) => web := found;
        case Err(_) => web := [];
      }
    }
    var pdf := CollectPdfSources(retrieved);
    agent := Agent(Generation(query, retrieved, web, Text.LowerAscii(mode)), pdf, web);
  }

  /** The loop of `run_agent` that appends one summary per retrieved item. */
  method CollectPdfSources(retrieved: seq<Llm.Retrieved>) returns (pdf: seq<PdfSource>)
    ensures pdf == PdfSources(retrieved)
  {
    pdf := [];
    for i := 0 to |retrieved|
      invariant pdf == PdfSources(retrieved[..i])
    {
      assert retrieved[..i + 1][..i] == retrieved[..i];
      pdf := pdf + [SourceOf(retrieved[i])];
    }
    assert retrieved[..|retrieved|] == retrieved;
  }

  /** Each retrieved item has its own summary at the same position, of type "pdf". */
  lemma {:induction false} PdfSourcesAt(items: seq<Llm.Retrieved>)
    ensures forall k :: 0 <= k < |items| ==>
      PdfSources(items)[k] == SourceOf(items[k]) && PdfSources(items)[k].kind == "pdf"
    decreases |items|
  {
    if items != [] {
      var init := items[..|items| - 1];
      PdfSourcesAt(init);
      forall k | 0 <= k < |items|
        ensures PdfSources(items)[k] == SourceOf(items[k])
      {
        if k < |init| {
          assert PdfSources(items)[k] == PdfSources(init)[k];
          assert init[k] == items[k];
        } else {
          assert k == |items| - 1;
        }
      }
    }
  }

  /** Lower-casing the mode before handing it on does not change whether it is hybrid. */
  lemma LoweredModeSameGate(mode: string)
    ensures Llm.IsHybrid(Text.LowerAscii(mode)) == Llm.IsHybrid(mode)
  {
    assert Text.LowerAscii(Text.LowerAscii(mode)) == Text.LowerAscii(mode);
  }

  /**
   * The web results the client is shown are the ones the prompt cites: the
   * prompt carries a web block exactly when the returned `web` list is not empty.
   */
  lemma PromptCitesReturnedWeb(agent: Agent, mode: string)
    requires agent.stream.mode == Text.LowerAscii(mode) && agent.web == agent.stream.web
    requires agent.web != [] ==> Llm.IsHybrid(mode)
    ensures Llm.WebBlock(Some(agent.stream.web), agent.stream.mode) != "" <==> agent.web != []
  {
    LoweredModeSameGate(mode);
  }
}
