/**
 * Splitting the text of a PDF's pages into overlapping windows for indexing
 * (app/server/pdf_parser.py, `chunk_pages`). Each page is cut into windows of at
 * most `chunkSize` characters, each starting `overlap` characters before the
 * previous one ended; a window's stripped text is kept only when it is not blank.
 */
module PdfParser {
  import opened Wrappers
  import Text

  /** The sizes the indexing task passes (app/server/tasks.py, line 21), also the defaults. */
  const DefaultChunkSize: nat := 1000
  const DefaultOverlap: nat := 200

  /** One page from the extractor: its number and its text, which may be missing. */
  datatype Page = Page(page: int, text: Option<string>)

  /** One chunk with its metadata: the page and the window `[start, end)` it was cut from. */
  datatype Chunk = Chunk(text: string, page: int, start: nat, end: nat)

  /** `p.get("text", "") or ""`. */
  function PageText(p: Page): string {
    p.text.GetOr("")
  }

  /** The sizes must let every window move forward: `overlap < chunkSize`. */
  predicate ValidSizes(chunkSize: nat, overlap: nat) {
    overlap < chunkSize
  }

  /** The end of the window that starts at `start`. */
  function WindowEnd(len: nat, start: nat, chunkSize: nat): nat {
    if start + chunkSize < len then start + chunkSize else len
  }

  /** Where the next window starts: `overlap` before this end, but not before 0. */
  function NextStart(end: nat, overlap: nat): nat {
    if end >= overlap then end - overlap else 0
  }

  /** The chunks of the windows of `text` from the one starting at `start` on. */
  function Windows(text: string, page: int, start: nat, chunkSize: nat, overlap: nat): seq<Chunk>
    requires ValidSizes(chunkSize, overlap) && start < |text|
    decreases |text| - start
  {
    var end := WindowEnd(|text|, start, chunkSize);
    var piece := Text.PyStrip(text[start..end]);
    var here := if piece != "" then [Chunk(piece, page, start, end)] else [];
    if end == |text| then here
    else here + Windows(text, page, NextStart(end, overlap), chunkSize, overlap)
  }

  /** The chunks of one page; an empty page still yields one empty chunk at `[0, 0)`. */
  function PageChunks(p: Page, chunkSize: nat, overlap: nat): seq<Chunk>
    requires ValidSizes(chunkSize, overlap)
  {
    var text := PageText(p);
    if |text| == 0 then [Chunk("", p.page, 0, 0)]
    else Windows(text, p.page, 0, chunkSize, overlap)
  }

  /** The chunks of every page, page after page. */
  function AllChunks(pages: seq<Page>, chunkSize: nat, overlap: nat): seq<Chunk>
    requires ValidSizes(chunkSize, overlap)
  {
    if pages == [] then []
    else AllChunks(pages[..|pages| - 1], chunkSize, overlap) + PageChunks(pages[|pages| - 1], chunkSize, overlap)
  }

  /**
   * What a kept chunk is: a window of the page of at most `chunkSize`
   * characters, and its text is that window stripped, never blank.
   */
  predicate ChunkOf(c: Chunk, text: string, page: int, chunkSize: nat) {
    c.page == page && c.start < c.end <= |text| && c.end - c.start <= chunkSize
    && c.text != "" && c.text == Text.PyStrip(text[c.start..c.end])
  }

  /** Every window ends after the one before it starts: the scan moves forward. */
  lemma NextStartAdvances(len: nat, start: nat, chunkSize: nat, overlap: nat)
    requires ValidSizes(chunkSize, overlap) && start < len
    requires WindowEnd(len, start, chunkSize) < len
    ensures start < NextStart(WindowEnd(len, start, chunkSize), overlap) <= WindowEnd(len, start, chunkSize)
  {
  }

  lemma {:induction false} WindowsSound(text: string, page: int, start: nat, chunkSize: nat, overlap: nat)
    requires ValidSizes(chunkSize, overlap) && start < |text|
    ensures forall c :: c in Windows(text, page, start, chunkSize, overlap) ==>
      start <= c.start && ChunkOf(c, text, page, chunkSize)
    decreases |text| - start
  {
    var end := WindowEnd(|text|, start, chunkSize);
    var piece := Text.PyStrip(text[start..end]);
    var here := if piece != "" then [Chunk(piece, page, start, end)] else [];
    WindowsUnfold(text, page, start, chunkSize, overlap);
    HereSound(text, page, start, chunkSize);
    if end < |text| {
      var next := NextStart(end, overlap);
      var tail := Windows(text, page, next, chunkSize, overlap);
      NextStartAdvances(|text|, start, chunkSize, overlap);
      WindowsSound(text, page, next, chunkSize, overlap);
      SoundLater(tail, text, page, start, next, chunkSize);
      SoundConcat(here, tail, text, page, start, chunkSize);
    }
  }

  /** The window at `start` yields a chunk of the page, when it yields one. */
  lemma HereSound(text: string, page: int, start: nat, chunkSize: nat)
    requires 0 < chunkSize && start < |text|
    ensures var end := WindowEnd(|text|, start, chunkSize);
      var piece := Text.PyStrip(text[start..end]);
      forall c :: c in (if piece != "" then [Chunk(piece, page, start, end)] else []) ==>
        start <= c.start && ChunkOf(c, text, page, chunkSize)
  {
  }

  lemma SoundConcat(here: seq<Chunk>, tail: seq<Chunk>, text: string, page: int, start: nat, chunkSize: nat)
    requires forall c :: c in here ==> start <= c.start && ChunkOf(c, text, page, chunkSize)
    requires forall c :: c in tail ==> start <= c.start && ChunkOf(c, text, page, chunkSize)
    ensures forall c :: c in here + tail ==> start <= c.start && ChunkOf(c, text, page, chunkSize)
  {
  }

  /** Chunks starting at or after `next` start at or after any earlier `start`. */
  lemma SoundLater(tail: seq<Chunk>, text: string, page: int, start: nat, next: nat, chunkSize: nat)
    requires start <= next
    requires forall c :: c in tail ==> next <= c.start && ChunkOf(c, text, page, chunkSize)
    ensures forall c :: c in tail ==> start <= c.start && ChunkOf(c, text, page, chunkSize)
  {
  }

  lemma {:induction false} WindowsStartAfter(text: string, page: int, start: nat, chunkSize: nat, overlap: nat)
    requires ValidSizes(chunkSize, overlap) && start < |text|
    ensures forall c :: c in Windows(text, page, start, chunkSize, overlap) ==> start <= c.start
    decreases |text| - start
  {
    var end := WindowEnd(|text|, start, chunkSize);
    if end < |text| {
      NextStartAdvances(|text|, start, chunkSize, overlap);
      WindowsStartAfter(text, page, NextStart(end, overlap), chunkSize, overlap);
    }
  }

  /** The windows of the kept chunks start at strictly increasing positions. */
  predicate StartsIncrease(cs: seq<Chunk>) {
    forall i, j :: 0 <= i < j < |cs| ==> cs[i].start < cs[j].start
  }

  lemma {:induction false} WindowsOrdered(text: string, page: int, start: nat, chunkSize: nat, overlap: nat)
    requires ValidSizes(chunkSize, overlap) && start < |text|
    ensures StartsIncrease(Windows(text, page, start, chunkSize, overlap))
    decreases |text| - start
  {
    var end := WindowEnd(|text|, start, chunkSize);
    var piece := Text.PyStrip(text[start..end]);
    var here := if piece != "" then [Chunk(piece, page, start, end)] else [];
    WindowsUnfold(text, page, start, chunkSize, overlap);
    if end < |text| {
      var next := NextStart(end, overlap);
      NextStartAdvances(|text|, start, chunkSize, overlap);
      WindowsOrdered(text, page, next, chunkSize, overlap);
      WindowsStartAfter(text, page, next, chunkSize, overlap);
      OrderedConcat(here, Windows(text, page, next, chunkSize, overlap), start, next);
    }
  }

  lemma OrderedConcat(here: seq<Chunk>, tail: seq<Chunk>, start: nat, next: nat)
    requires |here| <= 1 && forall c :: c in here ==> c.start == start
    requires start < next && forall c :: c in tail ==> next <= c.start
    requires StartsIncrease(tail)
    ensures StartsIncrease(here + tail)
  {
    var w := here + tail;
    var h := |here|;
    forall i, j | 0 <= i < j < |w| ensures w[i].start < w[j].start {
      assert w[j] == tail[j - h];
      assert tail[j - h] in tail;
      if i < h {
        assert w[i] in here;
      } else {
        assert w[i] == tail[i - h];
      }
    }
  }

  /** Every character that is not whitespace lies inside some kept chunk's window. */
  lemma {:induction false} WindowsCover(text: string, page: int, start: nat, chunkSize: nat, overlap: nat, i: nat)
    requires ValidSizes(chunkSize, overlap) && start <= i < |text|
    requires !Text.IsPySpace(text[i])
    ensures exists c :: c in Windows(text, page, start, chunkSize, overlap) && c.start <= i < c.end
    decreases |text| - start
  {
    var end := WindowEnd(|text|, start, chunkSize);
    var window := text[start..end];
    if i < end {
      assert window[i - start] == text[i];
      assert !Text.AllSpace(window, Text.IsPySpace);
      var c := Chunk(Text.PyStrip(window), page, start, end);
      assert c in Windows(text, page, start, chunkSize, overlap);
    } else {
      NextStartAdvances(|text|, start, chunkSize, overlap);
      WindowsCover(text, page, NextStart(end, overlap), chunkSize, overlap, i);
    }
  }

  /** A page made only of whitespace yields no chunk. */
  lemma {:induction false} WindowsBlank(text: string, page: int, start: nat, chunkSize: nat, overlap: nat)
    requires ValidSizes(chunkSize, overlap) && start < |text|
    requires Text.AllSpace(text, Text.IsPySpace)
    ensures Windows(text, page, start, chunkSize, overlap) == []
    decreases |text| - start
  {
    var end := WindowEnd(|text|, start, chunkSize);
    var window := text[start..end];
    assert Text.AllSpace(window, Text.IsPySpace) by {
      forall k | 0 <= k < |window| ensures Text.IsPySpace(window[k]) {
        assert window[k] == text[start + k];
      }
    }
    if end < |text| {
      NextStartAdvances(|text|, start, chunkSize, overlap);
      WindowsBlank(text, page, NextStart(end, overlap), chunkSize, overlap);
    }
  }

  /**
   * The chunks of a page: an empty page gives only the placeholder; otherwise
   * every chunk is a stripped, non-blank window of the page.
   */
  lemma PageChunksSound(p: Page, chunkSize: nat, overlap: nat)
    requires ValidSizes(chunkSize, overlap)
    ensures PageText(p) == "" ==> PageChunks(p, chunkSize, overlap) == [Chunk("", p.page, 0, 0)]
    ensures PageText(p) != "" ==>
      forall c :: c in PageChunks(p, chunkSize, overlap) ==> ChunkOf(c, PageText(p), p.page, chunkSize)
  {
    if PageText(p) != "" {
      WindowsSound(PageText(p), p.page, 0, chunkSize, overlap);
    }
  }

  lemma PageChunksOrdered(p: Page, chunkSize: nat, overlap: nat)
    requires ValidSizes(chunkSize, overlap)
    ensures StartsIncrease(PageChunks(p, chunkSize, overlap))
  {
    if PageText(p) != "" {
      WindowsOrdered(PageText(p), p.page, 0, chunkSize, overlap);
    }
  }

  lemma PageChunksCover(p: Page, chunkSize: nat, overlap: nat, i: nat)
    requires ValidSizes(chunkSize, overlap)
    requires i < |PageText(p)| && !Text.IsPySpace(PageText(p)[i])
    ensures exists c :: c in PageChunks(p, chunkSize, overlap) && c.start <= i < c.end
  {
    WindowsCover(PageText(p), p.page, 0, chunkSize, overlap, i);
  }

  lemma BlankPageNoChunks(p: Page, chunkSize: nat, overlap: nat)
    requires ValidSizes(chunkSize, overlap)
    requires PageText(p) != "" && Text.AllSpace(PageText(p), Text.IsPySpace)
    ensures PageChunks(p, chunkSize, overlap) == []
  {
    WindowsBlank(PageText(p), p.page, 0, chunkSize, overlap);
  }

  /** Every chunk of the whole run comes from one of the pages and carries that page's number. */
  lemma {:induction false} AllChunksFromPages(pages: seq<Page>, chunkSize: nat, overlap: nat)
    requires ValidSizes(chunkSize, overlap)
    ensures forall c :: c in AllChunks(pages, chunkSize, overlap) ==>
      exists j :: 0 <= j < |pages| && c in PageChunks(pages[j], chunkSize, overlap) && c.page == pages[j].page
    decreases |pages|
  {
    if pages != [] {
      var init := pages[..|pages| - 1];
      var last := pages[|pages| - 1];
      AllChunksFromPages(init, chunkSize, overlap);
      forall c | c in AllChunks(pages, chunkSize, overlap)
        ensures exists j :: 0 <= j < |pages| && c in PageChunks(pages[j], chunkSize, overlap) && c.page == pages[j].page
      {
        if c in AllChunks(init, chunkSize, overlap) {
          var j :| 0 <= j < |init| && c in PageChunks(init[j], chunkSize, overlap) && c.page == init[j].page;
          assert pages[j] == init[j];
        } else {
          assert c in PageChunks(last, chunkSize, overlap);
          PageChunksSound(last, chunkSize, overlap);
          assert pages[|pages| - 1] == last;
        }
      }
    }
  }

  /** `chunk_pages(pages, chunk_size, overlap)`. */
  method ChunkPages(pages: seq<Page>, chunkSize: nat, overlap: nat) returns (chunks: seq<Chunk>)
    requires ValidSizes(chunkSize, overlap)
    ensures chunks == AllChunks(pages, chunkSize, overlap)
  {
    chunks := [];
    for i := 0 to |pages|
      invariant chunks == AllChunks(pages[..i], chunkSize, overlap)
    {
      assert pages[..i + 1][..i] == pages[..i];
      var cs := ChunkPage(pages[i], chunkSize, overlap);
      chunks := chunks + cs;
    }
    assert pages[..|pages|] == pages;
  }

  /** The body of the loop over pages: the windows of one page. */
  method ChunkPage(p: Page, chunkSize: nat, overlap: nat) returns (chunks: seq<Chunk>)
    requires ValidSizes(chunkSize, overlap)
    ensures chunks == PageChunks(p, chunkSize, overlap)
  {
    var text := PageText(p);
    var length := |text|;
    if length == 0 {
      return [Chunk("", p.page, 0, 0)];
    }
    chunks := [];
    var start: int := 0;
    while start < length
      invariant 0 <= start < length
      invariant chunks + Windows(text, p.page, start, chunkSize, overlap) == PageChunks(p, chunkSize, overlap)
      decreases length - start
    {
      var end := if length < start + chunkSize then length else start + chunkSize;
      var chunkText := Text.PyStrip(text[start..end]);
      WindowsUnfold(text, p.page, start, chunkSize, overlap);
      ghost var done := chunks;
      ghost var here := if chunkText != "" then [Chunk(chunkText, p.page, start, end)] else [];
      if chunkText != "" {
        chunks := chunks + [Chunk(chunkText, p.page, start, end)];
      }
      assert chunks == done + here;
      if end == length {
        break;
      }
      ghost var rest := Windows(text, p.page, NextStart(end, overlap), chunkSize, overlap);
      start := end - overlap;
      if start < 0 {
        start := 0;
      }
      assert start == NextStart(end, overlap);
      AppendAssoc(done, here, rest);
    }
  }

  lemma AppendAssoc<T>(a: seq<T>, b: seq<T>, c: seq<T>)
    ensures (a + b) + c == a + (b + c)
  {
  }

  lemma WindowsUnfold(text: string, page: int, start: nat, chunkSize: nat, overlap: nat)
    requires ValidSizes(chunkSize, overlap) && start < |text|
    ensures var end := WindowEnd(|text|, start, chunkSize);
      var piece := Text.PyStrip(text[start..end]);
      var here := if piece != "" then [Chunk(piece, page, start, end)] else [];
      Windows(text, page, start, chunkSize, overlap) ==
        if end == |text| then here else here + Windows(text, page, NextStart(end, overlap), chunkSize, overlap)
  {
  }
}
