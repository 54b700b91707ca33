/**
 * The client's line framing of a newline-delimited JSON stream. Each read appends
 * its text to a carried buffer, splits the buffer on '\n', hands every piece but
 * the last to the parser and keeps the last piece for the next read.
 */
module Framing {
  import Text

  /** What one read produces: the complete lines, and the buffer kept for the next read. */
  datatype Step = Step(lines: seq<string>, buffer: string)

  /** The '\n'-terminated lines of `text`, in order. */
  function CompleteLines(text: string): seq<string> {
    var pieces := Text.Split(text, '\n');
    pieces[..|pieces| - 1]
  }

  /** The unterminated fragment at the end of `text`. */
  function Remainder(text: string): string {
    var pieces := Text.Split(text, '\n');
    pieces[|pieces| - 1]
  }

  /** One read: `buffer += chunk; lines = buffer.split('\n'); buffer = lines.pop() || ""`. */
  function Feed(buffer: string, chunk: string): (r: Step)
    ensures '\n' !in r.buffer
    ensures forall k :: 0 <= k < |r.lines| ==> '\n' !in r.lines[k]
    ensures r.lines + [r.buffer] == Text.Split(buffer + chunk, '\n')
  {
    var pieces := Text.Split(buffer + chunk, '\n');
    assert pieces == pieces[..|pieces| - 1] + [pieces[|pieces| - 1]];
    Step(pieces[..|pieces| - 1], pieces[|pieces| - 1])
  }

  /** The text of a sequence of reads, in arrival order. */
  function Concat(chunks: seq<string>): string {
    if chunks == [] then [] else Concat(chunks[..|chunks| - 1]) + chunks[|chunks| - 1]
  }

  /** A whole exchange: every read fed in order, starting from an empty buffer. */
  function FeedAll(chunks: seq<string>): Step {
    if chunks == [] then Step([], [])
    else
      var before := FeedAll(chunks[..|chunks| - 1]);
      var step := Feed(before.buffer, chunks[|chunks| - 1]);
      Step(before.lines + step.lines, step.buffer)
  }

  /**
   * Chunking invariance: however the text is split into reads, the lines handed
   * to the parser are exactly the complete lines of the concatenated text, and
   * the buffer left over is its unterminated fragment.
   */
  lemma {:induction false} FeedAllIsChunkingInvariant(chunks: seq<string>)
    ensures FeedAll(chunks) == Step(CompleteLines(Concat(chunks)), Remainder(Concat(chunks)))
    decreases |chunks|
  {
    if chunks != [] {
      var prev := chunks[..|chunks| - 1];
      FeedAllIsChunkingInvariant(prev);
      FeedExtends(Concat(prev), chunks[|chunks| - 1]);
    }
  }

  /** Feeding `c` after the text `p` extends the complete lines of `p` to those of `p + c`. */
  lemma FeedExtends(p: string, c: string)
    ensures var step := Feed(Remainder(p), c);
      CompleteLines(p + c) == CompleteLines(p) + step.lines && Remainder(p + c) == step.buffer
  {
    var tail := Text.Split(Remainder(p) + c, '\n');
    SplitAfterLines(p, c);
    InitAppend(CompleteLines(p), tail);
    var step := Feed(Remainder(p), c);
    assert step.lines == tail[..|tail| - 1];
    assert step.buffer == tail[|tail| - 1];
  }

  /** Splitting `p + c` keeps the complete lines of `p` and splits the rest of the text afresh. */
  lemma SplitAfterLines(p: string, c: string)
    ensures Text.Split(p + c, '\n') == CompleteLines(p) + Text.Split(Remainder(p) + c, '\n')
  {
    var b := Remainder(p);
    var sc := Text.Split(c, '\n');
    Text.SplitAppend(p, c, '\n');
    Text.SplitAppend(b, c, '\n');
    assert Text.Split(b, '\n') == [b];
    LastSplit(Text.Split(p, '\n'));
    Text.FuseAppend(CompleteLines(p), [b], sc);
  }

  lemma LastSplit<T>(s: seq<T>)
    requires |s| >= 1
    ensures s == s[..|s| - 1] + [s[|s| - 1]]
  {
  }

  lemma InitAppend<T>(a: seq<T>, t: seq<T>)
    requires |t| >= 1
    ensures (a + t)[..|a + t| - 1] == a + t[..|t| - 1]
    ensures (a + t)[|a + t| - 1] == t[|t| - 1]
  {
  }

  /** Two chunkings of the same text deliver the same lines to the parser. */
  lemma SameTextSameLines(a: seq<string>, b: seq<string>)
    requires Concat(a) == Concat(b)
    ensures FeedAll(a) == FeedAll(b)
  {
    FeedAllIsChunkingInvariant(a);
    FeedAllIsChunkingInvariant(b);
  }

  /** The text of lines each followed by '\n', as a server writes them. */
  function Terminated(lines: seq<string>): string {
    if lines == [] then [] else Terminated(lines[..|lines| - 1]) + (lines[|lines| - 1] + "\n")
  }

  /**
   * A text made of '\n'-terminated lines frames back into exactly those lines and
   * leaves an empty buffer.
   */
  lemma {:induction false} TerminatedFramesBack(lines: seq<string>)
    requires forall k :: 0 <= k < |lines| ==> '\n' !in lines[k]
    ensures CompleteLines(Terminated(lines)) == lines
    ensures Remainder(Terminated(lines)) == ""
    decreases |lines|
  {
    if lines != [] {
      var init := lines[..|lines| - 1];
      var last := lines[|lines| - 1];
      var t := Terminated(init);
      assert Text.Split(t, '\n') == init + [""] by {
        TerminatedFramesBack(init);
        LastSplit(Text.Split(t, '\n'));
      }
      assert '\n' !in last;
      LineAfterLines(t, init, last);
      InitAppend(init, [last, ""]);
      LastSplit(lines);
    }
  }

  /** A text made of complete lines, followed by one more terminated line, has that line added. */
  lemma LineAfterLines(p: string, init: seq<string>, last: string)
    requires Text.Split(p, '\n') == init + [""]
    requires '\n' !in last
    ensures Text.Split(p + (last + "\n"), '\n') == init + [last, ""]
  {
    var q := last + "\n";
    Text.SplitAppend(p, q, '\n');
    TerminatedLine(last);
    FuseTerminated(init, last);
  }

  lemma FuseTerminated(init: seq<string>, last: string)
    ensures Text.Fuse(init + [""], [last, ""]) == init + [last, ""]
  {
    Text.FuseAppend(init, [""], [last, ""]);
    assert [last, ""] == [last] + [""];
    Text.FuseSingle("", last, [""]);
    assert "" + last == last;
  }

  lemma TerminatedLine(line: string)
    requires '\n' !in line
    ensures Text.Split(line + "\n", '\n') == [line, ""]
  {
    var s := line + "\n";
    assert s[|line|] == '\n';
    var i := Text.IndexOf(s, '\n');
    assert i == |line|;
    assert s[..i] == line;
    assert s[i + 1..] == "";
  }
}
