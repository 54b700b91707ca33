/**
 * Python's `textwrap.dedent`: lines made only of blanks and tabs are emptied,
 * then the longest run of leading blanks and tabs that every other line shares
 * is removed from the start of each line.
 */
module Textwrap {
  import opened Wrappers
  import Text

  predicate IsIndentChar(c: char) {
    c == ' ' || c == '\t'
  }

  /** A line made only of blanks and tabs (or empty): emptied, and no part of the margin. */
  predicate AllIndent(line: string) {
    forall i :: 0 <= i < |line| ==> IsIndentChar(line[i])
  }

  /** The number of leading blanks and tabs. */
  function IndentLen(line: string): (n: nat)
    ensures n <= |line|
    ensures forall i :: 0 <= i < n ==> IsIndentChar(line[i])
    ensures n < |line| ==> !IsIndentChar(line[n])
    decreases |line|
  {
    if line != [] && IsIndentChar(line[0]) then 1 + IndentLen(line[1..]) else 0
  }

  function Indent(line: string): string {
    line[..IndentLen(line)]
  }

  /** The first substitution of `dedent`: a line of blanks and tabs only becomes empty. */
  function Blanked(line: string): (r: string)
    ensures r == [] || !AllIndent(r)
  {
    if AllIndent(line) then "" else line
  }

  function BlankedLines(lines: seq<string>): (r: seq<string>)
    ensures |r| == |lines|
    ensures forall k :: 0 <= k < |lines| ==> r[k] == Blanked(lines[k])
  {
    seq(|lines|, k requires 0 <= k < |lines| => Blanked(lines[k]))
  }

  predicate PrefixOfBoth(p: string, a: string, b: string) {
    p <= a && p <= b
  }

  /** The longest common prefix of two strings. */
  function CommonPrefix(a: string, b: string): (r: string)
    ensures PrefixOfBoth(r, a, b)
    ensures forall p :: PrefixOfBoth(p, a, b) ==> p <= r
    decreases |a|
  {
    if a != [] && b != [] && a[0] == b[0] then
      var t := CommonPrefix(a[1..], b[1..]);
      var r := [a[0]] + t;
      forall p | PrefixOfBoth(p, a, b)
        ensures p <= r
      {
        if p != [] {
          assert PrefixOfBoth(p[1..], a[1..], b[1..]);
          assert p == [p[0]] + p[1..];
        }
      }
      r
    else []
  }

  /** A line that contributes its indentation to the margin: one with a character other than a blank or a tab. */
  predicate Counts(line: string) {
    !AllIndent(line)
  }

  /**
   * The margin `dedent` computes: `None` when no line counts, otherwise the
   * indentations of the lines that count folded with the common prefix, which
   * is what each of the three branches of its loop computes.
   */
  function Margin(lines: seq<string>): Option<string> {
    if lines == [] then None
    else
      var before := Margin(lines[..|lines| - 1]);
      var last := lines[|lines| - 1];
      if !Counts(last) then before
      else if before.None? then Some(Indent(last))
      else Some(CommonPrefix(before.value, Indent(last)))
  }

  /** `re.sub('(?m)^' + margin, '', text)` on one line. */
  function StripMargin(line: string, margin: string): string {
    if margin <= line then line[|margin|..] else line
  }

  function StripMargins(lines: seq<string>, margin: string): (r: seq<string>)
    ensures |r| == |lines|
    ensures forall k :: 0 <= k < |lines| ==> r[k] == StripMargin(lines[k], margin)
  {
    seq(|lines|, k requires 0 <= k < |lines| => StripMargin(lines[k], margin))
  }

  /** `textwrap.dedent(text)`. */
  function Dedent(text: string): string {
    var lines := BlankedLines(Text.Split(text, '\n'));
    var margin := Margin(lines);
    if margin.Some? && margin.value != [] then Text.Join(StripMargins(lines, margin.value), "\n")
    else Text.Join(lines, "\n")
  }

  /** `p` begins the indentation of every line that counts. */
  predicate CommonIndent(p: string, lines: seq<string>) {
    forall k :: 0 <= k < |lines| && Counts(lines[k]) ==> p <= Indent(lines[k])
  }

  /**
   * The margin is the longest common indentation: it is a prefix of the
   * indentation of every line that counts, and every common prefix of those
   * indentations is a prefix of it. It is absent exactly when no line counts.
   */
  lemma {:induction false} MarginIsLongestCommonIndent(lines: seq<string>)
    ensures Margin(lines).None? <==> forall k :: 0 <= k < |lines| ==> !Counts(lines[k])
    ensures Margin(lines).Some? ==>
      (forall k :: 0 <= k < |lines| && Counts(lines[k]) ==> Margin(lines).value <= Indent(lines[k])) &&
      (forall p :: CommonIndent(p, lines) ==> p <= Margin(lines).value)
    decreases |lines|
  {
    if lines != [] {
      var init := lines[..|lines| - 1];
      var last := lines[|lines| - 1];
      MarginIsLongestCommonIndent(init);
      assert forall k :: 0 <= k < |init| ==> init[k] == lines[k];
      var m := Margin(lines);
      if m.Some? {
        forall p | CommonIndent(p, lines)
          ensures p <= m.value
        {
          assert CommonIndent(p, init);
          if Counts(last) {
            assert p <= Indent(lines[|lines| - 1]);
            if Margin(init).Some? {
              assert PrefixOfBoth(p, Margin(init).value, Indent(last));
            }
          }
        }
      }
    }
  }

  /** A margin, when there is one, is made of blanks and tabs only. */
  lemma {:induction false} MarginIsIndent(lines: seq<string>)
    ensures Margin(lines).Some? ==> AllIndent(Margin(lines).value)
    decreases |lines|
  {
    if lines != [] {
      MarginIsIndent(lines[..|lines| - 1]);
    }
  }

  /** A character just after a line feed (or at the start) begins one of the lines. */
  lemma {:induction false} LineStartIsALine(s: string, i: nat)
    requires i < |s| && (i == 0 || s[i - 1] == '\n') && s[i] != '\n'
    ensures exists k :: 0 <= k < |Text.Split(s, '\n')| && Text.Split(s, '\n')[k] != [] && Text.Split(s, '\n')[k][0] == s[i]
    decreases |s|
  {
    var parts := Text.Split(s, '\n');
    if '\n' !in s {
      assert i == 0 && parts[0] == s;
    } else {
      var j := Text.IndexOf(s, '\n');
      var rest := s[j + 1..];
      assert parts == [s[..j]] + Text.Split(rest, '\n');
      if i == 0 {
        assert j > 0 && parts[0][0] == s[0];
      } else {
        var i' := i - j - 1;
        assert rest[i'] == s[i];
        assert i' == 0 || rest[i' - 1] == s[i - 1];
        LineStartIsALine(rest, i');
        var k' :| 0 <= k' < |Text.Split(rest, '\n')| && Text.Split(rest, '\n')[k'] != [] && Text.Split(rest, '\n')[k'][0] == s[i];
        assert parts[k' + 1] == Text.Split(rest, '\n')[k'];
      }
    }
  }

  /**
   * One line that counts and starts flush left keeps `dedent` from removing
   * anything: only the lines of blanks and tabs change. Such a line exists as
   * soon as some line feed is followed by a character other than a blank, a
   * tab or another line feed.
   */
  lemma FlushCharKeepsIndent(text: string, i: nat)
    requires 0 < i < |text| && text[i - 1] == '\n'
    requires !IsIndentChar(text[i]) && text[i] != '\n'
    ensures Dedent(text) == Text.Join(BlankedLines(Text.Split(text, '\n')), "\n")
  {
    LineStartIsALine(text, i);
    var parts := Text.Split(text, '\n');
    var k :| 0 <= k < |parts| && parts[k] != [] && parts[k][0] == text[i];
    var lines := BlankedLines(parts);
    assert !AllIndent(parts[k]);
    assert lines[k] == parts[k] && IndentLen(parts[k]) == 0;
    MarginIsLongestCommonIndent(lines);
  }
}
