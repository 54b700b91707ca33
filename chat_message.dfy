/**
 * How one message of the log is shown (frontend/app/components/chat-message.tsx):
 * the "thinking" placeholder, the rewrite of page citations into in-page links,
 * what a click on such a link resolves to, and the row of source chips.
 */
module ChatMessage {
  import opened Wrappers
  import Text
  import ChatArea
  import Json

  type Message = ChatArea.Message

  /** An assistant message with no content yet is drawn as the pulsing placeholder. */
  predicate IsThinking(m: Message) {
    m.role == ChatArea.Assistant && m.content == ""
  }

  /**
   * The reply `handleSend` builds is the placeholder exactly as long as the
   * token records up to the last one have brought no text.
   */
  lemma ReplyThinkingUntilText(id: string, es: seq<ChatArea.Event>, captured: Option<Json.Json>)
    ensures var v := ChatArea.ApplyAll(ChatArea.Start(captured), es, captured);
      IsThinking(ChatArea.Message(id, ChatArea.Assistant, v.content, v.sources)) <==>
      ChatArea.Texts(es[..ChatArea.TokensEnd(es)]) == ""
  {
    ChatArea.FoldContent(ChatArea.Start(captured), es, captured);
    if ChatArea.TokensEnd(es) == 0 {
      assert es[..0] == [];
    }
  }

  // ---------------------------------------------------------------------------
  // The citation pattern /[([]?(?:PDF\s+)?(?:Page|p\.)\s*(\d+)[)\]]?/gi

  /** The length of the run of JavaScript whitespace at the start of `s` (`\s*`). */
  function SpaceRun(s: string): (n: nat)
    ensures n <= |s|
  {
    if s != [] && Text.IsJsSpace(s[0]) then 1 + SpaceRun(s[1..]) else 0
  }

  /** The length of the run of ASCII digits at the start of `s` (`\d*`). */
  function DigitRun(s: string): (n: nat)
    ensures n <= |s|
  {
    if s != [] && Text.IsDigit(s[0]) then 1 + DigitRun(s[1..]) else 0
  }

  /** The digit run is made of digits. */
  lemma {:induction false} DigitRunDigits(s: string)
    ensures Text.AllDigits(s[..DigitRun(s)])
    decreases |s|
  {
    if s != [] && Text.IsDigit(s[0]) {
      DigitRunDigits(s[1..]);
      assert s[..DigitRun(s)] == [s[0]] + s[1..][..DigitRun(s[1..])];
    }
  }

  /** `[([]?` */
  function OpenLen(s: string): nat {
    if s != [] && (s[0] == '(' || s[0] == '[') then 1 else 0
  }

  /** `(?:PDF\s+)?` under the `i` flag, which folds ASCII letters only. */
  function PdfLen(s: string): nat {
    if |s| >= 4 && Text.LowerChar(s[0]) == 'p' && Text.LowerChar(s[1]) == 'd' && Text.LowerChar(s[2]) == 'f'
       && Text.IsJsSpace(s[3])
    then 3 + SpaceRun(s[3..])
    else 0
  }

  /** `(?:Page|p\.)` under the `i` flag: 4, 2, or 0 when neither is there. */
  function KeywordLen(s: string): nat {
    if |s| >= 4 && Text.LowerChar(s[0]) == 'p' && Text.LowerChar(s[1]) == 'a' && Text.LowerChar(s[2]) == 'g'
       && Text.LowerChar(s[3]) == 'e'
    then 4
    else if |s| >= 2 && Text.LowerChar(s[0]) == 'p' && s[1] == '.' then 2
    else 0
  }

  /** A match of the pattern at the start of a text: its length and the page digits. */
  datatype Citation = Citation(len: nat, digits: string)

  /**
   * The match of the pattern at the start of `s`, if any. Every quantifier of the
   * pattern is greedy, and backing off any of them only puts a character in front
   * of the next part that it cannot start with, so the first choice is the only
   * one that can succeed.
   */
  function MatchAt(s: string): (r: Option<Citation>)
    ensures r.Some? ==> 0 < |r.value.digits| < r.value.len <= |s|
  {
    var a := OpenLen(s);
    var b := a + PdfLen(s[a..]);
    match Keyworded(s[b..])
    case None => None
    case Some(m) => Some(Citation(b + m.len, m.digits))
  }

  /** `(?:Page|p\.)\s*(\d+)[)\]]?` at the start of `t`. */
  function Keyworded(t: string): (r: Option<Citation>)
    ensures r.Some? ==> 0 < |r.value.digits| < r.value.len <= |t|
  {
    var k := KeywordLen(t);
    if k == 0 then None
    else match Numbered(t[k..])
      case None => None
      case Some(m) => Some(Citation(k + m.len, m.digits))
  }

  /** `\s*(\d+)[)\]]?` at the start of `t`. */
  function Numbered(t: string): (r: Option<Citation>)
    ensures r.Some? ==> 0 < |r.value.digits| <= r.value.len <= |t|
  {
    var c := SpaceRun(t);
    var u := t[c..];
    var d := DigitRun(u);
    if d == 0 then None
    else
      var close := if d < |u| && (u[d] == ')' || u[d] == ']') then 1 else 0;
      Some(Citation(c + d + close, u[..d]))
  }

  /** The page number of a match is a decimal digit string. */
  lemma MatchDigits(s: string)
    requires MatchAt(s).Some?
    ensures Text.AllDigits(MatchAt(s).value.digits)
  {
    var b := OpenLen(s) + PdfLen(s[OpenLen(s)..]);
    var t := s[b..];
    var u := t[KeywordLen(t)..];
    DigitRunDigits(u[SpaceRun(u)..]);
  }

  /** The in-page link a citation becomes. */
  function LinkHref(digits: string): string {
    "#page=" + digits
  }

  function Link(digits: string): string {
    "[Page " + digits + "](" + LinkHref(digits) + ")"
  }

  /** `content.replace(pattern, ...)` with the `g` flag: matches are replaced left to right. */
  function Linkify(s: string): string
    decreases |s|
  {
    if s == [] then []
    else match MatchAt(s)
      case Some(m) => Link(m.digits) + Linkify(s[m.len..])
      case None => [s[0]] + Linkify(s[1..])
  }

  /** `Page` or `p.`, optional whitespace, then a digit: what any match needs. */
  predicate CitationAt(t: string) {
    var k := KeywordLen(t);
    k > 0 && DigitFollows(t[k..])
  }

  predicate DigitFollows(u: string) {
    var c := SpaceRun(u);
    c < |u| && Text.IsDigit(u[c])
  }

  predicate NoCitation(s: string) {
    forall i :: 0 <= i < |s| ==> !CitationAt(s[i..])
  }

  lemma MatchNeedsCitation(s: string)
    ensures var b := OpenLen(s) + PdfLen(s[OpenLen(s)..]);
      MatchAt(s).Some? ==> b < |s| && CitationAt(s[b..])
  {
    var a := OpenLen(s);
    var b := a + PdfLen(s[a..]);
    if MatchAt(s).Some? {
      var t := s[b..];
      var k := KeywordLen(t);
      var u := t[k..];
      assert DigitRun(u[SpaceRun(u)..]) > 0;
    }
  }

  /** A text with no citation is shown exactly as written. */
  lemma {:induction false} LinkifyUnchanged(s: string)
    requires NoCitation(s)
    ensures Linkify(s) == s
    decreases |s|
  {
    if s != [] {
      MatchNeedsCitation(s);
      var b := OpenLen(s) + PdfLen(s[OpenLen(s)..]);
      assert b < |s| ==> !CitationAt(s[b..]);
      forall i | 0 <= i < |s[1..]|
        ensures !CitationAt(s[1..][i..])
      {
        assert s[1..][i..] == s[i + 1..];
      }
      LinkifyUnchanged(s[1..]);
    }
  }

  lemma LinkifyUnchangedWhenNoCitation(s: string)
    ensures NoCitation(s) ==> Linkify(s) == s
  {
    if NoCitation(s) {
      LinkifyUnchanged(s);
    }
  }

  /** A closing `)` or `]` right after the digits belongs to the match. */
  function Unclosed(rest: string): string {
    if rest != [] && (rest[0] == ')' || rest[0] == ']') then rest[1..] else rest
  }

  /** Nothing, or the optional opening bracket `[([]?`. */
  predicate Opening(open: string) {
    open == [] || (|open| == 1 && (open[0] == '(' || open[0] == '['))
  }

  /** Nothing, or the optional `PDF` word and its blanks `(?:PDF\s+)?`, in any ASCII case. */
  predicate PdfPrefix(pdf: string) {
    pdf == [] ||
    (|pdf| >= 4 && Text.LowerChar(pdf[0]) == 'p' && Text.LowerChar(pdf[1]) == 'd' && Text.LowerChar(pdf[2]) == 'f'
     && JsSpaces(pdf[3..]))
  }

  /**
   * A citation `Page N` or `p. N`, in any ASCII case, with any whitespace before
   * the digits, optionally bracketed and optionally after a `PDF` word and its
   * blanks, is replaced by `[Page N](#page=N)` with the same digit string, and
   * the rewrite goes on after it.
   */
  lemma CitationLinked(open: string, pdf: string, kw: string, ws: string, digits: string, rest: string)
    requires Opening(open)
    requires PdfPrefix(pdf)
    requires (|kw| == 4 || |kw| == 2) && KeywordLen(kw) == |kw|
    requires JsSpaces(ws)
    requires digits != [] && Text.AllDigits(digits)
    requires rest == [] || !Text.IsDigit(rest[0])
    ensures Linkify(open + (pdf + (kw + (ws + (digits + rest))))) == Link(digits) + Linkify(Unclosed(rest))
  {
    CitationMatch(open, pdf, kw, ws, digits, rest);
    LinkifyAtMatch(open + (pdf + (kw + (ws + (digits + rest)))), digits, Unclosed(rest));
  }

  lemma LinkifyAtMatch(s: string, digits: string, tail: string)
    requires MatchAt(s).Some? && MatchAt(s).value.digits == digits
    requires s[MatchAt(s).value.len..] == tail
    ensures Linkify(s) == Link(digits) + Linkify(tail)
  {
  }

  lemma CitationMatch(open: string, pdf: string, kw: string, ws: string, digits: string, rest: string)
    requires Opening(open)
    requires PdfPrefix(pdf)
    requires (|kw| == 4 || |kw| == 2) && KeywordLen(kw) == |kw|
    requires JsSpaces(ws)
    requires digits != [] && Text.AllDigits(digits)
    requires rest == [] || !Text.IsDigit(rest[0])
    ensures var s := open + (pdf + (kw + (ws + (digits + rest)))); var r := MatchAt(s);
      r.Some? && r.value.digits == digits && s[r.value.len..] == Unclosed(rest)
  {
    CitationMatchLen(open, pdf, kw, ws, digits, rest);
    CitationTail(open, pdf, kw, ws, digits, rest);
  }

  /** What is left after the digits and an optional closing bracket. */
  lemma CitationTail(open: string, pdf: string, kw: string, ws: string, digits: string, rest: string)
    ensures (open + (pdf + (kw + (ws + (digits + rest)))))[|open| + |pdf| + |kw| + |ws| + |digits| + (|rest| - |Unclosed(rest)|)..]
      == Unclosed(rest)
  {
    TailOf(open, pdf, kw, ws, digits, rest);
    UnclosedSuffix(open + (pdf + (kw + (ws + (digits + rest)))), |open| + |pdf| + |kw| + |ws| + |digits|, rest);
  }

  /** The match covers the prefix, the keyword, the blanks, the digits and a closing bracket. */
  lemma CitationMatchLen(open: string, pdf: string, kw: string, ws: string, digits: string, rest: string)
    requires Opening(open)
    requires PdfPrefix(pdf)
    requires (|kw| == 4 || |kw| == 2) && KeywordLen(kw) == |kw|
    requires JsSpaces(ws)
    requires digits != [] && Text.AllDigits(digits)
    requires rest == [] || !Text.IsDigit(rest[0])
    ensures var r := MatchAt(open + (pdf + (kw + (ws + (digits + rest)))));
      r.Some? && r.value == Citation(|open| + |pdf| + |kw| + |ws| + |digits| + (|rest| - |Unclosed(rest)|), digits)
  {
    KeywordCitation(kw, ws, digits, rest);
    PrefixedMatch(open, pdf, kw + (ws + (digits + rest)),
      Citation(|kw| + |ws| + |digits| + (|rest| - |Unclosed(rest)|), digits));
  }

  /** An optional bracket and an optional `PDF` word in front of a keyword match are read whole. */
  lemma PrefixedMatch(open: string, pdf: string, t: string, m: Citation)
    requires Opening(open)
    requires PdfPrefix(pdf)
    requires t != [] && Text.LowerChar(t[0]) == 'p' && PdfLen(t) == 0
    requires Keyworded(t).Some? && Keyworded(t).value == m
    ensures var r := MatchAt(open + (pdf + t)); r.Some? && r.value == Citation(|open| + |pdf| + m.len, m.digits)
  {
    var u := pdf + t;
    PdfOver(pdf, t);
    assert u[|pdf|..] == t;
    OpenLenOver(open, u);
    OpenOver(open, u, |pdf|, m);
  }

  /** The keyword part `(?:Page|p\.)\s*(\d+)[)\]]?` of a citation, read from its keyword on. */
  lemma KeywordCitation(kw: string, ws: string, digits: string, rest: string)
    requires (|kw| == 4 || |kw| == 2) && KeywordLen(kw) == |kw|
    requires JsSpaces(ws)
    requires digits != [] && Text.AllDigits(digits)
    requires rest == [] || !Text.IsDigit(rest[0])
    ensures var t3 := kw + (ws + (digits + rest)); var r := Keyworded(t3);
      r.Some? && r.value == Citation(|kw| + |ws| + |digits| + (|rest| - |Unclosed(rest)|), digits) &&
      t3 != [] && Text.LowerChar(t3[0]) == 'p' && PdfLen(t3) == 0
  {
    var t2 := ws + (digits + rest);
    var m := Citation(|ws| + |digits| + (|rest| - |Unclosed(rest)|), digits);
    NumberedOver(ws, digits, rest);
    KeywordedOver(kw, t2, m);
    KeywordStart(kw, t2);
  }

  lemma TailOf(open: string, pdf: string, kw: string, ws: string, digits: string, rest: string)
    ensures (open + (pdf + (kw + (ws + (digits + rest)))))[|open| + |pdf| + |kw| + |ws| + |digits|..] == rest
  {
  }

  /** After the digits, a closing bracket is consumed and the text after it is left. */
  lemma UnclosedSuffix(s: string, pre: nat, rest: string)
    requires pre <= |s| && s[pre..] == rest
    ensures s[pre + (|rest| - |Unclosed(rest)|)..] == Unclosed(rest)
  {
    assert s[pre + (|rest| - |Unclosed(rest)|)..] == s[pre..][|rest| - |Unclosed(rest)|..];
  }

  lemma NumberedOver(ws: string, digits: string, rest: string)
    requires JsSpaces(ws)
    requires digits != [] && Text.AllDigits(digits)
    requires rest == [] || !Text.IsDigit(rest[0])
    ensures var r := Numbered(ws + (digits + rest));
      r.Some? && r.value == Citation(|ws| + |digits| + (|rest| - |Unclosed(rest)|), digits)
  {
    var t := ws + (digits + rest);
    assert (digits + rest)[0] == digits[0];
    SpaceRunOver(ws, digits + rest);
    assert t[|ws|..] == digits + rest;
    DigitRunOver(digits, rest);
    assert (digits + rest)[..|digits|] == digits;
  }

  lemma KeywordedOver(kw: string, t: string, m: Citation)
    requires (|kw| == 4 || |kw| == 2) && KeywordLen(kw) == |kw|
    requires Numbered(t).Some? && Numbered(t).value == m
    ensures var r := Keyworded(kw + t); r.Some? && r.value == Citation(|kw| + m.len, m.digits)
  {
    KeywordStart(kw, t);
    assert (kw + t)[|kw|..] == t;
  }

  lemma OpenOver(open: string, t: string, p: nat, m: Citation)
    requires OpenLen(open + t) == |open|
    requires p <= |t| && PdfLen(t) == p
    requires Keyworded(t[p..]).Some? && Keyworded(t[p..]).value == m
    ensures var r := MatchAt(open + t); r.Some? && r.value == Citation(|open| + p + m.len, m.digits)
  {
    var s := open + t;
    assert s[|open|..] == t;
    assert s[|open| + p..] == t[p..];
  }

  lemma OpenLenOver(open: string, t: string)
    requires Opening(open)
    requires t != [] && Text.LowerChar(t[0]) == 'p'
    ensures OpenLen(open + t) == |open|
  {
    if open == [] {
      assert open + t == t;
    } else {
      assert (open + t)[0] == open[0];
    }
  }

  /** A `PDF` prefix in front of a keyword is read whole, and the keyword after it stays. */
  lemma PdfOver(pdf: string, t: string)
    requires PdfPrefix(pdf)
    requires t != [] && Text.LowerChar(t[0]) == 'p' && PdfLen(t) == 0
    ensures var u := pdf + t; u != [] && Text.LowerChar(u[0]) == 'p' && PdfLen(u) == |pdf|
  {
    var u := pdf + t;
    if pdf == [] {
      assert u == t;
    } else {
      assert u[0] == pdf[0] && u[1] == pdf[1] && u[2] == pdf[2] && u[3] == pdf[3];
      assert u[3..] == pdf[3..] + t;
      SpaceRunOver(pdf[3..], t);
    }
  }

  /** A keyword at the start of a text is found, and not read as a `PDF` prefix. */
  lemma KeywordStart(kw: string, t: string)
    requires (|kw| == 4 || |kw| == 2) && KeywordLen(kw) == |kw|
    ensures PdfLen(kw + t) == 0 && KeywordLen(kw + t) == |kw| && Text.LowerChar((kw + t)[0]) == 'p'
  {
    var s := kw + t;
    assert s[0] == kw[0] && s[1] == kw[1];
    if |kw| == 4 {
      assert s[2] == kw[2] && s[3] == kw[3];
    }
  }

  predicate JsSpaces(ws: string) {
    forall i :: 0 <= i < |ws| ==> Text.IsJsSpace(ws[i])
  }

  lemma {:induction false} SpaceRunOver(ws: string, t: string)
    requires JsSpaces(ws)
    requires t != [] && !Text.IsJsSpace(t[0])
    ensures SpaceRun(ws + t) == |ws|
    decreases |ws|
  {
    if ws == [] {
      assert ws + t == t;
    } else {
      assert (ws + t)[1..] == ws[1..] + t;
      SpaceRunOver(ws[1..], t);
    }
  }

  lemma {:induction false} DigitRunOver(digits: string, rest: string)
    requires Text.AllDigits(digits)
    requires rest == [] || !Text.IsDigit(rest[0])
    ensures DigitRun(digits + rest) == |digits|
    decreases |digits|
  {
    if digits == [] {
      assert digits + rest == rest;
    } else {
      assert (digits + rest)[1..] == digits[1..] + rest;
      DigitRunOver(digits[1..], rest);
    }
  }

  // ---------------------------------------------------------------------------
  // What a link in the rendered reply does

  predicate IsHexDigit(c: char) {
    Text.IsDigit(c) || 'a' <= c <= 'f' || 'A' <= c <= 'F'
  }

  function HexDigitValue(c: char): nat
    requires IsHexDigit(c)
  {
    if Text.IsDigit(c) then c as int - '0' as int
    else if 'a' <= c <= 'f' then c as int - 'a' as int + 10
    else c as int - 'A' as int + 10
  }

  function HexRun(s: string): (n: nat)
    ensures n <= |s|
    ensures forall i :: 0 <= i < n ==> IsHexDigit(s[i])
  {
    if s != [] && IsHexDigit(s[0]) then 1 + HexRun(s[1..]) else 0
  }

  function HexValue(d: string): nat
    requires forall i :: 0 <= i < |d| ==> IsHexDigit(d[i])
  {
    if d == [] then 0 else HexValue(d[..|d| - 1]) * 16 + HexDigitValue(d[|d| - 1])
  }

  /**
   * JavaScript's `parseInt(s)` without a radix: leading whitespace is skipped,
   * an optional sign is read, a `0x`/`0X` prefix selects base 16, and the longest
   * run of digits is read; `None` stands for `NaN` when there is none.
   */
  function ParseInt(s: string): Option<int> {
    var t := s[SpaceRun(s)..];
    var sign := if t != [] && t[0] == '-' then -1 else 1;
    var u := if t != [] && (t[0] == '-' || t[0] == '+') then t[1..] else t;
    if |u| >= 2 && u[0] == '0' && (u[1] == 'x' || u[1] == 'X') then
      var h := HexRun(u[2..]);
      if h == 0 then None else Some(sign * HexValue(u[2..][..h]))
    else
      var d := DigitRun(u);
      DigitRunDigits(u);
      if d == 0 then None else Some(sign * Text.DigitsValue(u[..d]))
  }

  /** What the renderer draws for a link: an ordinary anchor, or a button that jumps to a page. */
  datatype Anchor = External(href: Option<string>) | PageButton(page: Option<int>)

  /** `href?.startsWith('#page=')`, then `parseInt(href.split('=')[1])`. */
  function AnchorFor(href: Option<string>): Anchor {
    if href.Some? && "#page=" <= href.value then
      assert href.value[5] == '=';
      PageButton(ParseInt(Text.Split(href.value, '=')[1]))
    else External(href)
  }

  /** The link a citation becomes jumps to the page its digits name. */
  lemma PageLinkRoundTrip(digits: string)
    requires digits != [] && Text.AllDigits(digits)
    ensures AnchorFor(Some(LinkHref(digits))) == PageButton(Some(Text.DigitsValue(digits)))
  {
    var href := LinkHref(digits);
    assert "#page=" <= href;
    HrefSplit(digits);
    DigitsParse(digits);
  }

  /** The text after the `=` of a page link is its digits. */
  lemma HrefSplit(digits: string)
    requires digits != [] && Text.AllDigits(digits)
    ensures Text.Split(LinkHref(digits), '=')[1] == digits
  {
    var href := LinkHref(digits);
    assert href[5] == '=';
    assert '=' !in href[..5];
    var i := Text.IndexOf(href, '=');
    assert i == 5;
    assert href[i + 1..] == digits;
    assert '=' !in digits by {
      forall j | 0 <= j < |digits| ensures digits[j] != '=' {
        assert Text.IsDigit(digits[j]);
      }
    }
  }

  /** `parseInt` reads a digit string as its value. */
  lemma DigitsParse(digits: string)
    requires digits != [] && Text.AllDigits(digits)
    ensures ParseInt(digits) == Some(Text.DigitsValue(digits))
  {
    assert SpaceRun(digits) == 0;
    DigitRunOver(digits, "");
    assert digits + "" == digits;
    assert digits[..|digits|] == digits;
  }

  // ---------------------------------------------------------------------------
  // What is drawn

  /** The text handed to the Markdown renderer: a user's text verbatim, a reply with its links. */
  function Displayed(m: Message): (r: string)
    ensures m.role == ChatArea.User ==> r == m.content
    ensures m.role == ChatArea.Assistant && NoCitation(m.content) ==> r == m.content
  {
    if m.role == ChatArea.User then m.content
    else
      LinkifyUnchangedWhenNoCitation(m.content);
      Linkify(m.content)
  }

  /** The source chips below a message, in list order; none means the row is not drawn. */
  function SourceChips(m: Message): (r: seq<string>)
    ensures r != [] <==> m.role == ChatArea.Assistant && !IsThinking(m) && m.sources.Some? && m.sources.value != []
    ensures r != [] ==> r == m.sources.value
  {
    if m.role != ChatArea.User && !IsThinking(m) && m.sources.Some? then m.sources.value else []
  }
}
