/**
 * JSON values as they cross the wire, Python's `json.dumps` with its default
 * settings (`ensure_ascii=True`, separators `", "` and `": "`), and the two
 * JavaScript views of a parsed value the client relies on: property lookup and
 * truthiness. Only integral numbers are modelled: no record of the protocol
 * carries any other kind.
 */
module Json {
  import opened Wrappers
  import Text

  datatype Json =
    | JNull
    | JBool(b: bool)
    | JInt(n: int)
    | JStr(s: string)
    | JArr(items: seq<Json>)
    | JObj(fields: seq<(string, Json)>)

  /** Printable ASCII, the only characters `json.dumps` emits with `ensure_ascii=True`. */
  predicate Printable(s: string) {
    forall i :: 0 <= i < |s| ==> ' ' <= s[i] <= '~'
  }

  function HexDigit(n: nat): (c: char)
    requires n < 16
    ensures ' ' <= c <= '~'
  {
    if n < 10 then ('0' as int + n) as char else ('a' as int + n - 10) as char
  }

  /** `\uXXXX` with four lower-case hexadecimal digits. */
  function UnicodeEscape(n: nat): (r: string)
    requires n < 0x10000
    ensures |r| == 6 && Printable(r)
  {
    ['\\', 'u', HexDigit(n / 4096), HexDigit(n / 256 % 16), HexDigit(n / 16 % 16), HexDigit(n % 16)]
  }

  /** How `json.dumps` writes one character inside a string literal. */
  function EscapeChar(c: char): (r: string)
    ensures |r| >= 1 && Printable(r)
  {
    var n := c as int;
    if c == '"' then "\\\""
    else if c == '\\' then "\\\\"
    else if c == '\n' then "\\n"
    else if c == '\r' then "\\r"
    else if c == '\t' then "\\t"
    else if n == 0x08 then "\\b"
    else if n == 0x0C then "\\f"
    else if ' ' <= c <= '~' then [c]
    else if n < 0x10000 then UnicodeEscape(n)
    else
      // a character outside the Basic Multilingual Plane becomes a surrogate pair
      var m := n - 0x10000;
      UnicodeEscape(0xD800 + m / 1024) + UnicodeEscape(0xDC00 + m % 1024)
  }

  function EscapeChars(s: string): (r: string)
    ensures Printable(r)
  {
    if s == [] then [] else EscapeChar(s[0]) + EscapeChars(s[1..])
  }

  function DumpsString(s: string): (r: string)
    ensures Printable(r)
  {
    "\"" + EscapeChars(s) + "\""
  }

  lemma {:induction false} JoinPrintable(parts: seq<string>, sep: string)
    requires Printable(sep)
    requires forall k :: 0 <= k < |parts| ==> Printable(parts[k])
    ensures Printable(Text.Join(parts, sep))
    decreases |parts|
  {
    if |parts| > 1 {
      JoinPrintable(parts[1..], sep);
    }
  }

  /**
   * Python's `json.dumps(v)`. Section 7 of RFC 8259 has control characters inside
   * strings escaped, so a serialized value never holds a line feed: it is one line.
   */
  function Dumps(v: Json): (r: string)
    ensures Printable(r)
    ensures '\n' !in r
    decreases v, 1
  {
    match v
    case JNull => "null"
    case JBool(b) => if b then "true" else "false"
    case JInt(n) => DumpsInt(n)
    case JStr(s) => DumpsString(s)
    case JArr(items) =>
      var parts := seq(|items|, k requires 0 <= k < |items| => Dumps(items[k]));
      JoinPrintable(parts, ", ");
      "[" + Text.Join(parts, ", ") + "]"
    case JObj(fields) =>
      var parts := seq(|fields|, k requires 0 <= k < |fields| => DumpsField(v, fields[k]));
      JoinPrintable(parts, ", ");
      "{" + Text.Join(parts, ", ") + "}"
  }

  function DumpsField(ghost parent: Json, f: (string, Json)): (r: string)
    requires f.1 < parent
    ensures Printable(r)
    decreases parent, 0
  {
    DumpsString(f.0) + ": " + Dumps(f.1)
  }

  function DumpsInt(n: int): (r: string)
    ensures Printable(r)
  {
    var r := Text.IntToString(n);
    assert Text.AllDigits(Text.NatToString(if n < 0 then -n else n));
    r
  }

  /** JavaScript's `obj[key]` on a parsed object: the last field with that key. */
  function Get(v: Json, key: string): (r: Option<Json>)
    ensures r.Some? ==> v.JObj? && exists k :: 0 <= k < |v.fields| && v.fields[k] == (key, r.value)
  {
    if v.JObj? then LastField(v.fields, key) else None
  }

  function LastField(fields: seq<(string, Json)>, key: string): (r: Option<Json>)
    ensures r.Some? ==> exists k :: 0 <= k < |fields| && fields[k] == (key, r.value)
    ensures r.None? ==> forall k :: 0 <= k < |fields| ==> fields[k].0 != key
  {
    if fields == [] then None
    else if fields[|fields| - 1].0 == key then Some(fields[|fields| - 1].1)
    else
      var r := LastField(fields[..|fields| - 1], key);
      assert forall k :: 0 <= k < |fields| - 1 ==> fields[..|fields| - 1][k] == fields[k];
      r
  }

  /** JavaScript truthiness of a parsed value (`undefined` is an absent Option). */
  predicate Truthy(v: Option<Json>) {
    match v
    case None => false
    case Some(JNull) => false
    case Some(JBool(b)) => b
    case Some(JInt(n)) => n != 0
    case Some(JStr(s)) => s != ""
    case Some(_) => true
  }

  /**
   * JavaScript's string conversion of a parsed value, as `+=` on a string and a
   * template literal apply it: `undefined` (an absent Option) and `null` by name,
   * arrays as their elements joined with "," (null elements as ""), objects as
   * "[object Object]".
   */
  function JsString(v: Option<Json>): (r: string)
    ensures v.Some? && v.value.JStr? ==> r == v.value.s
  {
    match v
    case None => "undefined"
    case Some(x) => ValueString(x)
  }

  function ValueString(x: Json): string
    decreases x, 1
  {
    match x
    case JNull => "null"
    case JBool(b) => if b then "true" else "false"
    case JInt(n) => Text.IntToString(n)
    case JStr(s) => s
    case JArr(items) =>
      Text.Join(seq(|items|, k requires 0 <= k < |items| => ElementString(x, items[k])), ",")
    case JObj(_) => "[object Object]"
  }

  /** An array element inside `Array.prototype.join`: null becomes the empty string. */
  function ElementString(ghost parent: Json, e: Json): string
    requires e < parent
    decreases parent, 0
  {
    if e.JNull? then "" else ValueString(e)
  }
}
