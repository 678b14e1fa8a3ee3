/** JSON text and the Go values it is made from (RFC 8259; encoding/json).

    `Print` is json.Marshal on every kind of Go value the service hands to it, `Parse` is
    json.Unmarshal into interface{}, and `Denote` is what a value means to a reader of the text:
    objects as maps, the last of several equal keys winning.  `ParsePrint` connects the three. */
module Json {
  import opened Ordering
  import opened Wrappers

  /** Ordered is the service's orderedMapSlice, Plain is Go's map[string]interface{}; a map has
      no order, so neither has Plain. */
  datatype Value =
    | Null
    | Bool(b: bool)
    | Number(token: NumberToken)
    | String(s: string)
    | Array(items: seq<Value>)
    | Ordered(fields: seq<Field>)
    | Plain(entries: map<string, Value>)

  datatype Field = Field(key: string, value: Value)

  // ----- number tokens (section 6 of RFC 8259)

  predicate Digit(c: char) { '0' <= c <= '9' }

  predicate NumberChar(c: char) { Digit(c) || c in "+-.eE" }

  function DropDigits(s: string): (r: string)
    ensures |r| <= |s|
  {
    if s != "" && Digit(s[0]) then DropDigits(s[1..]) else s
  }

  predicate SomeDigits(s: string) { s != "" && Digit(s[0]) }

  predicate ExponentOrEnd(s: string) {
    s == "" ||
    (s[0] in "eE" &&
     var t := if |s| > 1 && s[1] in "+-" then s[2..] else s[1..];
     SomeDigits(t) && DropDigits(t) == "")
  }

  predicate FractionOrEnd(s: string) {
    if s != "" && s[0] == '.' then SomeDigits(s[1..]) && ExponentOrEnd(DropDigits(s[1..])) else ExponentOrEnd(s)
  }

  predicate IsNumber(s: string) {
    var t := if s != "" && s[0] == '-' then s[1..] else s;
    && (forall i :: 0 <= i < |s| ==> NumberChar(s[i]))
    && SomeDigits(t)
    && FractionOrEnd(if t[0] == '0' then t[1..] else DropDigits(t))
  }

  type NumberToken = s: string | IsNumber(s) witness (assert IsNumber("0"); "0")

  // ----- what a value denotes

  function Denote(v: Value): Value {
    match v
    case Array(items) => Array(DenoteItems(items))
    case Ordered(fields) => Plain(DenoteFields(fields))
    case Plain(m) => Plain(map k | k in m :: Denote(m[k]))
    case _ => v
  }

  function DenoteItems(items: seq<Value>): (r: seq<Value>)
    ensures |r| == |items|
  {
    if items == [] then [] else [Denote(items[0])] + DenoteItems(items[1..])
  }

  function DenoteFields(fields: seq<Field>): map<string, Value> {
    if fields == [] then map[] else
      var f := fields[0];
      assert f.value < f;
      map[f.key := Denote(f.value)] + DenoteFields(fields[1..])
  }

  /** Nesting within the depth limit; a negative limit never runs out. */
  ghost predicate Fits(v: Value, room: int) {
    match v
    case Array(items) => room != 0 && forall x | x in items :: Fits(x, room - 1)
    case Ordered(fields) => room != 0 && forall f | f in fields :: Fits(f.value, room - 1)
    case Plain(m) => room != 0 && forall k | k in m :: Fits(m[k], room - 1)
    case _ => true
  }

  lemma {:induction false} FitsWithoutLimit(v: Value, room: int)
    requires room < 0
    ensures Fits(v, room)
    decreases v
  {
    match v
    case Array(items) => forall x | x in items ensures Fits(x, room - 1) { FitsWithoutLimit(x, room - 1); }
    case Ordered(fields) => forall f | f in fields ensures Fits(f.value, room - 1) { FitsWithoutLimit(f.value, room - 1); }
    case Plain(m) => forall k | k in m ensures Fits(m[k], room - 1) { FitsWithoutLimit(m[k], room - 1); }
    case _ =>
  }

  // ----- printing

  predicate Blank(c: char) { c == ' ' || c == '\t' || c == '\n' || c == '\r' }

  type Blanks = s: string | forall i :: 0 <= i < |s| ==> Blank(s[i]) witness ""

  /** How a printer spaces its output and whether it writes the HTML characters as \u escapes. */
  datatype Style = Style(html: bool, comma: Blanks, colon: Blanks)

  const GO := Style(true, "", "")          // encoding/json
  const POSTGRES := Style(false, " ", " ") // the text form of a JSONB column

  function HexDigit(n: nat): char
    requires n < 16
  {
    if n < 10 then '0' + n as char else 'a' + (n - 10) as char
  }

  function UnicodeEscape(n: nat): string
    requires n < 0x1_0000
  {
    ['\\', 'u', HexDigit(n / 4096), HexDigit(n / 256 % 16), HexDigit(n / 16 % 16), HexDigit(n % 16)]
  }

  function EscapeChar(c: char, html: bool): string {
    var n := c as int;
    if c == '"' || c == '\\' then ['\\', c]
    else if n == 8 then "\\b"
    else if n == 12 then "\\f"
    else if c == '\n' then "\\n"
    else if c == '\r' then "\\r"
    else if c == '\t' then "\\t"
    else if n < 0x20 then UnicodeEscape(n)
    else if html && (c in "<>&" || n == 0x2028 || n == 0x2029) then UnicodeEscape(n)
    else [c]
  }

  function Escape(s: string, html: bool): string {
    if s == "" then "" else EscapeChar(s[0], html) + Escape(s[1..], html)
  }

  function Quote(s: string, html: bool): string {
    "\"" + Escape(s, html) + "\""
  }

  ghost function Print(v: Value, style: Style): string
    decreases v
  {
    match v
    case Null => "null"
    case Bool(b) => if b then "true" else "false"
    case Number(token) => token
    case String(s) => Quote(s, style.html)
    case Array(items) => "[" + PrintItems(items, style) + "]"
    case Ordered(fields) => "{" + PrintFields(fields, style) + "}"
    case Plain(m) => "{" + PrintKeys(v, SortedKeys(m.Keys), style) + "}"
  }

  function Separator(last: bool, style: Style): string {
    if last then "" else "," + style.comma
  }

  ghost function PrintItems(items: seq<Value>, style: Style): string {
    if items == [] then "" else
      Print(items[0], style) + Separator(|items| == 1, style) + PrintItems(items[1..], style)
  }

  ghost function PrintFields(fields: seq<Field>, style: Style): string {
    if fields == [] then "" else
      var f := fields[0];
      assert f.value < f;
      Quote(f.key, style.html) + ":" + style.colon + Print(f.value, style)
        + Separator(|fields| == 1, style) + PrintFields(fields[1..], style)
  }

  ghost function PrintKeys(v: Value, keys: seq<string>, style: Style): string
    requires v.Plain? && forall k :: k in keys ==> k in v.entries
    decreases v, |keys|
  {
    if keys == [] then "" else
      assert keys[0] in keys;
      Quote(keys[0], style.html) + ":" + style.colon + Print(v.entries[keys[0]], style)
        + Separator(|keys| == 1, style) + PrintKeys(v, keys[1..], style)
  }

  // ----- parsing

  datatype Parsed<+T> = Got(value: T, rest: string) | Bad

  // encoding/json refuses text nested deeper than this.
  const MAX_DEPTH := 10000

  function SkipBlanks(s: string): (r: string)
    ensures |r| <= |s|
  {
    if s != "" && Blank(s[0]) then SkipBlanks(s[1..]) else s
  }

  function HexValue(c: char): (n: int)
    ensures -1 <= n < 16
  {
    if Digit(c) then c as int - 48
    else if 'a' <= c <= 'f' then c as int - 87
    else if 'A' <= c <= 'F' then c as int - 55
    else -1
  }

  /** The code unit of four hexadecimal digits, or -1. */
  function Hex4(s: string): (n: int)
    ensures -1 <= n < 0x1_0000
    ensures n >= 0 ==> |s| >= 4
  {
    if |s| < 4 || HexValue(s[0]) < 0 || HexValue(s[1]) < 0 || HexValue(s[2]) < 0 || HexValue(s[3]) < 0 then -1
    else ((HexValue(s[0]) * 16 + HexValue(s[1])) * 16 + HexValue(s[2])) * 16 + HexValue(s[3])
  }

  /** The text after "\u"; a surrogate pair is one character, a lone surrogate U+FFFD. */
  function ParseUnicode(s: string): (r: Parsed<char>)
    ensures r.Got? ==> |r.rest| < |s|
  {
    var n := Hex4(s);
    if n < 0 then Bad
    else if n < 0xD800 || n >= 0xE000 then Got(n as char, s[4..])
    else
      var low := if |s| >= 6 && s[4] == '\\' && s[5] == 'u' then Hex4(s[6..]) else -1;
      if n < 0xDC00 && 0xDC00 <= low < 0xE000 then
        Got((0x1_0000 + (n - 0xD800) * 0x400 + (low - 0xDC00)) as char, s[10..])
      else
        Got(0xFFFD as char, s[4..])
  }

  /** The text after a backslash. */
  function ParseEscape(s: string): (r: Parsed<char>)
    ensures r.Got? ==> |r.rest| < |s|
  {
    if s == "" then Bad
    else if s[0] in "\"\\/" then Got(s[0], s[1..])
    else if s[0] == 'b' then Got(8 as char, s[1..])
    else if s[0] == 'f' then Got(12 as char, s[1..])
    else if s[0] == 'n' then Got('\n', s[1..])
    else if s[0] == 'r' then Got('\r', s[1..])
    else if s[0] == 't' then Got('\t', s[1..])
    else if s[0] == 'u' then ParseUnicode(s[1..])
    else Bad
  }

  function Prepend(c: char, r: Parsed<string>): Parsed<string> {
    match r
    case Got(s, rest) => Got([c] + s, rest)
    case Bad => Bad
  }

  /** The text after an opening quote. */
  function ParseChars(s: string): (r: Parsed<string>)
    ensures r.Got? ==> |r.rest| < |s|
    decreases |s|
  {
    if s == "" then Bad
    else if s[0] == '"' then Got("", s[1..])
    else if s[0] == '\\' then
      match ParseEscape(s[1..])
      case Got(c, rest) => Prepend(c, ParseChars(rest))
      case Bad => Bad
    else if s[0] < ' ' then Bad
    else Prepend(s[0], ParseChars(s[1..]))
  }

  function NumberPrefix(s: string): (n: nat)
    ensures n <= |s|
  {
    if s != "" && NumberChar(s[0]) then 1 + NumberPrefix(s[1..]) else 0
  }

  function ParseNumber(s: string): (r: Parsed<Value>)
    ensures r.Got? ==> |r.rest| < |s|
  {
    var n := NumberPrefix(s);
    if n > 0 && IsNumber(s[..n]) then Got(Number(s[..n]), s[n..]) else Bad
  }

  function ParseValue(text: string, room: int): (r: Parsed<Value>)
    ensures r.Got? ==> |r.rest| < |text|
    decreases |text|, 1
  {
    var s := SkipBlanks(text);
    if s == "" then Bad
    else if s[0] == '{' then
      if room == 0 then Bad else
        var t := SkipBlanks(s[1..]);
        if t != "" && t[0] == '}' then Got(Plain(map[]), t[1..]) else
          match ParseMembers(t, room - 1)
          case Got(m, rest) => Got(Plain(m), rest)
          case Bad => Bad
    else if s[0] == '[' then
      if room == 0 then Bad else
        var t := SkipBlanks(s[1..]);
        if t != "" && t[0] == ']' then Got(Array([]), t[1..]) else
          match ParseItems(t, room - 1)
          case Got(items, rest) => Got(Array(items), rest)
          case Bad => Bad
    else if s[0] == '"' then
      match ParseChars(s[1..])
      case Got(chars, rest) => Got(String(chars), rest)
      case Bad => Bad
    else if "null" <= s then Got(Null, s[4..])
    else if "true" <= s then Got(Bool(true), s[4..])
    else if "false" <= s then Got(Bool(false), s[5..])
    else ParseNumber(s)
  }

  function ParseItems(text: string, room: int): (r: Parsed<seq<Value>>)
    ensures r.Got? ==> |r.rest| < |text|
    decreases |text|, 2
  {
    match ParseValue(text, room)
    case Bad => Bad
    case Got(v, after) => MoreItems(v, after, room)
  }

  /** The text after an element: a comma and more elements, or the end of the array. */
  function MoreItems(v: Value, after: string, room: int): (r: Parsed<seq<Value>>)
    ensures r.Got? ==> |r.rest| < |after|
    decreases |after|, 3
  {
    var s := SkipBlanks(after);
    if s == "" then Bad
    else if s[0] == ',' then
      match ParseItems(s[1..], room)
      case Got(items, rest) => Got([v] + items, rest)
      case Bad => Bad
    else if s[0] == ']' then Got([v], s[1..])
    else Bad
  }

  function ParseMembers(text: string, room: int): (r: Parsed<map<string, Value>>)
    ensures r.Got? ==> |r.rest| < |text|
    decreases |text|, 2
  {
    var s := SkipBlanks(text);
    if s == "" || s[0] != '"' then Bad
    else match ParseChars(s[1..])
      case Bad => Bad
      case Got(key, t) =>
        var u := SkipBlanks(t);
        if u == "" || u[0] != ':' then Bad
        else match ParseValue(u[1..], room)
          case Bad => Bad
          case Got(v, after) => MoreMembers(key, v, after, room)
  }

  /** The text after a member; a later member with the same key wins. */
  function MoreMembers(key: string, v: Value, after: string, room: int): (r: Parsed<map<string, Value>>)
    ensures r.Got? ==> |r.rest| < |after|
    decreases |after|, 3
  {
    var s := SkipBlanks(after);
    if s == "" then Bad
    else if s[0] == ',' then
      match ParseMembers(s[1..], room)
      case Got(m, rest) => Got(map[key := v] + m, rest)
      case Bad => Bad
    else if s[0] == '}' then Got(map[key := v], s[1..])
    else Bad
  }

  function ParseWithin(text: string, room: int): Result<Value, ()> {
    match ParseValue(text, room)
    case Got(v, rest) => if SkipBlanks(rest) == "" then Ok(v) else Err(())
    case Bad => Err(())
  }

  /** json.Unmarshal into interface{}. */
  function Parse(text: string): Result<Value, ()> {
    ParseWithin(text, MAX_DEPTH)
  }
}
