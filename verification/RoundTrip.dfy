/** Parsing is the inverse of printing, for every value, nesting depth, key order and style. */
module RoundTrip {
  import opened Ordering
  import opened Wrappers
  import opened Json

  // ----- strings

  lemma HexDigitValue(n: nat)
    requires n < 16
    ensures HexValue(HexDigit(n)) == n
  {
  }

  lemma Hex4Is(s: string, a: nat, b: nat, c: nat, d: nat)
    requires |s| >= 4 && a < 16 && b < 16 && c < 16 && d < 16
    requires HexValue(s[0]) == a && HexValue(s[1]) == b && HexValue(s[2]) == c && HexValue(s[3]) == d
    ensures Hex4(s) == ((a * 16 + b) * 16 + c) * 16 + d
  {
  }

  lemma FourDigits(n: nat)
    requires n < 0x1_0000
    ensures ((n / 4096 * 16 + n / 256 % 16) * 16 + n / 16 % 16) * 16 + n % 16 == n
  {
    var a := n / 16;
    var b := a / 16;
    assert n / 256 == b && n / 4096 == b / 16;
  }

  lemma UnicodeEscapeParses(n: nat, tail: string)
    requires n < 0xD800
    ensures ParseUnicode((UnicodeEscape(n) + tail)[2..]) == Got(n as char, tail)
  {
    var s := (UnicodeEscape(n) + tail)[2..];
    HexDigitValue(n / 4096);
    HexDigitValue(n / 256 % 16);
    HexDigitValue(n / 16 % 16);
    HexDigitValue(n % 16);
    Hex4Is(s, n / 4096, n / 256 % 16, n / 16 % 16, n % 16);
    FourDigits(n);
    HexParses(s, n, tail);
  }

  lemma HexParses(s: string, n: nat, tail: string)
    requires n < 0xD800 && |s| >= 4 && Hex4(s) == n && s[4..] == tail
    ensures ParseUnicode(s) == Got(n as char, tail)
  {
  }

  /** After a backslash. */
  lemma EscapedParses(e: string, c: char, tail: string)
    requires |e| >= 2 && e[0] == '\\' && ParseEscape((e + tail)[1..]) == Got(c, tail)
    ensures ParseChars(e + tail) == Prepend(c, ParseChars(tail))
  {
  }

  lemma ShortEscapeParses(c: char, html: bool, tail: string)
    requires |EscapeChar(c, html)| == 2
    ensures EscapeChar(c, html)[0] == '\\'
    ensures ParseEscape((EscapeChar(c, html) + tail)[1..]) == Got(c, tail)
  {
    var e := EscapeChar(c, html);
    assert (e + tail)[1..] == [e[1]] + tail;
    assert ([e[1]] + tail)[1..] == tail;
  }

  lemma LongEscapeParses(c: char, html: bool, tail: string)
    requires |EscapeChar(c, html)| == 6
    ensures EscapeChar(c, html)[0] == '\\'
    ensures ParseEscape((EscapeChar(c, html) + tail)[1..]) == Got(c, tail)
  {
    var s := UnicodeEscape(c as int) + tail;
    assert EscapeChar(c, html) == UnicodeEscape(c as int);
    UnicodeEscapeParses(c as int, tail);
    assert s[1..][0] == 'u' && s[1..][1..] == s[2..];
  }

  lemma PlainCharParses(c: char, tail: string)
    requires c != '"' && c != '\\' && c >= ' '
    ensures ParseChars([c] + tail) == Prepend(c, ParseChars(tail))
  {
    assert ([c] + tail)[1..] == tail;
  }

  lemma CharParses(c: char, html: bool, tail: string)
    ensures ParseChars(EscapeChar(c, html) + tail) == Prepend(c, ParseChars(tail))
  {
    var e := EscapeChar(c, html);
    if |e| == 6 {
      LongEscapeParses(c, html, tail);
      EscapedParses(e, c, tail);
    } else if |e| == 2 {
      ShortEscapeParses(c, html, tail);
      EscapedParses(e, c, tail);
    } else {
      PlainCharParses(c, tail);
    }
  }

  lemma {:induction false} CharsParse(text: string, html: bool, tail: string)
    ensures ParseChars(Escape(text, html) + "\"" + tail) == Got(text, tail)
  {
    if text == "" {
      assert Escape(text, html) + "\"" + tail == "\"" + tail;
    } else {
      var more := Escape(text[1..], html) + "\"" + tail;
      assert Escape(text, html) + "\"" + tail == EscapeChar(text[0], html) + more;
      CharParses(text[0], html, more);
      CharsParse(text[1..], html, tail);
      assert text == [text[0]] + text[1..];
    }
  }

  // ----- numbers and blanks

  predicate Delimited(rest: string) { rest == "" || !NumberChar(rest[0]) }

  lemma {:induction false} NumberPrefixIs(token: string, rest: string)
    requires forall i :: 0 <= i < |token| ==> NumberChar(token[i])
    requires Delimited(rest)
    ensures NumberPrefix(token + rest) == |token|
  {
    if token == "" {
      assert token + rest == rest;
    } else {
      assert (token + rest)[1..] == token[1..] + rest;
      NumberPrefixIs(token[1..], rest);
    }
  }

  lemma NumberParses(token: NumberToken, rest: string, room: int)
    requires Delimited(rest)
    ensures ParseValue(token + rest, room) == Got(Number(token), rest)
  {
    var s := token + rest;
    NumberPrefixIs(token, rest);
    assert s[..|token|] == token && s[|token|..] == rest;
    assert Digit(s[0]) || s[0] == '-';
    assert ("null"[0] == s[0] || "true"[0] == s[0] || "false"[0] == s[0]) == false;
  }

  lemma {:induction false} SkipsBlanks(blanks: Blanks, s: string)
    ensures SkipBlanks(blanks + s) == SkipBlanks(s)
  {
    if blanks == "" {
      assert blanks + s == s;
    } else {
      assert (blanks + s)[1..] == blanks[1..] + s;
      SkipsBlanks(blanks[1..], s);
    }
  }

  lemma BlanksBeforeValue(blanks: Blanks, s: string, room: int)
    ensures ParseValue(blanks + s, room) == ParseValue(s, room)
    ensures ParseItems(blanks + s, room) == ParseItems(s, room)
    ensures ParseMembers(blanks + s, room) == ParseMembers(s, room)
  {
    SkipsBlanks(blanks, s);
  }

  /** A printed value starts with a character that is neither blank nor a closing bracket. */
  lemma PrintStarts(v: Value, style: Style)
    ensures var p := Print(v, style); p != "" && !Blank(p[0]) && p[0] != ']' && p[0] != '}'
  {
  }

  lemma ItemsStart(items: seq<Value>, style: Style)
    requires items != []
    ensures var p := PrintItems(items, style); p != "" && !Blank(p[0]) && p[0] != ']'
  {
    PrintStarts(items[0], style);
  }

  lemma FieldsStart(fields: seq<Field>, style: Style)
    requires fields != []
    ensures PrintFields(fields, style) != "" && PrintFields(fields, style)[0] == '"'
  {
  }

  lemma KeysStart(v: Value, keys: seq<string>, style: Style)
    requires v.Plain? && (forall k :: k in keys ==> k in v.entries) && keys != []
    ensures PrintKeys(v, keys, style) != "" && PrintKeys(v, keys, style)[0] == '"'
  {
  }

  // ----- one step of the parser, on texts of known shape

  lemma ArrayStep(t: string, room: int)
    requires t != "" && !Blank(t[0]) && t[0] != ']'
    ensures ParseValue("[" + t, room) == if room == 0 then Bad else
      match ParseItems(t, room - 1) case Got(items, rest) => Got(Array(items), rest) case Bad => Bad
  {
    assert ("[" + t)[1..] == t;
  }

  lemma ObjectStep(t: string, room: int)
    requires t != "" && t[0] == '"'
    ensures ParseValue("{" + t, room) == if room == 0 then Bad else
      match ParseMembers(t, room - 1) case Got(m, rest) => Got(Plain(m), rest) case Bad => Bad
  {
    assert ("{" + t)[1..] == t;
  }

  lemma EmptyStep(rest: string, room: int)
    ensures ParseValue("[]" + rest, room) == if room == 0 then Bad else Got(Array([]), rest)
    ensures ParseValue("{}" + rest, room) == if room == 0 then Bad else Got(Plain(map[]), rest)
  {
    assert ("[]" + rest)[1..] == "]" + rest && ("{}" + rest)[1..] == "}" + rest;
    assert ("]" + rest)[1..] == rest && ("}" + rest)[1..] == rest;
  }

  lemma ItemsStep(v: Value, blanks: Blanks, tail: string, room: int)
    ensures MoreItems(v, "," + blanks + tail, room) ==
      match ParseItems(tail, room) case Got(items, rest) => Got([v] + items, rest) case Bad => Bad
    ensures MoreItems(v, "]" + tail, room) == Got([v], tail)
  {
    assert ("," + blanks + tail)[1..] == blanks + tail;
    assert ("]" + tail)[1..] == tail;
    BlanksBeforeValue(blanks, tail, room);
  }

  lemma MembersStep(key: string, v: Value, blanks: Blanks, tail: string, room: int)
    ensures MoreMembers(key, v, "," + blanks + tail, room) ==
      match ParseMembers(tail, room) case Got(m, rest) => Got(map[key := v] + m, rest) case Bad => Bad
    ensures MoreMembers(key, v, "}" + tail, room) == Got(map[key := v], tail)
  {
    assert ("," + blanks + tail)[1..] == blanks + tail;
    assert ("}" + tail)[1..] == tail;
    BlanksBeforeValue(blanks, tail, room);
  }

  lemma MemberStep(key: string, html: bool, blanks: Blanks, tail: string, room: int)
    ensures ParseMembers(Quote(key, html) + ":" + blanks + tail, room) ==
      match ParseValue(tail, room) case Got(v, after) => MoreMembers(key, v, after, room) case Bad => Bad
  {
    var s := Quote(key, html) + ":" + blanks + tail;
    var t := ":" + blanks + tail;
    MemberText(key, html, blanks, tail);
    CharsParse(key, html, t);
    BlanksBeforeValue(blanks, tail, room);
    MemberUnfolds(s, key, t, room);
  }

  lemma MemberText(key: string, html: bool, blanks: Blanks, tail: string)
    ensures (Quote(key, html) + ":" + blanks + tail)[1..] == Escape(key, html) + "\"" + (":" + blanks + tail)
    ensures (":" + blanks + tail)[1..] == blanks + tail
  {
    QuotedText(Escape(key, html), blanks, tail);
  }

  lemma QuotedText(e: string, blanks: string, tail: string)
    ensures (("\"" + e + "\"") + ":" + blanks + tail)[1..] == e + "\"" + (":" + blanks + tail)
  {
    assert ("\"" + e + "\"") + ":" + blanks + tail == "\"" + (e + "\"" + (":" + blanks + tail));
  }

  lemma MemberUnfolds(s: string, key: string, t: string, room: int)
    requires s != "" && s[0] == '"' && ParseChars(s[1..]) == Got(key, t)
    requires t != "" && t[0] == ':'
    ensures ParseMembers(s, room) ==
      match ParseValue(t[1..], room) case Got(v, after) => MoreMembers(key, v, after, room) case Bad => Bad
  {
  }

  lemma Brackets(open: string, list: string, close: string, rest: string)
    ensures (open + list + close) + rest == open + (list + (close + rest))
  {
  }

  lemma ReassociateItems(p: string, sep: string, more: string, end: string)
    ensures (p + sep + more) + end == p + (sep + (more + end))
  {
  }

  lemma Reassociate(head: string, p: string, sep: string, more: string, end: string)
    ensures (head + p + sep + more) + end == head + (p + (sep + (more + end)))
  {
  }

  // ----- values

  /** What parsing a printed value followed by `rest` gives: the denoted value, unless the text
      is nested too deeply. */
  ghost function Expected(v: Value, room: int, rest: string): Parsed<Value> {
    if Fits(v, room) then Got(Denote(v), rest) else Bad
  }

  lemma {:induction false} ValueParses(v: Value, style: Style, room: int, rest: string)
    requires Delimited(rest)
    ensures ParseValue(Print(v, style) + rest, room) == Expected(v, room, rest)
    decreases v, 1
  {
    match v
    case Number(token) => NumberParses(token, rest, room);
    case Array(items) => ArrayParses(v, style, room, rest);
    case Ordered(fields) => OrderedParses(v, style, room, rest);
    case Plain(m) => PlainParses(v, style, room, rest);
    case _ => ScalarParses(v, style, room, rest);
  }

  lemma WordsParse(rest: string, room: int)
    ensures ParseValue("null" + rest, room) == Got(Null, rest)
    ensures ParseValue("true" + rest, room) == Got(Bool(true), rest)
    ensures ParseValue("false" + rest, room) == Got(Bool(false), rest)
  {
    assert ("null" + rest)[4..] == rest && ("true" + rest)[4..] == rest && ("false" + rest)[5..] == rest;
  }

  lemma StringParses(chars: string, html: bool, rest: string, room: int)
    ensures ParseValue(Quote(chars, html) + rest, room) == Got(String(chars), rest)
  {
    var e := Escape(chars, html);
    assert ("\"" + e + "\"") + rest == "\"" + (e + "\"" + rest);
    CharsParse(chars, html, rest);
    QuoteStep(e + "\"" + rest, room);
  }

  lemma QuoteStep(t: string, room: int)
    ensures ParseValue("\"" + t, room) ==
      match ParseChars(t) case Got(chars, rest) => Got(String(chars), rest) case Bad => Bad
  {
    assert ("\"" + t)[1..] == t;
  }

  lemma ScalarParses(v: Value, style: Style, room: int, rest: string)
    requires v.Null? || v.Bool? || v.String?
    ensures ParseValue(Print(v, style) + rest, room) == Expected(v, room, rest)
  {
    match v
    case Null => WordsParse(rest, room);
    case Bool(b) => WordsParse(rest, room);
    case String(chars) => StringParses(chars, style.html, rest, room);
  }

  /** A list in brackets parses as its elements do. */
  lemma ArrayOfText(p: string, items: seq<Value>, rest: string, room: int)
    requires p != "" && !Blank(p[0]) && p[0] != ']'
    requires ParseItems(p + ("]" + rest), room - 1) == if ItemsFit(items, room - 1) then Got(DenoteItems(items), rest) else Bad
    ensures ParseValue(("[" + p + "]") + rest, room) == Expected(Array(items), room, rest)
  {
    Brackets("[", p, "]", rest);
    ArrayStep(p + ("]" + rest), room);
  }

  /** Members in braces parse to the map they denote. */
  lemma ObjectOfText(p: string, m: map<string, Value>, fits: bool, rest: string, room: int)
    requires p != "" && p[0] == '"'
    requires ParseMembers(p + ("}" + rest), room - 1) == if fits then Got(m, rest) else Bad
    ensures ParseValue(("{" + p + "}") + rest, room) == if room != 0 && fits then Got(Plain(m), rest) else Bad
  {
    Brackets("{", p, "}", rest);
    ObjectStep(p + ("}" + rest), room);
  }

  lemma EmptyArrayParses(rest: string, room: int)
    ensures ParseValue(("[" + "" + "]") + rest, room) == Expected(Array([]), room, rest)
  {
    EmptyStep(rest, room);
    assert "[" + "" + "]" == "[]";
  }

  lemma EmptyObjectParses(rest: string, room: int)
    ensures ParseValue(("{" + "" + "}") + rest, room) == if room != 0 then Got(Plain(map[]), rest) else Bad
  {
    EmptyStep(rest, room);
    assert "{" + "" + "}" == "{}";
  }

  lemma {:induction false} ArrayParses(v: Value, style: Style, room: int, rest: string)
    requires v.Array? && Delimited(rest)
    ensures ParseValue(Print(v, style) + rest, room) == Expected(v, room, rest)
    decreases v, 0
  {
    if v.items == [] {
      EmptyArrayParses(rest, room);
    } else {
      ItemsStart(v.items, style);
      ItemsParse(v.items, style, room - 1, rest);
      ArrayOfText(PrintItems(v.items, style), v.items, rest, room);
    }
  }

  lemma OrderedExpected(v: Value, room: int, rest: string)
    requires v.Ordered?
    ensures Expected(v, room, rest) == if room != 0 && FieldsFit(v.fields, room - 1) then Got(Plain(DenoteFields(v.fields)), rest) else Bad
  {
  }

  lemma {:induction false} OrderedParses(v: Value, style: Style, room: int, rest: string)
    requires v.Ordered? && Delimited(rest)
    ensures ParseValue(Print(v, style) + rest, room) == Expected(v, room, rest)
    decreases v, 0
  {
    var fields := v.fields;
    OrderedExpected(v, room, rest);
    if fields == [] {
      EmptyObjectParses(rest, room);
    } else {
      FieldsStart(fields, style);
      FieldsParse(fields, style, room - 1, rest);
      ObjectOfText(PrintFields(fields, style), DenoteFields(fields), FieldsFit(fields, room - 1), rest, room);
    }
  }

  lemma {:induction false} PlainParses(v: Value, style: Style, room: int, rest: string)
    requires v.Plain? && Delimited(rest)
    ensures ParseValue(Print(v, style) + rest, room) == Expected(v, room, rest)
    decreases v, 0
  {
    var keys := SortedKeys(v.entries.Keys);
    AllKeys(v, keys, room - 1);
    if keys == [] {
      EmptyObjectParses(rest, room);
    } else {
      KeysStart(v, keys, style);
      KeysParse(v, keys, style, room - 1, rest);
      ObjectOfText(PrintKeys(v, keys, style), DenoteKeys(v, keys), KeysFit(v, keys, room - 1), rest, room);
    }
  }

  ghost predicate ItemsFit(items: seq<Value>, room: int) {
    forall x | x in items :: Fits(x, room)
  }

  ghost predicate FieldsFit(fields: seq<Field>, room: int) {
    forall f | f in fields :: Fits(f.value, room)
  }

  lemma FirstItem(items: seq<Value>, room: int)
    requires items != []
    ensures ItemsFit(items, room) <==> Fits(items[0], room) && ItemsFit(items[1..], room)
  {
    assert items == [items[0]] + items[1..];
  }

  lemma FirstField(fields: seq<Field>, room: int)
    requires fields != []
    ensures FieldsFit(fields, room) <==> Fits(fields[0].value, room) && FieldsFit(fields[1..], room)
  {
    assert fields == [fields[0]] + fields[1..];
  }

  lemma FieldsText(fields: seq<Field>, style: Style, end: string)
    requires fields != []
    ensures PrintFields(fields, style) + end ==
      Quote(fields[0].key, style.html) + ":" + style.colon +
        (Print(fields[0].value, style) + (Separator(|fields| == 1, style) + (PrintFields(fields[1..], style) + end)))
  {
    var f := fields[0];
    assert f.value < f;
    var head := Quote(f.key, style.html) + ":" + style.colon;
    Reassociate(head, Print(f.value, style), Separator(|fields| == 1, style), PrintFields(fields[1..], style), end);
  }

  lemma ItemsText(items: seq<Value>, style: Style, end: string)
    requires items != []
    ensures PrintItems(items, style) + end ==
      Print(items[0], style) + (Separator(|items| == 1, style) + (PrintItems(items[1..], style) + end))
  {
    ReassociateItems(Print(items[0], style), Separator(|items| == 1, style), PrintItems(items[1..], style), end);
  }

  lemma LastItemParses(v: Value, style: Style, room: int, rest: string)
    requires ParseValue(Print(v, style) + ("]" + rest), room) == Expected(v, room, "]" + rest)
    ensures ParseItems(Print(v, style) + ("]" + rest), room) == if Fits(v, room) then Got([Denote(v)], rest) else Bad
  {
    ItemsStep(Denote(v), "", rest, room);
  }

  lemma NextItemParses(v: Value, style: Style, room: int, tail: string)
    requires ParseValue(Print(v, style) + ("," + style.comma + tail), room) == Expected(v, room, "," + style.comma + tail)
    ensures ParseItems(Print(v, style) + ("," + style.comma + tail), room)
         == if Fits(v, room) then
              match ParseItems(tail, room)
              case Got(items, rest) => Got([Denote(v)] + items, rest)
              case Bad => Bad
            else Bad
  {
    ItemsStep(Denote(v), style.comma, tail, room);
  }

  /** Nothing follows the last element but the end. */
  lemma LastTail(end: string)
    ensures "" + ("" + end) == end
  {
  }

  lemma {:induction false} ItemsParse(items: seq<Value>, style: Style, room: int, rest: string)
    requires items != []
    ensures ParseItems(PrintItems(items, style) + ("]" + rest), room)
         == if ItemsFit(items, room) then Got(DenoteItems(items), rest) else Bad
    decreases items, 0
  {
    ItemsText(items, style, "]" + rest);
    FirstItem(items, room);
    var v, more := items[0], items[1..];
    if more == [] {
      LastItemParses(v, style, room, rest) by {
        ValueParses(v, style, room, "]" + rest);
      }
      LastTail("]" + rest);
      assert DenoteItems(items) == [Denote(v)];
    } else {
      var tail := PrintItems(more, style) + ("]" + rest);
      NextItemParses(v, style, room, tail) by {
        ValueParses(v, style, room, "," + style.comma + tail);
      }
      ItemsParse(more, style, room, rest);
    }
  }

  lemma {:induction false} FieldsParse(fields: seq<Field>, style: Style, room: int, rest: string)
    requires fields != []
    ensures ParseMembers(PrintFields(fields, style) + ("}" + rest), room)
         == if FieldsFit(fields, room) then Got(DenoteFields(fields), rest) else Bad
    decreases fields, 0
  {
    FieldsText(fields, style, "}" + rest);
    FirstField(fields, room);
    var f, more := fields[0], fields[1..];
    assert f.value < f;
    if more == [] {
      LastMemberParses(f.key, f.value, style, room, rest) by {
        ValueParses(f.value, style, room, "}" + rest);
      }
      LastTail("}" + rest);
      assert DenoteFields(fields) == map[f.key := Denote(f.value)];
    } else {
      var tail := PrintFields(more, style) + ("}" + rest);
      NextMemberParses(f.key, f.value, style, room, tail) by {
        ValueParses(f.value, style, room, "," + style.comma + tail);
      }
      FieldsParse(more, style, room, rest);
    }
  }

  ghost predicate KeysFit(v: Value, keys: seq<string>, room: int)
    requires v.Plain? && forall k :: k in keys ==> k in v.entries
  {
    forall k | k in keys :: Fits(v.entries[k], room)
  }

  ghost function DenoteKeys(v: Value, keys: seq<string>): map<string, Value>
    requires v.Plain? && forall k :: k in keys ==> k in v.entries
  {
    map k | k in keys :: Denote(v.entries[k])
  }

  lemma AllKeys(v: Value, keys: seq<string>, room: int)
    requires v.Plain? && forall k :: k in keys <==> k in v.entries
    ensures Denote(v) == Plain(DenoteKeys(v, keys))
    ensures Fits(v, room + 1) <==> room + 1 != 0 && KeysFit(v, keys, room)
  {
  }

  lemma FirstKey(v: Value, keys: seq<string>, room: int)
    requires keys != [] && Sorted(keys)
    requires v.Plain? && forall k :: k in keys ==> k in v.entries
    ensures keys[0] in keys && forall k :: k in keys[1..] ==> k in v.entries
    ensures KeysFit(v, keys, room) <==> Fits(v.entries[keys[0]], room) && KeysFit(v, keys[1..], room)
    ensures DenoteKeys(v, keys) == map[keys[0] := Denote(v.entries[keys[0]])] + DenoteKeys(v, keys[1..])
  {
    var key, more := keys[0], keys[1..];
    assert keys == [key] + more;
    forall i | 0 <= i < |more| ensures more[i] != key { LessTotal(key, more[i]); }
  }

  lemma KeysText(v: Value, keys: seq<string>, style: Style, end: string)
    requires keys != []
    requires v.Plain? && forall k :: k in keys ==> k in v.entries
    ensures keys[0] in keys && forall k :: k in keys[1..] ==> k in v.entries
    ensures PrintKeys(v, keys, style) + end ==
      Quote(keys[0], style.html) + ":" + style.colon +
        (Print(v.entries[keys[0]], style) + (Separator(|keys| == 1, style) + (PrintKeys(v, keys[1..], style) + end)))
  {
    var head := Quote(keys[0], style.html) + ":" + style.colon;
    Reassociate(head, Print(v.entries[keys[0]], style), Separator(|keys| == 1, style), PrintKeys(v, keys[1..], style), end);
  }

  lemma {:induction false} KeysParse(v: Value, keys: seq<string>, style: Style, room: int, rest: string)
    requires keys != [] && Sorted(keys)
    requires v.Plain? && forall k :: k in keys ==> k in v.entries
    ensures ParseMembers(PrintKeys(v, keys, style) + ("}" + rest), room)
         == if KeysFit(v, keys, room) then Got(DenoteKeys(v, keys), rest) else Bad
    decreases v, 0, |keys|
  {
    KeysText(v, keys, style, "}" + rest);
    FirstKey(v, keys, room);
    var key, more := keys[0], keys[1..];
    var value := v.entries[key];
    var tail := PrintKeys(v, more, style) + ("}" + rest);
    if more == [] {
      LastMemberParses(key, value, style, room, rest) by {
        ValueParses(value, style, room, "}" + rest);
      }
      assert tail == "}" + rest;
      assert Separator(|keys| == 1, style) + tail == tail;
      assert DenoteKeys(v, keys) == map[key := Denote(value)];
    } else {
      NextMemberParses(key, value, style, room, tail) by {
        ValueParses(value, style, room, "," + style.comma + tail);
      }
      KeysParse(v, more, style, room, rest);
    }
  }

  lemma LastMemberParses(key: string, v: Value, style: Style, room: int, rest: string)
    requires ParseValue(Print(v, style) + ("}" + rest), room) == Expected(v, room, "}" + rest)
    ensures ParseMembers(Quote(key, style.html) + ":" + style.colon + (Print(v, style) + ("}" + rest)), room)
         == if Fits(v, room) then Got(map[key := Denote(v)], rest) else Bad
  {
    MemberStep(key, style.html, style.colon, Print(v, style) + ("}" + rest), room);
    MembersStep(key, Denote(v), "", rest, room);
  }

  lemma NextMemberParses(key: string, v: Value, style: Style, room: int, tail: string)
    requires ParseValue(Print(v, style) + ("," + style.comma + tail), room) == Expected(v, room, "," + style.comma + tail)
    ensures ParseMembers(Quote(key, style.html) + ":" + style.colon + (Print(v, style) + ("," + style.comma + tail)), room)
         == if Fits(v, room) then
              match ParseMembers(tail, room)
              case Got(m, rest) => Got(map[key := Denote(v)] + m, rest)
              case Bad => Bad
            else Bad
  {
    MemberStep(key, style.html, style.colon, Print(v, style) + ("," + style.comma + tail), room);
    MembersStep(key, Denote(v), style.comma, tail, room);
  }

  /** Reading back a printed value gives what the value denotes, exactly when the text is not
      nested deeper than the limit. */
  lemma ParsePrint(v: Value, style: Style, room: int)
    ensures ParseWithin(Print(v, style), room) == if Fits(v, room) then Ok(Denote(v)) else Err(())
  {
    ValueParses(v, style, room, "");
    assert Print(v, style) + "" == Print(v, style);
  }

  /** Two values with the same text, in any two styles, denote the same: at every nesting depth. */
  lemma PrintInjective(v: Value, w: Value, style: Style, other: Style)
    requires Print(v, style) == Print(w, other)
    ensures Denote(v) == Denote(w)
  {
    FitsWithoutLimit(v, -1);
    FitsWithoutLimit(w, -1);
    ParsePrint(v, style, -1);
    ParsePrint(w, other, -1);
  }
}
