/** The service's canonical JSON: marshal, unmarshal, marshal again with sorted keys.

    `CanonicalText` says what canonicalJSON returns: the printed meaning of the value, or an error
    when the text would be nested too deeply for encoding/json to read back. */
module Canonical {
  import opened Ordering
  import opened Wrappers
  import opened Json
  import opened RoundTrip

  ghost function CanonicalText(v: Value): Result<string, ()> {
    if Fits(v, MAX_DEPTH) then Ok(Print(Denote(v), GO)) else Err(())
  }

  // ----- the meaning of a value is a value without ordered maps, and means itself

  lemma {:induction false} DenoteTwice(v: Value)
    ensures Denote(Denote(v)) == Denote(v)
    decreases v
  {
    match v
    case Array(items) => DenoteItemsTwice(items);
    case Ordered(fields) => DenoteFieldsTwice(fields); DenotesItself(DenoteFields(fields));
    case Plain(m) => forall k | k in m ensures Denote(Denote(m[k])) == Denote(m[k]) { DenoteTwice(m[k]); }
    case _ =>
  }

  lemma DenotesItself(m: map<string, Value>)
    requires forall k | k in m :: Denote(m[k]) == m[k]
    ensures Denote(Plain(m)) == Plain(m)
  {
    assert (map k | k in m :: Denote(m[k])) == m;
  }

  lemma {:induction false} DenoteItemsTwice(items: seq<Value>)
    ensures DenoteItems(DenoteItems(items)) == DenoteItems(items)
  {
    if items != [] {
      DenoteTwice(items[0]);
      DenoteItemsTwice(items[1..]);
    }
  }

  lemma {:induction false} DenoteFieldsTwice(fields: seq<Field>)
    ensures forall k | k in DenoteFields(fields) :: Denote(DenoteFields(fields)[k]) == DenoteFields(fields)[k]
  {
    if fields != [] {
      var f := fields[0];
      assert f.value < f;
      DenoteTwice(f.value);
      DenoteFieldsTwice(fields[1..]);
    }
  }

  lemma {:induction false} DenoteFits(v: Value, room: int)
    requires Fits(v, room)
    ensures Fits(Denote(v), room)
    decreases v
  {
    match v
    case Array(items) => DenoteItemsFit(items, room - 1);
    case Ordered(fields) => DenoteFieldsFit(fields, room - 1);
    case Plain(m) => forall k | k in m ensures Fits(Denote(m[k]), room - 1) { DenoteFits(m[k], room - 1); }
    case _ =>
  }

  lemma {:induction false} DenoteItemsFit(items: seq<Value>, room: int)
    requires forall x | x in items :: Fits(x, room)
    ensures forall x | x in DenoteItems(items) :: Fits(x, room)
  {
    if items != [] {
      DenoteFits(items[0], room);
      DenoteItemsFit(items[1..], room);
    }
  }

  lemma {:induction false} DenoteFieldsFit(fields: seq<Field>, room: int)
    requires forall f | f in fields :: Fits(f.value, room)
    ensures forall k | k in DenoteFields(fields) :: Fits(DenoteFields(fields)[k], room)
  {
    if fields != [] {
      var f := fields[0];
      assert f.value < f;
      DenoteFits(f.value, room);
      DenoteFieldsFit(fields[1..], room);
    }
  }

  // ----- whatever the parser returns means itself and fits

  ghost predicate Generic(v: Value, room: int) {
    Denote(v) == v && Fits(v, room)
  }

  ghost predicate GenericMap(m: map<string, Value>, room: int) {
    forall k | k in m :: Generic(m[k], room)
  }

  lemma GenericObject(m: map<string, Value>, room: int)
    requires room != 0 && GenericMap(m, room - 1)
    ensures Generic(Plain(m), room)
  {
    forall k | k in m ensures Denote(m[k]) == m[k] && Fits(m[k], room - 1) {
      assert Generic(m[k], room - 1);
    }
    DenotesItself(m);
  }

  lemma {:induction false} ParsedValueGeneric(text: string, room: int)
    ensures ParseValue(text, room).Got? ==> Generic(ParseValue(text, room).value, room)
    decreases |text|, 1
  {
    var s := SkipBlanks(text);
    if s != "" && s[0] == '{' && room != 0 {
      var t := SkipBlanks(s[1..]);
      if t == "" || t[0] != '}' {
        ParsedMembersGeneric(t, room - 1);
        if ParseMembers(t, room - 1).Got? {
          GenericObject(ParseMembers(t, room - 1).value, room);
        }
      } else {
        GenericObject(map[], room);
      }
    } else if s != "" && s[0] == '[' && room != 0 {
      var t := SkipBlanks(s[1..]);
      if t == "" || t[0] != ']' {
        ParsedItemsGeneric(t, room - 1);
      }
    }
  }

  lemma {:induction false} ParsedItemsGeneric(text: string, room: int)
    ensures match ParseItems(text, room)
      case Got(items, rest) => DenoteItems(items) == items && forall x | x in items :: Fits(x, room)
      case Bad => true
    decreases |text|, 2
  {
    ParsedValueGeneric(text, room);
    match ParseValue(text, room)
    case Bad =>
    case Got(v, after) =>
      var s := SkipBlanks(after);
      if s != "" && s[0] == ',' {
        ParsedItemsGeneric(s[1..], room);
        if ParseItems(s[1..], room).Got? {
          var more := ParseItems(s[1..], room).value;
          assert ([v] + more)[1..] == more;
        }
      } else {
        assert DenoteItems([v]) == [Denote(v)];
      }
  }

  lemma {:induction false} ParsedMembersGeneric(text: string, room: int)
    ensures match ParseMembers(text, room)
      case Got(m, rest) => GenericMap(m, room)
      case Bad => true
    decreases |text|, 2
  {
    var s := SkipBlanks(text);
    if s != "" && s[0] == '"' && ParseChars(s[1..]).Got? {
      var u := SkipBlanks(ParseChars(s[1..]).rest);
      if u != "" && u[0] == ':' {
        ParsedValueGeneric(u[1..], room);
        match ParseValue(u[1..], room)
        case Bad =>
        case Got(v, after) =>
          var w := SkipBlanks(after);
          if w != "" && w[0] == ',' {
            ParsedMembersGeneric(w[1..], room);
          }
      }
    }
  }

  lemma ParseGeneric(text: string)
    requires Parse(text).Ok?
    ensures Generic(Parse(text).value, MAX_DEPTH)
  {
    ParsedValueGeneric(text, MAX_DEPTH);
  }

  // ----- what canonical text depends on

  /** Two values have the same canonical text exactly when they mean the same. */
  lemma CanonicalExactly(v: Value, w: Value)
    requires Fits(v, MAX_DEPTH) && Fits(w, MAX_DEPTH)
    ensures CanonicalText(v) == CanonicalText(w) <==> Denote(v) == Denote(w)
  {
    if CanonicalText(v) == CanonicalText(w) {
      PrintInjective(Denote(v), Denote(w), GO, GO);
      DenoteTwice(v);
      DenoteTwice(w);
    }
  }

  /** Canonical text is stable: read back in any way it is printed again unchanged, and the
      service canonicalizes what it reads to the same text. */
  lemma CanonicalStable(v: Value)
    requires CanonicalText(v).Ok?
    ensures Parse(CanonicalText(v).value) == Ok(Denote(v))
    ensures CanonicalText(Denote(v)) == CanonicalText(v)
  {
    DenoteTwice(v);
    DenoteFits(v, MAX_DEPTH);
    ParsePrint(Denote(v), GO, MAX_DEPTH);
  }

  /** Canonicalization fails exactly on values nested more than ten thousand deep. */
  lemma CanonicalizableExactly(v: Value)
    ensures CanonicalText(v).Ok? <==> Fits(v, 10000)
  {
  }

  // ----- what the canonical text of an object looks like

  /** strings.Join with a comma. */
  function Joined(parts: seq<string>): string {
    if parts == [] then "" else if |parts| == 1 then parts[0] else parts[0] + "," + Joined(parts[1..])
  }

  ghost function Member(m: map<string, Value>, key: string): string
    requires key in m
  {
    Quote(key, true) + ":" + Print(m[key], GO)
  }

  ghost function Members(m: map<string, Value>, keys: seq<string>): seq<string>
    requires forall k :: k in keys ==> k in m
  {
    seq(|keys|, i requires 0 <= i < |keys| => assert keys[i] in keys; Member(m, keys[i]))
  }

  lemma {:induction false} KeysAreJoined(m: map<string, Value>, keys: seq<string>)
    requires forall k :: k in keys ==> k in m
    ensures PrintKeys(Plain(m), keys, GO) == Joined(Members(m, keys))
  {
    if keys != [] {
      var more := keys[1..];
      assert keys[0] in keys && forall k :: k in more ==> k in keys;
      KeysAreJoined(m, more);
      assert Members(m, keys)[0] == Member(m, keys[0]) && Members(m, keys)[1..] == Members(m, more);
      OneMember(Quote(keys[0], true), Print(m[keys[0]], GO), Joined(Members(m, more)), |keys| == 1);
    }
  }

  lemma OneMember(key: string, value: string, more: string, last: bool)
    requires last ==> more == ""
    ensures key + ":" + "" + value + Separator(last, GO) + more == if last then key + ":" + value else (key + ":" + value) + "," + more
  {
  }

  /** The text is the object's members, each key once, in ascending order of keys, joined by single
      commas in braces. */
  ghost predicate InOrder(text: string, m: map<string, Value>, keys: seq<string>) {
    && (forall k :: k in keys <==> k in m) && Ascending(keys)
    && text == "{" + Joined(Members(m, keys)) + "}"
  }

  /** So is the canonical text of every object, and that of every object inside it. */
  lemma CanonicalOrder(v: Value) returns (keys: seq<string>)
    requires (v.Ordered? || v.Plain?) && Fits(v, MAX_DEPTH)
    ensures Denote(v).Plain? && CanonicalText(v).Ok? && InOrder(CanonicalText(v).value, Denote(v).entries, keys)
  {
    keys := ObjectOrder(Denote(v).entries);
  }

  lemma ObjectOrder(m: map<string, Value>) returns (keys: seq<string>)
    ensures InOrder(Print(Plain(m), GO), m, keys)
  {
    keys := SortedKeys(m.Keys);
    SortedAscends(keys);
    KeysAreJoined(m, keys);
  }

  /** A text in full: keys sorted, no spaces, HTML characters escaped, the last of two equal keys. */
  lemma KnownText()
    ensures CanonicalText(Ordered([Field("b", Array([Bool(true), Null])), Field("a", String("x")), Field("a", String("<"))]))
      == Ok("{" + ("\"a\":\"\\u003c\"" + "," + "\"b\":[true,null]") + "}")
  {
    var list, text := Array([Bool(true), Null]), String("<");
    var m := map["a" := text, "b" := list];
    KnownMeaning(list, text);
    KnownMembers(m);
    TwoMembers(m);
  }

  lemma KnownMembers(m: map<string, Value>)
    requires m == map["a" := String("<"), "b" := Array([Bool(true), Null])]
    ensures Member(m, "a") == "\"a\":\"\\u003c\"" && Member(m, "b") == "\"b\":[true,null]"
  {
    KnownList();
    KnownStrings();
    assert "\"a\"" + ":" + "\"\\u003c\"" == "\"a\":\"\\u003c\"";
    assert "\"b\"" + ":" + "[true,null]" == "\"b\":[true,null]";
  }

  lemma TwoMembers(m: map<string, Value>)
    requires m.Keys == {"a", "b"}
    ensures Print(Plain(m), GO) == "{" + (Member(m, "a") + "," + Member(m, "b")) + "}"
  {
    var keys := ["a", "b"];
    assert Elements(keys) == m.Keys;
    SortedKeysAre(m.Keys, keys);
    KeysAreJoined(m, keys);
    assert Members(m, keys) == [Member(m, "a"), Member(m, "b")];
    JoinedTwo(Member(m, "a"), Member(m, "b"));
  }

  lemma JoinedTwo(a: string, b: string)
    ensures Joined([a, b]) == a + "," + b
  {
    assert [a, b][1..] == [b];
  }

  lemma KnownMeaning(list: Value, text: Value)
    requires list == Array([Bool(true), Null]) && text == String("<")
    ensures var v := Ordered([Field("b", list), Field("a", String("x")), Field("a", text)]);
      Denote(v) == Plain(map["a" := text, "b" := list]) && Fits(v, MAX_DEPTH)
  {
    var fields := [Field("b", list), Field("a", String("x")), Field("a", text)];
    assert fields[1..] == [Field("a", String("x")), Field("a", text)];
    assert fields[1..][1..] == [Field("a", text)] && fields[1..][1..][1..] == [];
    assert list.items[1..] == [Null] && list.items[1..][1..] == [];
    assert Denote(list) == list;
    assert DenoteFields(fields[1..][1..]) == map["a" := text];
    assert DenoteFields(fields[1..]) == map["a" := text];
    assert DenoteFields(fields) == map["b" := list] + map["a" := text];
  }

  lemma KnownList()
    ensures Print(Array([Bool(true), Null]), GO) == "[true,null]"
  {
    var items := [Bool(true), Null];
    assert items[1..] == [Null] && items[1..][1..] == [];
    assert PrintItems(items[1..], GO) == "null";
    assert PrintItems(items, GO) == "true" + ("," + "") + "null";
    assert "[" + ("true" + ("," + "") + "null") + "]" == "[true,null]";
  }

  lemma OneCharacter(c: char)
    ensures Quote([c], true) == "\"" + EscapeChar(c, true) + "\""
  {
    assert [c][1..] == "";
    assert Escape([c], true) == EscapeChar(c, true) + "";
  }

  lemma KnownStrings()
    ensures Print(String("<"), GO) == "\"\\u003c\""
    ensures Quote("a", true) == "\"a\"" && Quote("b", true) == "\"b\""
  {
    OneCharacter('<');
    OneCharacter('a');
    OneCharacter('b');
    assert EscapeChar('<', true) == UnicodeEscape(0x3c) == "\\u003c";
    assert "\"" + "\\u003c" + "\"" == "\"\\u003c\"";
  }

  /** Which characters are written otherwise than as themselves, and how. */
  lemma EscapesExactly(c: char, html: bool)
    ensures EscapeChar(c, html) == [c] <==>
      c >= ' ' && c != '"' && c != '\\' && !(html && (c == '<' || c == '>' || c == '&' || c as int == 0x2028 || c as int == 0x2029))
    ensures html ==> EscapeChar('<', html) == "\\u003c" && EscapeChar('>', html) == "\\u003e" && EscapeChar('&', html) == "\\u0026"
    ensures html ==> EscapeChar(0x2028 as char, html) == "\\u2028" && EscapeChar(0x2029 as char, html) == "\\u2029"
    ensures EscapeChar('"', html) == "\\\"" && EscapeChar('\\', html) == "\\\\"
    ensures EscapeChar('\n', html) == "\\n" && EscapeChar('\r', html) == "\\r" && EscapeChar('\t', html) == "\\t"
    ensures EscapeChar(8 as char, html) == "\\b" && EscapeChar(12 as char, html) == "\\f" && EscapeChar(0x1f as char, html) == "\\u001f"
  {
  }

  // ----- the programs

  /** Collect the keys of a map in whatever order it is traversed, and sort them. */
  method SortedKeyList(m: map<string, Value>) returns (keys: seq<string>)
    ensures keys == SortedKeys(m.Keys)
  {
    var collected: seq<string> := [];
    var remaining := m.Keys;
    while remaining != {}
      invariant remaining <= m.Keys
      invariant forall k :: k in collected <==> k in m.Keys && k !in remaining
      invariant forall i, j :: 0 <= i < j < |collected| ==> collected[i] != collected[j]
      decreases |remaining|
    {
      var k :| k in remaining;
      assert k !in collected;
      collected, remaining := collected + [k], remaining - {k};
    }
    assert Elements(collected) == m.Keys;
    keys := SortStrings(collected);
  }

  method SortStrings(list: seq<string>) returns (sorted: seq<string>)
    requires forall i, j :: 0 <= i < j < |list| ==> list[i] != list[j]
    ensures sorted == SortedKeys(Elements(list))
  {
    sorted := [];
    for i := 0 to |list|
      invariant Sorted(sorted) && Elements(sorted) == Elements(list[..i])
    {
      assert forall x :: x in sorted <==> x in Elements(list[..i]);
      assert list[i] !in list[..i];
      assert list[..i + 1] == list[..i] + [list[i]];
      assert Elements(list[..i + 1]) == Elements(list[..i]) + {list[i]};
      sorted := Insert(list[i], sorted);
    }
    assert list[..|list|] == list;
    SortedKeysAre(Elements(list), sorted);
  }

  /** What the loops below still have to write when i of n elements are written. */
  ghost function Pending(i: nat, n: nat, text: string): string {
    (if 0 < i < n then "," else "") + text
  }

  /** One turn of a printing loop: the comma, if any, and one more element. */
  lemma Advance(buf: string, i: nat, n: nat, element: string, pending: string)
    requires i < n
    ensures (buf + (if i > 0 then "," else "") + element) + pending == buf + Pending(i, n, element + pending)
  {
  }

  lemma KeyLists(v: Value, keys: seq<string>, i: nat)
    requires i < |keys|
    requires v.Plain? && forall k :: k in keys ==> k in v.entries
    ensures keys[i] in v.entries
    ensures forall k :: k in keys[i..] ==> k in v.entries
    ensures forall k :: k in keys[i + 1..] ==> k in v.entries
    ensures keys[i..][0] == keys[i] && keys[i..][1..] == keys[i + 1..]
  {
    assert keys[i] in keys;
  }

  lemma NextText(head: string, p: string, more: string, i: nat, n: nat)
    requires i < n
    requires i + 1 == n ==> more == ""
    ensures head + "" + p + Separator(n - i == 1, GO) + more == (head + p) + Pending(i + 1, n, more)
  {
  }

  lemma WriteMember(v: Value, keys: seq<string>, i: nat)
    requires i < |keys|
    requires v.Plain? && forall k :: k in keys ==> k in v.entries
    ensures keys[i] in v.entries
    ensures forall k :: k in keys[i..] ==> k in v.entries
    ensures forall k :: k in keys[i + 1..] ==> k in v.entries
    ensures PrintKeys(v, keys[i..], GO)
      == (Quote(keys[i], true) + ":" + Print(v.entries[keys[i]], GO)) + Pending(i + 1, |keys|, PrintKeys(v, keys[i + 1..], GO))
  {
    KeyLists(v, keys, i);
    NextText(Quote(keys[i], true) + ":", Print(v.entries[keys[i]], GO), PrintKeys(v, keys[i + 1..], GO), i, |keys|);
  }

  lemma WriteField(fields: seq<Field>, i: nat)
    requires i < |fields|
    ensures PrintFields(fields[i..], GO)
      == (Quote(fields[i].key, true) + ":" + Print(fields[i].value, GO)) + Pending(i + 1, |fields|, PrintFields(fields[i + 1..], GO))
  {
    assert fields[i..][1..] == fields[i + 1..] && fields[i..][0] == fields[i];
    NextText(Quote(fields[i].key, true) + ":", Print(fields[i].value, GO), PrintFields(fields[i + 1..], GO), i, |fields|);
  }

  lemma WriteItem(items: seq<Value>, i: nat)
    requires i < |items|
    ensures PrintItems(items[i..], GO) == Print(items[i], GO) + Pending(i + 1, |items|, PrintItems(items[i + 1..], GO))
  {
    assert items[i..][1..] == items[i + 1..] && items[i..][0] == items[i];
    NextItemText(Print(items[i], GO), PrintItems(items[i + 1..], GO), i, |items|);
  }

  lemma NextItemText(p: string, more: string, i: nat, n: nat)
    requires i < n
    requires i + 1 == n ==> more == ""
    ensures p + Separator(n - i == 1, GO) + more == p + Pending(i + 1, n, more)
  {
  }

  ghost predicate KeysIn(v: Value, keys: seq<string>) {
    v.Plain? && forall k :: k in keys ==> k in v.entries
  }

  /** What is written and what is still to be written make the whole text. */
  ghost predicate MapWritten(v: Value, keys: seq<string>, i: nat, buf: string, whole: string) {
    i <= |keys| && KeysIn(v, keys[i..]) && buf + Pending(i, |keys|, PrintKeys(v, keys[i..], GO)) == whole
  }

  lemma MapStart(v: Value, keys: seq<string>)
    requires KeysIn(v, keys)
    ensures MapWritten(v, keys, 0, "{", "{" + PrintKeys(v, keys, GO))
  {
    assert keys[0..] == keys;
    assert "" + PrintKeys(v, keys, GO) == PrintKeys(v, keys, GO);
  }

  lemma MapTurn(v: Value, keys: seq<string>, i: nat, buf: string, whole: string)
    requires i < |keys| && KeysIn(v, keys) && MapWritten(v, keys, i, buf, whole)
    ensures keys[i] in v.entries
    ensures MapWritten(v, keys, i + 1,
      buf + (if i > 0 then "," else "") + (Quote(keys[i], true) + ":" + Print(v.entries[keys[i]], GO)), whole)
  {
    WriteMember(v, keys, i);
    Advance(buf, i, |keys|, Quote(keys[i], true) + ":" + Print(v.entries[keys[i]], GO),
      Pending(i + 1, |keys|, PrintKeys(v, keys[i + 1..], GO)));
  }

  lemma MapEnd(v: Value, keys: seq<string>, buf: string, whole: string)
    requires MapWritten(v, keys, |keys|, buf, whole)
    ensures buf == whole
  {
    assert keys[|keys|..] == [];
    assert buf + ("" + "") == buf;
  }

  ghost predicate FieldsWritten(fields: seq<Field>, i: nat, buf: string, whole: string) {
    i <= |fields| && buf + Pending(i, |fields|, PrintFields(fields[i..], GO)) == whole
  }

  lemma FieldTurn(fields: seq<Field>, i: nat, buf: string, whole: string)
    requires i < |fields| && FieldsWritten(fields, i, buf, whole)
    ensures FieldsWritten(fields, i + 1,
      buf + (if i > 0 then "," else "") + (Quote(fields[i].key, true) + ":" + Print(fields[i].value, GO)), whole)
  {
    WriteField(fields, i);
    Advance(buf, i, |fields|, Quote(fields[i].key, true) + ":" + Print(fields[i].value, GO),
      Pending(i + 1, |fields|, PrintFields(fields[i + 1..], GO)));
  }

  lemma FieldEnds(fields: seq<Field>, buf: string, whole: string)
    ensures FieldsWritten(fields, 0, "{", "{" + PrintFields(fields, GO))
    ensures FieldsWritten(fields, |fields|, buf, whole) ==> buf == whole
  {
    assert fields[0..] == fields && fields[|fields|..] == [];
    assert "" + PrintFields(fields, GO) == PrintFields(fields, GO);
    assert buf + ("" + "") == buf;
  }

  ghost predicate ItemsWritten(items: seq<Value>, i: nat, buf: string, whole: string) {
    i <= |items| && buf + Pending(i, |items|, PrintItems(items[i..], GO)) == whole
  }

  lemma ItemTurn(items: seq<Value>, i: nat, buf: string, whole: string)
    requires i < |items| && ItemsWritten(items, i, buf, whole)
    ensures ItemsWritten(items, i + 1, buf + (if i > 0 then "," else "") + Print(items[i], GO), whole)
  {
    WriteItem(items, i);
    Advance(buf, i, |items|, Print(items[i], GO), Pending(i + 1, |items|, PrintItems(items[i + 1..], GO)));
  }

  lemma ItemEnds(items: seq<Value>, buf: string, whole: string)
    ensures ItemsWritten(items, 0, "[", "[" + PrintItems(items, GO))
    ensures ItemsWritten(items, |items|, buf, whole) ==> buf == whole
  {
    assert items[0..] == items && items[|items|..] == [];
    assert "" + PrintItems(items, GO) == PrintItems(items, GO);
    assert buf + ("" + "") == buf;
  }

  /** encoding/json's Marshal; it calls MarshalJSON on ordered maps and sorts the keys of plain
      ones just as MarshalSorted does. */
  method Marshal(v: Value) returns (text: string)
    ensures text == Print(v, GO)
    decreases v, 2
  {
    match v
    case Null => text := "null";
    case Bool(b) => text := if b then "true" else "false";
    case Number(token) => text := token;
    case String(s) => text := Quote(s, true);
    case Ordered(fields) => text := MarshalJSON(fields);
    case _ => text := MarshalSorted(v);
  }

  /** The service's own order-preserving printer. */
  method MarshalJSON(fields: seq<Field>) returns (buf: string)
    ensures buf == Print(Ordered(fields), GO)
    decreases fields, 1
  {
    buf := "{";
    ghost var whole := "{" + PrintFields(fields, GO);
    FieldEnds(fields, buf, whole);
    for i := 0 to |fields|
      invariant FieldsWritten(fields, i, buf, whole)
    {
      assert fields[i].value < fields[i] && fields[i] in fields;
      FieldTurn(fields, i, buf, whole);
      var value := Marshal(fields[i].value);
      var member := Quote(fields[i].key, true) + ":" + value;
      buf := buf + (if i > 0 then "," else "") + member;
    }
    FieldEnds(fields, buf, whole);
    buf := buf + "}";
  }

  method MarshalSorted(v: Value) returns (buf: string)
    ensures buf == Print(v, GO)
    decreases v, if v.Array? || v.Plain? then 1 else 3
  {
    match v
    case Plain(m) => buf := MarshalSortedMap(v);
    case Array(items) => buf := MarshalSortedArray(v);
    case _ => buf := Marshal(v);
  }

  method MarshalSortedMap(v: Value) returns (buf: string)
    requires v.Plain?
    ensures buf == Print(v, GO)
    decreases v, 0
  {
    var keys := SortedKeyList(v.entries);
    buf := "{";
    ghost var whole := "{" + PrintKeys(v, keys, GO);
    MapStart(v, keys);
    for i := 0 to |keys|
      invariant MapWritten(v, keys, i, buf, whole)
    {
      MapTurn(v, keys, i, buf, whole);
      var value := MarshalSorted(v.entries[keys[i]]);
      var member := Quote(keys[i], true) + ":" + value;
      buf := buf + (if i > 0 then "," else "") + member;
    }
    MapEnd(v, keys, buf, whole);
    buf := buf + "}";
  }

  method MarshalSortedArray(v: Value) returns (buf: string)
    requires v.Array?
    ensures buf == Print(v, GO)
    decreases v, 0
  {
    var items := v.items;
    buf := "[";
    ghost var whole := "[" + PrintItems(items, GO);
    ItemEnds(items, buf, whole);
    for i := 0 to |items|
      invariant ItemsWritten(items, i, buf, whole)
    {
      assert items[i] in items;
      ItemTurn(items, i, buf, whole);
      var item := MarshalSorted(items[i]);
      buf := buf + (if i > 0 then "," else "") + item;
    }
    ItemEnds(items, buf, whole);
    buf := buf + "]";
  }

  method CanonicalJSON(data: Value) returns (r: Result<string, ()>)
    ensures r == CanonicalText(data)
  {
    var raw := Marshal(data);
    ParsePrint(data, GO, MAX_DEPTH);
    match Parse(raw)
    case Err(e) => return Err(e);
    case Ok(generic) =>
      var text := MarshalSorted(generic);
      return Ok(text);
  }

  // ----- orderedMapToMap

  /** The last field of each key, with nested ordered maps converted and everything else kept. */
  function ToMap(fields: seq<Field>): map<string, Value> {
    if fields == [] then map[] else
      var f := fields[0];
      assert f.value < f;
      map[f.key := Converted(f.value)] + ToMap(fields[1..])
  }

  function Converted(v: Value): Value {
    match v
    case Ordered(fields) => Plain(ToMap(fields))
    case _ => v
  }

  method OrderedMapToMap(fields: seq<Field>) returns (m: map<string, Value>)
    ensures m == ToMap(fields)
    decreases fields, 0
  {
    m := map[];
    assert fields[0..] == fields;
    for i := 0 to |fields|
      invariant m + ToMap(fields[i..]) == ToMap(fields)
    {
      var f := fields[i];
      assert f.value < f && f in fields;
      ToMapStep(m, fields, i);
      if f.value.Ordered? {
        var inner := OrderedMapToMap(f.value.fields);
        m := m[f.key := Plain(inner)];
      } else {
        m := m[f.key := f.value];
      }
    }
  }

  lemma ToMapStep(m: map<string, Value>, fields: seq<Field>, i: nat)
    requires i < |fields|
    ensures m[fields[i].key := Converted(fields[i].value)] + ToMap(fields[i + 1..]) == m + ToMap(fields[i..])
  {
    assert fields[i..][1..] == fields[i + 1..];
  }

  /** Converting an ordered map to a plain one does not change what it means or how deep it is. */
  lemma {:induction false} ToMapMeaning(fields: seq<Field>)
    ensures Denote(Plain(ToMap(fields))) == Denote(Ordered(fields))
    decreases fields
  {
    if fields == [] {
      DenoteNothing();
    } else {
      var f, more := fields[0], fields[1..];
      assert f.value < f;
      if f.value.Ordered? {
        ToMapMeaning(f.value.fields);
      }
      ToMapMeaning(more);
      DenoteUpdate(f.key, Converted(f.value), ToMap(more));
    }
  }

  lemma DenoteNothing()
    ensures Denote(Plain(map[])) == Plain(map[])
  {
    DenotesItself(map[]);
  }

  lemma DenoteUpdate(key: string, v: Value, m: map<string, Value>)
    ensures Denote(Plain(map[key := v] + m)) == Plain(map[key := Denote(v)] + Denote(Plain(m)).entries)
  {
  }

  lemma {:induction false} ToMapFits(fields: seq<Field>, room: int)
    requires Fits(Ordered(fields), room)
    ensures Fits(Plain(ToMap(fields)), room)
    decreases fields
  {
    if fields != [] {
      var f, more := fields[0], fields[1..];
      assert f.value < f;
      if f.value.Ordered? {
        ToMapFits(f.value.fields, room - 1);
      }
      ToMapFits(more, room);
    }
  }
}
