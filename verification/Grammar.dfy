/** Which texts encoding/json accepts: the grammar of RFC 8259 as trees that keep every choice of spelling, and the
    parser proved to accept exactly the texts of such trees, with their meaning. */
module Grammar {
  import opened Wrappers
  import opened Json
  import opened RoundTrip

  // ----- trees (sections 2 to 7 of RFC 8259)

  type RawChar = c: char | c >= ' ' && c != '"' && c != '\\' witness ' '
  type Letter = c: char | c in "\"\\/bfnrt" witness 'n'
  predicate Hexadecimal(c: char) { '0' <= c <= '9' || 'a' <= c <= 'f' || 'A' <= c <= 'F' }

  type HexChar = c: char | Hexadecimal(c) witness '0'

  /** One character of a string as it is spelled. */
  datatype Unit =
    | Raw(c: RawChar)
    | Short(letter: Letter)
    | Code(h1: HexChar, h2: HexChar, h3: HexChar, h4: HexChar)

  /** The blanks in the gap stand between the brackets of an empty list or object. */
  datatype Tree =
    | NullWord
    | TrueWord
    | FalseWord
    | Numeral(token: NumberToken)
    | Text(units: seq<Unit>)
    | List(gap: Blanks, items: seq<Element>)
    | Object(gap: Blanks, members: seq<Member>)

  datatype Element = Element(before: Blanks, tree: Tree, after: Blanks)

  datatype Member = Member(before: Blanks, key: seq<Unit>, between: Blanks, element: Element)

  // ----- the text of a tree, in front of a tail

  function WriteUnit(u: Unit, tail: string): string {
    match u
    case Raw(c) => [c] + tail
    case Short(letter) => ['\\', letter] + tail
    case Code(h1, h2, h3, h4) => ['\\', 'u', h1, h2, h3, h4] + tail
  }

  function WriteUnits(units: seq<Unit>, tail: string): string {
    if units == [] then "\"" + tail else WriteUnit(units[0], WriteUnits(units[1..], tail))
  }

  function Write(t: Tree, tail: string): string
    decreases t
  {
    match t
    case NullWord => "null" + tail
    case TrueWord => "true" + tail
    case FalseWord => "false" + tail
    case Numeral(token) => token + tail
    case Text(units) => "\"" + WriteUnits(units, tail)
    case List(gap, items) => "[" + if items == [] then gap + ("]" + tail) else WriteItems(items, tail)
    case Object(gap, members) => "{" + if members == [] then gap + ("}" + tail) else WriteMembers(members, tail)
  }

  function WriteElement(e: Element, tail: string): string
    decreases e
  {
    e.before + Write(e.tree, e.after + tail)
  }

  function WriteItems(items: seq<Element>, tail: string): string
    requires items != []
    decreases items
  {
    WriteElement(items[0], if |items| == 1 then "]" + tail else "," + WriteItems(items[1..], tail))
  }

  function WriteMembers(members: seq<Member>, tail: string): string
    requires members != []
    decreases members
  {
    var m := members[0];
    assert m.element < m;
    var next := if |members| == 1 then "}" + tail else "," + WriteMembers(members[1..], tail);
    m.before + ("\"" + WriteUnits(m.key, m.between + (":" + WriteElement(m.element, next))))
  }

  // ----- its meaning

  function ValueOf(h: HexChar): (n: nat)
    ensures n < 16
  {
    if h <= '9' then h as int - '0' as int else if h <= 'F' then h as int - 'A' as int + 10 else h as int - 'a' as int + 10
  }

  function CodeOf(u: Unit): (n: nat)
    requires u.Code?
    ensures n < 0x1_0000
  {
    ValueOf(u.h1) * 0x1000 + ValueOf(u.h2) * 0x100 + ValueOf(u.h3) * 0x10 + ValueOf(u.h4)
  }

  predicate High(u: Unit) { u.Code? && 0xD800 <= CodeOf(u) < 0xDC00 }

  predicate Low(u: Unit) { u.Code? && 0xDC00 <= CodeOf(u) < 0xE000 }

  /** The character of a surrogate pair (section 7 of RFC 8259). */
  function PairOf(high: Unit, low: Unit): char
    requires High(high) && Low(low)
  {
    (0x1_0000 + (CodeOf(high) - 0xD800) * 0x400 + (CodeOf(low) - 0xDC00)) as char
  }

  function LetterOf(letter: Letter): char {
    match letter
    case 'b' => 8 as char
    case 'f' => 12 as char
    case 'n' => '\n'
    case 'r' => '\r'
    case 't' => '\t'
    case _ => letter
  }

  /** A surrogate that is no half of a pair is read as U+FFFD. */
  function CharOf(u: Unit): char {
    match u
    case Raw(c) => c
    case Short(letter) => LetterOf(letter)
    case Code(_, _, _, _) => if High(u) || Low(u) then 0xFFFD as char else CodeOf(u) as char
  }

  function Chars(units: seq<Unit>): string {
    if units == [] then ""
    else if |units| > 1 && High(units[0]) && Low(units[1]) then [PairOf(units[0], units[1])] + Chars(units[2..])
    else [CharOf(units[0])] + Chars(units[1..])
  }

  function Meaning(t: Tree): Value
    decreases t
  {
    match t
    case NullWord => Null
    case TrueWord => Bool(true)
    case FalseWord => Bool(false)
    case Numeral(token) => Number(token)
    case Text(units) => String(Chars(units))
    case List(_, items) => Array(MeaningOfItems(items))
    case Object(_, members) => Plain(MeaningOfMembers(members))
  }

  function MeaningOfItems(items: seq<Element>): seq<Value>
    decreases items
  {
    if items == [] then [] else [Meaning(items[0].tree)] + MeaningOfItems(items[1..])
  }

  /** The last of several members with one key wins. */
  function MeaningOfMembers(members: seq<Member>): map<string, Value>
    decreases members
  {
    if members == [] then map[] else
      var m := members[0];
      assert m.element < m;
      map[Chars(m.key) := Meaning(m.element.tree)] + MeaningOfMembers(members[1..])
  }

  /** Nested at most `room` deep; a negative limit never runs out. */
  ghost predicate Within(t: Tree, room: int)
    decreases t
  {
    match t
    case List(_, items) => room != 0 && ItemsWithin(items, room - 1)
    case Object(_, members) => room != 0 && MembersWithin(members, room - 1)
    case _ => true
  }

  ghost predicate ItemsWithin(items: seq<Element>, room: int)
    decreases items
  {
    items != [] ==> Within(items[0].tree, room) && ItemsWithin(items[1..], room)
  }

  ghost predicate MembersWithin(members: seq<Member>, room: int)
    decreases members
  {
    members != [] ==>
      var m := members[0];
      assert m.element < m;
      Within(m.element.tree, room) && MembersWithin(members[1..], room)
  }

  // ----- strings

  lemma HexMeans(c: char)
    ensures HexValue(c) >= 0 <==> Hexadecimal(c)
    ensures Hexadecimal(c) ==> HexValue(c) == ValueOf(c)
  {
  }

  /** A digit stands for its place in the list of digits, in either case. */
  lemma ValueMeans(h: HexChar)
    ensures h == "0123456789abcdef"[ValueOf(h)] || h == "0123456789ABCDEF"[ValueOf(h)]
  {
  }

  lemma Hex4Reads(s: string)
    requires |s| >= 4 && Hexadecimal(s[0]) && Hexadecimal(s[1]) && Hexadecimal(s[2]) && Hexadecimal(s[3])
    ensures Hex4(s) == CodeOf(Code(s[0], s[1], s[2], s[3]))
  {
    HexMeans(s[0]);
    HexMeans(s[1]);
    HexMeans(s[2]);
    HexMeans(s[3]);
    Hex4Is(s, ValueOf(s[0]), ValueOf(s[1]), ValueOf(s[2]), ValueOf(s[3]));
  }

  /** Four characters are read as a code unit only if they are hexadecimal digits. */
  lemma Hex4Needs(s: string)
    requires Hex4(s) >= 0
    ensures |s| >= 4 && Hexadecimal(s[0]) && Hexadecimal(s[1]) && Hexadecimal(s[2]) && Hexadecimal(s[3])
  {
    HexMeans(s[0]);
    HexMeans(s[1]);
    HexMeans(s[2]);
    HexMeans(s[3]);
  }

  /** The four digits of a unit, in front of a tail. */
  function Digits(u: Unit, tail: string): string
    requires u.Code?
  {
    [u.h1, u.h2, u.h3, u.h4] + tail
  }

  lemma DigitsRead(u: Unit, tail: string)
    requires u.Code?
    ensures Hex4(Digits(u, tail)) == CodeOf(u) && Digits(u, tail)[4..] == tail
    ensures WriteUnit(u, tail) == "\\u" + Digits(u, tail)
    ensures WriteUnit(u, tail)[1..] == "u" + Digits(u, tail) && ("u" + Digits(u, tail))[1..] == Digits(u, tail)
  {
    Hex4Reads(Digits(u, tail));
  }

  /** What follows a first half: its second half, or something else. */
  function LowAhead(s: string): int {
    if |s| >= 2 && s[0] == '\\' && s[1] == 'u' then Hex4(s[2..]) else -1
  }

  lemma UnicodeStep(s: string)
    requires Hex4(s) >= 0
    ensures var n, low := Hex4(s), LowAhead(s[4..]);
      ParseUnicode(s) ==
        if n < 0xD800 || n >= 0xE000 then Got(n as char, s[4..])
        else if n < 0xDC00 && 0xDC00 <= low < 0xE000 then
          Got((0x1_0000 + (n - 0xD800) * 0x400 + (low - 0xDC00)) as char, s[4..][6..])
        else Got(0xFFFD as char, s[4..])
  {
    if |s| >= 6 {
      assert s[6..] == s[4..][2..];
    }
    if |s| >= 10 {
      assert s[10..] == s[4..][6..];
    }
  }

  lemma AheadOfUnits(units: seq<Unit>, tail: string)
    ensures LowAhead(WriteUnits(units, tail)) == if units != [] && units[0].Code? then CodeOf(units[0]) else -1
  {
    if units != [] {
      var more := WriteUnits(units[1..], tail);
      if units[0].Code? {
        DigitsRead(units[0], more);
        assert WriteUnit(units[0], more)[2..] == Digits(units[0], more);
      }
    }
  }

  lemma ShortParses(u: Unit, tail: string)
    requires u.Short?
    ensures ParseChars(WriteUnit(u, tail)) == Prepend(CharOf(u), ParseChars(tail))
  {
    var s := WriteUnit(u, tail);
    assert s[1..][0] == u.letter && s[1..][1..] == tail;
  }

  lemma RawParses(u: Unit, tail: string)
    requires u.Raw?
    ensures ParseChars(WriteUnit(u, tail)) == Prepend(CharOf(u), ParseChars(tail))
  {
    assert WriteUnit(u, tail)[1..] == tail;
  }

  lemma EscapeStep(t: string)
    ensures ParseEscape("u" + t) == ParseUnicode(t)
  {
    assert ("u" + t)[1..] == t;
  }

  lemma CodeStep(s: string, t: string)
    requires s != "" && s[0] == '\\' && s[1..] == "u" + t
    ensures ParseChars(s) == match ParseUnicode(t) case Got(c, rest) => Prepend(c, ParseChars(rest)) case Bad => Bad
  {
    EscapeStep(t);
    BackslashStep(s);
  }

  lemma BackslashStep(s: string)
    requires s != "" && s[0] == '\\'
    ensures ParseChars(s) == match ParseEscape(s[1..]) case Got(c, rest) => Prepend(c, ParseChars(rest)) case Bad => Bad
  {
  }

  /** A unit that is not the first half of a pair with what follows. */
  lemma LoneParses(u: Unit, tail: string)
    requires u.Code? && !(High(u) && 0xDC00 <= LowAhead(tail) < 0xE000)
    ensures ParseChars(WriteUnit(u, tail)) == Prepend(CharOf(u), ParseChars(tail))
  {
    DigitsRead(u, tail);
    CodeStep(WriteUnit(u, tail), Digits(u, tail));
    UnicodeStep(Digits(u, tail));
  }

  lemma PairParses(u: Unit, low: Unit, tail: string)
    requires High(u) && Low(low)
    ensures ParseChars(WriteUnit(u, WriteUnit(low, tail))) == Prepend(PairOf(u, low), ParseChars(tail))
  {
    var more := WriteUnit(low, tail);
    DigitsRead(u, more);
    DigitsRead(low, tail);
    assert more[2..] == Digits(low, tail) && more[6..] == tail;
    CodeStep(WriteUnit(u, more), Digits(u, more));
    UnicodeStep(Digits(u, more));
  }

  lemma {:induction false} UnitsParse(units: seq<Unit>, tail: string)
    ensures ParseChars(WriteUnits(units, tail)) == Got(Chars(units), tail)
    decreases |units|
  {
    if units == [] {
      assert ("\"" + tail)[1..] == tail;
    } else {
      var u, more := units[0], WriteUnits(units[1..], tail);
      UnitsParse(units[1..], tail);
      match u
      case Raw(_) => RawParses(u, more);
      case Short(_) => ShortParses(u, more);
      case Code(_, _, _, _) =>
        AheadOfUnits(units[1..], tail);
        if |units| > 1 && High(u) && Low(units[1]) {
          UnitsParse(units[2..], tail);
          assert units[1..][1..] == units[2..];
          PairParses(u, units[1], WriteUnits(units[2..], tail));
        } else {
          LoneParses(u, more);
        }
    }
  }

  // ----- and back: the units of a text that was read

  lemma ShortUnit(s: string) returns (u: Unit)
    requires s != "" && ParseEscape(s).Got? && s[0] != 'u'
    ensures u.Short? && ParseEscape(s) == Got(CharOf(u), s[1..]) && WriteUnit(u, s[1..]) == "\\" + s
  {
    u := Short(s[0]);
    assert s == [s[0]] + s[1..];
  }

  lemma CodeUnit(s: string) returns (u: Unit)
    requires Hex4(s) >= 0
    ensures u.Code? && Hex4(s) == CodeOf(u) && WriteUnit(u, s[4..]) == "\\u" + s
  {
    Hex4Needs(s);
    Hex4Reads(s);
    u := Code(s[0], s[1], s[2], s[3]);
    assert s == [s[0], s[1], s[2], s[3]] + s[4..];
  }

  /** Reading a string is reading its units. */
  lemma {:induction false} UnitsRead(s: string) returns (units: seq<Unit>)
    requires ParseChars(s).Got?
    ensures s == WriteUnits(units, ParseChars(s).rest) && ParseChars(s).value == Chars(units)
    decreases |s|
  {
    if s[0] == '"' {
      units := [];
      assert s == "\"" + s[1..];
    } else if s[0] == '\\' {
      BackslashStep(s);
      if s[1..][0] == 'u' {
        units := CodesRead(s, s[2..]);
      } else {
        var u := ShortUnit(s[1..]);
        var more := UnitsRead(s[1..][1..]);
        units := [u] + more;
        assert s == "\\" + s[1..];
      }
    } else {
      var u := Raw(s[0]);
      var more := UnitsRead(s[1..]);
      units := [u] + more;
      assert s == [s[0]] + s[1..];
    }
  }

  lemma PairFirst(u: Unit, low: Unit, more: seq<Unit>, tail: string)
    requires High(u) && Low(low)
    ensures Chars([u, low] + more) == [PairOf(u, low)] + Chars(more)
    ensures WriteUnits([u, low] + more, tail) == WriteUnit(u, WriteUnit(low, WriteUnits(more, tail)))
  {
    assert ([u, low] + more)[1..] == [low] + more && ([u, low] + more)[2..] == more && ([low] + more)[1..] == more;
  }

  lemma LoneFirst(u: Unit, more: seq<Unit>, tail: string)
    requires !(High(u) && 0xDC00 <= LowAhead(WriteUnits(more, tail)) < 0xE000)
    ensures Chars([u] + more) == [CharOf(u)] + Chars(more)
    ensures WriteUnits([u] + more, tail) == WriteUnit(u, WriteUnits(more, tail))
  {
    AheadOfUnits(more, tail);
    assert ([u] + more)[1..] == more;
  }

  lemma {:induction false} CodesRead(s: string, t: string) returns (units: seq<Unit>)
    requires s == "\\u" + t && ParseChars(s).Got?
    ensures s == WriteUnits(units, ParseChars(s).rest) && ParseChars(s).value == Chars(units)
    decreases |s|, 0
  {
    UnicodeNeeded(s, t);
    var u := CodeUnit(t);
    var ahead := t[4..];
    if High(u) && 0xDC00 <= LowAhead(ahead) < 0xE000 {
      var low := CodeUnit(ahead[2..]);
      var rest := ahead[2..][4..];
      assert ahead == "\\u" + ahead[2..];
      PairParses(u, low, rest);
      var more := UnitsRead(rest);
      units := [u, low] + more;
      PairFirst(u, low, more, ParseChars(rest).rest);
    } else {
      LoneParses(u, ahead);
      var more := UnitsRead(ahead);
      units := [u] + more;
      LoneFirst(u, more, ParseChars(ahead).rest);
    }
  }

  lemma UnicodeNeeded(s: string, t: string)
    requires s == "\\u" + t && ParseChars(s).Got?
    ensures Hex4(t) >= 0
  {
    assert s[1..] == "u" + t;
    CodeStep(s, t);
  }

  // ----- blanks

  lemma {:induction false} BlanksAhead(s: string) returns (blanks: Blanks)
    ensures s == blanks + SkipBlanks(s)
  {
    if s != "" && Blank(s[0]) {
      var more := BlanksAhead(s[1..]);
      blanks := [s[0]] + more;
      assert s == [s[0]] + s[1..];
    } else {
      blanks := "";
    }
  }

  lemma {:induction false} SkipStops(s: string)
    ensures SkipBlanks(s) == "" || !Blank(SkipBlanks(s)[0])
    ensures SkipBlanks(SkipBlanks(s)) == SkipBlanks(s)
  {
    if s != "" && Blank(s[0]) {
      SkipStops(s[1..]);
    }
  }

  lemma SkipFirst(s: string, room: int)
    ensures ParseValue(SkipBlanks(s), room) == ParseValue(s, room)
    ensures ParseItems(SkipBlanks(s), room) == ParseItems(s, room)
    ensures ParseMembers(SkipBlanks(s), room) == ParseMembers(s, room)
  {
    SkipStops(s);
  }

  lemma BlankEnd(blanks: Blanks, tail: string)
    requires Delimited(tail)
    ensures Delimited(blanks + tail)
  {
  }

  // ----- every tree is parsed

  lemma TreeStarts(t: Tree, tail: string)
    ensures Write(t, tail) != "" && !Blank(Write(t, tail)[0])
    ensures Write(t, tail)[0] != ']' && Write(t, tail)[0] != '}'
  {
  }

  lemma ItemsStartWith(items: seq<Element>, tail: string)
    requires items != []
    ensures var s := SkipBlanks(WriteItems(items, tail)); s != "" && s[0] != ']'
  {
    var e := items[0];
    var next := e.after + if |items| == 1 then "]" + tail else "," + WriteItems(items[1..], tail);
    SkipsBlanks(e.before, Write(e.tree, next));
    TreeStarts(e.tree, next);
  }

  lemma MembersStartWith(members: seq<Member>, tail: string)
    requires members != []
    ensures var s := SkipBlanks(WriteMembers(members, tail)); s != "" && s[0] == '"'
  {
    var m := members[0];
    assert m.element < m;
    var next := if |members| == 1 then "}" + tail else "," + WriteMembers(members[1..], tail);
    SkipsBlanks(m.before, "\"" + WriteUnits(m.key, m.between + (":" + WriteElement(m.element, next))));
  }

  lemma EmptyBrackets(gap: Blanks, tail: string, room: int)
    ensures ParseValue("[" + (gap + ("]" + tail)), room) == if room == 0 then Bad else Got(Array([]), tail)
    ensures ParseValue("{" + (gap + ("}" + tail)), room) == if room == 0 then Bad else Got(Plain(map[]), tail)
  {
    SkipsBlanks(gap, "]" + tail);
    SkipsBlanks(gap, "}" + tail);
    OpenStep(gap + ("]" + tail), room);
    OpenStep(gap + ("}" + tail), room);
    assert ("]" + tail)[1..] == tail && ("}" + tail)[1..] == tail;
  }

  /** The text after an opening bracket, and after an opening brace. */
  function AfterBracket(t: string, room: int): Parsed<Value> {
    var s := SkipBlanks(t);
    if s != "" && s[0] == ']' then Got(Array([]), s[1..])
    else match ParseItems(t, room) case Got(items, rest) => Got(Array(items), rest) case Bad => Bad
  }

  function AfterBrace(t: string, room: int): Parsed<Value> {
    var s := SkipBlanks(t);
    if s != "" && s[0] == '}' then Got(Plain(map[]), s[1..])
    else match ParseMembers(t, room) case Got(m, rest) => Got(Plain(m), rest) case Bad => Bad
  }

  lemma OpenStep(t: string, room: int)
    ensures ParseValue("[" + t, room) == if room == 0 then Bad else AfterBracket(t, room - 1)
    ensures ParseValue("{" + t, room) == if room == 0 then Bad else AfterBrace(t, room - 1)
  {
    assert ("[" + t)[1..] == t && ("{" + t)[1..] == t;
    SkipFirst(t, room - 1);
  }

  /** What parsing the text of a tree in front of a tail gives. */
  ghost function Outcome(t: Tree, room: int, tail: string): Parsed<Value> {
    if Within(t, room) then Got(Meaning(t), tail) else Bad
  }

  lemma {:induction false} TreeParses(t: Tree, tail: string, room: int)
    requires Delimited(tail)
    ensures ParseValue(Write(t, tail), room) == Outcome(t, room, tail)
    decreases t
  {
    match t
    case Numeral(token) => NumberParses(token, tail, room);
    case Text(units) =>
      UnitsParse(units, tail);
      QuoteStep(WriteUnits(units, tail), room);
    case List(gap, items) =>
      if items == [] {
        EmptyBrackets(gap, tail, room);
        assert ItemsWithin(items, room - 1) && MeaningOfItems(items) == [];
      } else {
        OpenStep(WriteItems(items, tail), room);
        ItemsStartWith(items, tail);
        AllItemsParse(items, tail, room - 1);
      }
    case Object(gap, members) =>
      if members == [] {
        EmptyBrackets(gap, tail, room);
        assert MembersWithin(members, room - 1) && MeaningOfMembers(members) == map[];
      } else {
        OpenStep(WriteMembers(members, tail), room);
        MembersStartWith(members, tail);
        AllMembersParse(members, tail, room - 1);
      }
    case _ => WordsParse(tail, room);
  }

  lemma {:induction false} ElementParses(e: Element, tail: string, room: int)
    requires Delimited(tail)
    ensures ParseValue(WriteElement(e, tail), room) == Outcome(e.tree, room, e.after + tail)
    decreases e
  {
    BlankEnd(e.after, tail);
    TreeParses(e.tree, e.after + tail, room);
    BlanksBeforeValue(e.before, Write(e.tree, e.after + tail), room);
  }

  /** The end of a list or its continuation, after blanks. */
  lemma MoreStep(v: Value, key: string, blanks: Blanks, tail: string, room: int)
    ensures MoreItems(v, blanks + ("]" + tail), room) == Got([v], tail)
    ensures MoreItems(v, blanks + ("," + tail), room) ==
      match ParseItems(tail, room) case Got(items, rest) => Got([v] + items, rest) case Bad => Bad
    ensures MoreMembers(key, v, blanks + ("}" + tail), room) == Got(map[key := v], tail)
    ensures MoreMembers(key, v, blanks + ("," + tail), room) ==
      match ParseMembers(tail, room) case Got(m, rest) => Got(map[key := v] + m, rest) case Bad => Bad
  {
    SkipsBlanks(blanks, "]" + tail);
    SkipsBlanks(blanks, "," + tail);
    SkipsBlanks(blanks, "}" + tail);
    assert ("]" + tail)[1..] == tail && ("}" + tail)[1..] == tail && ("," + tail)[1..] == tail;
  }

  lemma LastItem(items: seq<Element>, room: int)
    requires |items| == 1
    ensures ItemsWithin(items, room) <==> Within(items[0].tree, room)
    ensures MeaningOfItems(items) == [Meaning(items[0].tree)]
  {
    assert MeaningOfItems(items[1..]) == [] && ItemsWithin(items[1..], room);
  }

  lemma LastMember(members: seq<Member>, room: int)
    requires |members| == 1
    ensures MembersWithin(members, room) <==> Within(members[0].element.tree, room)
    ensures MeaningOfMembers(members) == map[Chars(members[0].key) := Meaning(members[0].element.tree)]
  {
    assert members[0].element < members[0];
    assert MeaningOfMembers(members[1..]) == map[] && MembersWithin(members[1..], room);
  }

  lemma {:induction false} AllItemsParse(items: seq<Element>, tail: string, room: int)
    requires items != []
    ensures ParseItems(WriteItems(items, tail), room) ==
      if ItemsWithin(items, room) then Got(MeaningOfItems(items), tail) else Bad
    decreases items
  {
    var e := items[0];
    if |items| == 1 {
      ElementParses(e, "]" + tail, room);
      MoreStep(Meaning(e.tree), "", e.after, tail, room);
      LastItem(items, room);
    } else {
      var more := WriteItems(items[1..], tail);
      ElementParses(e, "," + more, room);
      MoreStep(Meaning(e.tree), "", e.after, more, room);
      AllItemsParse(items[1..], tail, room);
    }
  }

  /** A member's key and colon. */
  lemma KeyStep(m: Member, next: string, room: int)
    ensures ParseMembers(m.before + ("\"" + WriteUnits(m.key, m.between + (":" + next))), room) ==
      match ParseValue(next, room) case Got(v, after) => MoreMembers(Chars(m.key), v, after, room) case Bad => Bad
  {
    var t := m.between + (":" + next);
    var s := "\"" + WriteUnits(m.key, t);
    BlanksBeforeValue(m.before, s, room);
    UnitsParse(m.key, t);
    assert s[1..] == WriteUnits(m.key, t);
    SkipsBlanks(m.between, ":" + next);
    assert (":" + next)[1..] == next;
  }

  lemma {:induction false} AllMembersParse(members: seq<Member>, tail: string, room: int)
    requires members != []
    ensures ParseMembers(WriteMembers(members, tail), room) ==
      if MembersWithin(members, room) then Got(MeaningOfMembers(members), tail) else Bad
    decreases members
  {
    var m := members[0];
    assert m.element < m;
    var e := m.element;
    if |members| == 1 {
      KeyStep(m, WriteElement(e, "}" + tail), room);
      ElementParses(e, "}" + tail, room);
      MoreStep(Meaning(e.tree), Chars(m.key), e.after, tail, room);
      LastMember(members, room);
    } else {
      var more := WriteMembers(members[1..], tail);
      KeyStep(m, WriteElement(e, "," + more), room);
      ElementParses(e, "," + more, room);
      MoreStep(Meaning(e.tree), Chars(m.key), e.after, more, room);
      AllMembersParse(members[1..], tail, room);
    }
  }

  // ----- every text that is parsed is that of a tree

  lemma Extended(e: Element, blanks: Blanks, tail: string)
    requires e.after == ""
    ensures WriteElement(e.(after := blanks), tail) == WriteElement(e, blanks + tail)
  {
    assert "" + (blanks + tail) == blanks + tail;
  }

  lemma ItemFirst(e: Element, more: seq<Element>, tail: string, room: int)
    requires more != []
    ensures WriteItems([e] + more, tail) == WriteElement(e, "," + WriteItems(more, tail))
    ensures MeaningOfItems([e] + more) == [Meaning(e.tree)] + MeaningOfItems(more)
    ensures ItemsWithin([e] + more, room) <==> Within(e.tree, room) && ItemsWithin(more, room)
  {
    assert ([e] + more)[1..] == more;
  }

  lemma MemberFirst(m: Member, more: seq<Member>, tail: string, room: int)
    requires more != []
    ensures WriteMembers([m] + more, tail) ==
      m.before + ("\"" + WriteUnits(m.key, m.between + (":" + WriteElement(m.element, "," + WriteMembers(more, tail)))))
    ensures MeaningOfMembers([m] + more) == map[Chars(m.key) := Meaning(m.element.tree)] + MeaningOfMembers(more)
    ensures MembersWithin([m] + more, room) <==> Within(m.element.tree, room) && MembersWithin(more, room)
  {
    assert ([m] + more)[0] == m && ([m] + more)[1..] == more;
    assert m.element < m;
  }

  lemma {:induction false} ValueRead(text: string, room: int) returns (e: Element)
    requires ParseValue(text, room).Got?
    ensures e.after == "" && text == WriteElement(e, ParseValue(text, room).rest)
    ensures Within(e.tree, room) && Meaning(e.tree) == ParseValue(text, room).value
    decreases |text|, 2
  {
    var before := BlanksAhead(text);
    var s := SkipBlanks(text);
    SkipFirst(text, room);
    SkipStops(text);
    var t := TreeRead(s, room);
    e := Element(before, t, "");
    assert "" + ParseValue(s, room).rest == ParseValue(s, room).rest;
  }

  lemma {:induction false} TreeRead(s: string, room: int) returns (t: Tree)
    requires ParseValue(s, room).Got? && s != "" && !Blank(s[0])
    ensures s == Write(t, ParseValue(s, room).rest)
    ensures Within(t, room) && Meaning(t) == ParseValue(s, room).value
    decreases |s|, 1
  {
    if s[0] == '[' {
      assert s == "[" + s[1..];
      OpenStep(s[1..], room);
      t := ListRead(s[1..], room);
    } else if s[0] == '{' {
      assert s == "{" + s[1..];
      OpenStep(s[1..], room);
      t := ObjectRead(s[1..], room);
    } else {
      t := ScalarRead(s, room);
    }
  }

  lemma ScalarRead(s: string, room: int) returns (t: Tree)
    requires ParseValue(s, room).Got? && s != "" && !Blank(s[0]) && s[0] != '[' && s[0] != '{'
    ensures s == Write(t, ParseValue(s, room).rest)
    ensures Within(t, room) && Meaning(t) == ParseValue(s, room).value
  {
    if s[0] == '"' {
      var units := UnitsRead(s[1..]);
      t := Text(units);
      assert s == "\"" + s[1..];
    } else if "null" <= s {
      t := NullWord;
      assert s == "null" + s[4..];
    } else if "true" <= s {
      t := TrueWord;
      assert s == "true" + s[4..];
    } else if "false" <= s {
      t := FalseWord;
      assert s == "false" + s[5..];
    } else {
      t := Numeral(s[..NumberPrefix(s)]);
      assert s == s[..NumberPrefix(s)] + s[NumberPrefix(s)..];
    }
  }

  lemma EmptyOnes(gap: Blanks, tail: string, room: int)
    requires room != 0
    ensures Write(List(gap, []), tail) == "[" + (gap + ("]" + tail)) && Write(Object(gap, []), tail) == "{" + (gap + ("}" + tail))
    ensures Within(List(gap, []), room) && Within(Object(gap, []), room)
    ensures Meaning(List(gap, [])) == Array([]) && Meaning(Object(gap, [])) == Plain(map[])
  {
    assert ItemsWithin([], room - 1) && MeaningOfItems([]) == [];
    assert MembersWithin([], room - 1) && MeaningOfMembers([]) == map[];
  }

  lemma ListOf(items: seq<Element>, tail: string, room: int)
    requires items != []
    ensures Write(List("", items), tail) == "[" + WriteItems(items, tail)
    ensures Within(List("", items), room) <==> room != 0 && ItemsWithin(items, room - 1)
    ensures Meaning(List("", items)) == Array(MeaningOfItems(items))
  {
  }

  lemma ObjectOf(members: seq<Member>, tail: string, room: int)
    requires members != []
    ensures Write(Object("", members), tail) == "{" + WriteMembers(members, tail)
    ensures Within(Object("", members), room) <==> room != 0 && MembersWithin(members, room - 1)
    ensures Meaning(Object("", members)) == Plain(MeaningOfMembers(members))
  {
  }

  lemma {:induction false} ListRead(u: string, room: int) returns (t: Tree)
    requires AfterBracket(u, room - 1).Got? && room != 0
    ensures "[" + u == Write(t, AfterBracket(u, room - 1).rest)
    ensures Within(t, room) && Meaning(t) == AfterBracket(u, room - 1).value
    decreases |u|, 4
  {
    var v := SkipBlanks(u);
    if v != "" && v[0] == ']' {
      var gap := BlanksAhead(u);
      t := List(gap, []);
      assert v == "]" + v[1..];
      EmptyOnes(gap, v[1..], room);
    } else {
      var items := ItemsRead(u, room - 1);
      t := List("", items);
      ListOf(items, ParseItems(u, room - 1).rest, room);
    }
  }

  lemma {:induction false} ItemsRead(text: string, room: int) returns (items: seq<Element>)
    requires ParseItems(text, room).Got?
    ensures items != [] && text == WriteItems(items, ParseItems(text, room).rest)
    ensures ItemsWithin(items, room) && MeaningOfItems(items) == ParseItems(text, room).value
    decreases |text|, 3
  {
    var e := ValueRead(text, room);
    var after := ParseValue(text, room).rest;
    var blanks := BlanksAhead(after);
    var s := SkipBlanks(after);
    Extended(e, blanks, s);
    e := e.(after := blanks);
    if s[0] == ']' {
      items := [e];
      assert s == "]" + s[1..];
      LastItem(items, room);
    } else {
      var more := ItemsRead(s[1..], room);
      items := [e] + more;
      assert s == "," + s[1..];
      ItemFirst(e, more, ParseItems(s[1..], room).rest, room);
    }
  }

  lemma {:induction false} ObjectRead(u: string, room: int) returns (t: Tree)
    requires AfterBrace(u, room - 1).Got? && room != 0
    ensures "{" + u == Write(t, AfterBrace(u, room - 1).rest)
    ensures Within(t, room) && Meaning(t) == AfterBrace(u, room - 1).value
    decreases |u|, 4
  {
    var v := SkipBlanks(u);
    if v != "" && v[0] == '}' {
      var gap := BlanksAhead(u);
      t := Object(gap, []);
      assert v == "}" + v[1..];
      EmptyOnes(gap, v[1..], room);
    } else {
      var members := MembersRead(u, room - 1);
      t := Object("", members);
      ObjectOf(members, ParseMembers(u, room - 1).rest, room);
    }
  }

  lemma KeyNeeded(text: string, room: int)
    requires ParseMembers(text, room).Got?
    ensures var s := SkipBlanks(text);
      s != "" && s[0] == '"' && ParseChars(s[1..]).Got? &&
      var u := SkipBlanks(ParseChars(s[1..]).rest);
      u != "" && u[0] == ':' && ParseMembers(text, room) ==
      match ParseValue(u[1..], room) case Got(v, after) => MoreMembers(ParseChars(s[1..]).value, v, after, room) case Bad => Bad
  {
  }

  /** The spelling of a key and its colon. */
  lemma KeyRead(text: string, room: int) returns (before: Blanks, key: seq<Unit>, between: Blanks, next: string)
    requires ParseMembers(text, room).Got?
    ensures text == before + ("\"" + WriteUnits(key, between + (":" + next))) && |next| < |text|
    ensures ParseMembers(text, room) ==
      match ParseValue(next, room) case Got(v, after) => MoreMembers(Chars(key), v, after, room) case Bad => Bad
  {
    KeyNeeded(text, room);
    before := BlanksAhead(text);
    var s := SkipBlanks(text);
    key := UnitsRead(s[1..]);
    var t := ParseChars(s[1..]).rest;
    between := BlanksAhead(t);
    var u := SkipBlanks(t);
    next := u[1..];
    assert u == ":" + next && s == "\"" + s[1..];
  }

  lemma {:induction false} MembersRead(text: string, room: int) returns (members: seq<Member>)
    requires ParseMembers(text, room).Got?
    ensures members != [] && text == WriteMembers(members, ParseMembers(text, room).rest)
    ensures MembersWithin(members, room) && MeaningOfMembers(members) == ParseMembers(text, room).value
    decreases |text|, 3
  {
    var before, key, between, next := KeyRead(text, room);
    var e := ValueRead(next, room);
    var after := ParseValue(next, room).rest;
    var blanks := BlanksAhead(after);
    var s := SkipBlanks(after);
    Extended(e, blanks, s);
    var m := Member(before, key, between, e.(after := blanks));
    if s[0] == '}' {
      members := [m];
      assert s == "}" + s[1..];
      LastMember(members, room);
    } else {
      var more := MembersRead(s[1..], room);
      members := [m] + more;
      assert s == "," + s[1..];
      MemberFirst(m, more, ParseMembers(s[1..], room).rest, room);
    }
  }

  // ----- the theorem

  /** A tree with blanks around it spells the whole text. */
  ghost predicate Spells(e: Element, text: string) { WriteElement(e, "") == text }

  lemma SpelledParses(e: Element, room: int)
    ensures ParseWithin(WriteElement(e, ""), room) == if Within(e.tree, room) then Ok(Meaning(e.tree)) else Err(())
  {
    ElementParses(e, "", room);
    assert e.after + "" == e.after;
    SkipsBlanks(e.after, "");
  }

  /** The texts that are accepted are exactly those of trees nested within the limit, and what is read is what the
      tree means. */
  lemma ParsesExactly(text: string, room: int, v: Value)
    ensures ParseWithin(text, room) == Ok(v) <==>
      exists e :: Spells(e, text) && Within(e.tree, room) && Meaning(e.tree) == v
  {
    if ParseWithin(text, room) == Ok(v) {
      var e := ValueRead(text, room);
      var rest := ParseValue(text, room).rest;
      var blanks := BlanksAhead(rest);
      Extended(e, blanks, "");
      assert blanks + "" == rest;
      assert Spells(e.(after := blanks), text);
    }
    forall e | Spells(e, text) && Within(e.tree, room) ensures ParseWithin(text, room) == Ok(Meaning(e.tree)) {
      SpelledParses(e, room);
    }
  }

  /** No text has two meanings, at any depth. */
  lemma Unambiguous(e: Element, f: Element)
    requires WriteElement(e, "") == WriteElement(f, "")
    ensures Meaning(e.tree) == Meaning(f.tree)
  {
    WithinWithoutLimit(e.tree, -1);
    WithinWithoutLimit(f.tree, -1);
    SpelledParses(e, -1);
    SpelledParses(f, -1);
  }

  lemma {:induction false} WithinWithoutLimit(t: Tree, room: int)
    requires room < 0
    ensures Within(t, room)
    decreases t
  {
    match t
    case List(_, items) => ItemsWithoutLimit(items, room - 1);
    case Object(_, members) => MembersWithoutLimit(members, room - 1);
    case _ =>
  }

  lemma {:induction false} ItemsWithoutLimit(items: seq<Element>, room: int)
    requires room < 0
    ensures ItemsWithin(items, room)
    decreases items
  {
    if items != [] {
      WithinWithoutLimit(items[0].tree, room);
      ItemsWithoutLimit(items[1..], room);
    }
  }

  lemma {:induction false} MembersWithoutLimit(members: seq<Member>, room: int)
    requires room < 0
    ensures MembersWithin(members, room)
    decreases members
  {
    if members != [] {
      assert members[0].element < members[0];
      WithinWithoutLimit(members[0].element.tree, room);
      MembersWithoutLimit(members[1..], room);
    }
  }

  // ----- members with equal keys

  predicate LastOf(members: seq<Member>, key: string, i: nat) {
    && i < |members| && Chars(members[i].key) == key
    && forall j :: i < j < |members| ==> Chars(members[j].key) != key
  }

  lemma {:induction false} KeysMeant(members: seq<Member>, key: string)
    ensures key in MeaningOfMembers(members) <==> exists i :: 0 <= i < |members| && Chars(members[i].key) == key
    decreases |members|
  {
    if members != [] {
      KeysMeant(members[1..], key);
      assert members[0].element < members[0];
      if i :| 0 <= i < |members| && Chars(members[i].key) == key {
        assert i > 0 ==> members[1..][i - 1] == members[i];
      }
    }
  }

  /** Of several members with one key the last is read. */
  lemma {:induction false} LastWins(members: seq<Member>, key: string, i: nat)
    requires LastOf(members, key, i)
    ensures key in MeaningOfMembers(members) && MeaningOfMembers(members)[key] == Meaning(members[i].element.tree)
    decreases |members|
  {
    assert members[0].element < members[0];
    KeysMeant(members, key);
    KeysMeant(members[1..], key);
    if i > 0 {
      LastWins(members[1..], key, i - 1);
    }
  }

  // ----- number tokens (section 6 of RFC 8259)

  predicate AllDigits(s: string) { s != "" && forall i :: 0 <= i < |s| ==> '0' <= s[i] <= '9' }

  predicate Whole(s: string) { s == "0" || (AllDigits(s) && s[0] != '0') }

  predicate Fraction(s: string) { s == "" || (s[0] == '.' && AllDigits(s[1..])) }

  predicate Exponent(s: string) {
    s == "" || ((s[0] == 'e' || s[0] == 'E') && (AllDigits(s[1..]) || (|s| > 1 && (s[1] == '+' || s[1] == '-') && AllDigits(s[2..]))))
  }

  ghost predicate NumberParts(s: string, minus: string, whole: string, fraction: string, exponent: string) {
    && (minus == "" || minus == "-") && Whole(whole) && Fraction(fraction) && Exponent(exponent)
    && s == minus + (whole + (fraction + exponent))
  }

  ghost predicate NumberText(s: string) {
    exists minus, whole, fraction, exponent :: NumberParts(s, minus, whole, fraction, exponent)
  }

  lemma {:induction false} DigitsAhead(s: string) returns (digits: string)
    ensures s == digits + DropDigits(s) && (digits == "" || AllDigits(digits))
    ensures DropDigits(s) == "" || !Digit(DropDigits(s)[0])
    ensures SomeDigits(s) <==> digits != ""
    ensures digits != "" ==> digits[0] == s[0]
  {
    if SomeDigits(s) {
      var more := DigitsAhead(s[1..]);
      digits := [s[0]] + more;
      assert s == [s[0]] + s[1..];
    } else {
      digits := "";
    }
  }

  lemma {:induction false} DigitsDropped(digits: string, tail: string)
    requires digits == "" || AllDigits(digits)
    requires tail == "" || !Digit(tail[0])
    ensures DropDigits(digits + tail) == tail
  {
    if digits == "" {
      assert digits + tail == tail;
    } else {
      assert (digits + tail)[1..] == digits[1..] + tail;
      DigitsDropped(digits[1..], tail);
    }
  }

  lemma ExponentExactly(s: string)
    ensures ExponentOrEnd(s) <==> Exponent(s)
  {
    if |s| > 1 {
      AllDigitsExactly(s[1..]);
      AllDigitsExactly(s[2..]);
    }
  }

  lemma AllDigitsExactly(s: string)
    ensures SomeDigits(s) && DropDigits(s) == "" <==> AllDigits(s)
  {
    if SomeDigits(s) && DropDigits(s) == "" {
      var digits := DigitsAhead(s);
      assert digits + "" == digits;
    }
    if AllDigits(s) {
      DigitsDropped(s, "");
      assert s + "" == s;
    }
  }

  lemma FractionRead(s: string) returns (fraction: string, exponent: string)
    requires FractionOrEnd(s)
    ensures Fraction(fraction) && Exponent(exponent) && s == fraction + exponent
  {
    if s != "" && s[0] == '.' {
      var digits := DigitsAhead(s[1..]);
      fraction, exponent := "." + digits, DropDigits(s[1..]);
      assert s == "." + s[1..] && fraction[1..] == digits;
      ExponentExactly(exponent);
    } else {
      fraction, exponent := "", s;
      ExponentExactly(s);
    }
  }

  lemma FractionAccepted(fraction: string, exponent: string)
    requires Fraction(fraction) && Exponent(exponent)
    ensures FractionOrEnd(fraction + exponent)
    ensures var s := fraction + exponent; s == "" || !Digit(s[0])
  {
    ExponentExactly(exponent);
    var s := fraction + exponent;
    if fraction == "" {
      assert s == exponent;
    } else {
      assert s[1..] == fraction[1..] + exponent;
      DigitsDropped(fraction[1..], exponent);
    }
  }

  lemma NumberRead(s: string)
    requires IsNumber(s)
    ensures NumberText(s)
  {
    var minus, t := "", s;
    if s[0] == '-' {
      minus, t := "-", s[1..];
      assert s == "-" + s[1..];
    }
    var whole, rest := "0", t[1..];
    if t[0] == '0' {
      assert t == "0" + t[1..];
    } else {
      whole := DigitsAhead(t);
      rest := DropDigits(t);
    }
    var fraction, exponent := FractionRead(rest);
    assert NumberParts(s, minus, whole, fraction, exponent);
  }

  predicate NumberChars(s: string) { forall i :: 0 <= i < |s| ==> NumberChar(s[i]) }

  lemma PartsChars(minus: string, whole: string, fraction: string, exponent: string)
    requires (minus == "" || minus == "-") && Whole(whole) && Fraction(fraction) && Exponent(exponent)
    ensures NumberChars(minus) && NumberChars(whole) && NumberChars(fraction) && NumberChars(exponent)
  {
    assert forall i :: 0 < i < |fraction| ==> fraction[i] == fraction[1..][i - 1];
    assert forall i :: 0 < i < |exponent| ==> exponent[i] == exponent[1..][i - 1];
    assert forall i :: 1 < i < |exponent| ==> exponent[i] == exponent[2..][i - 2];
  }

  lemma UnsignedAccepted(whole: string, tail: string)
    requires Whole(whole) && FractionOrEnd(tail) && (tail == "" || !Digit(tail[0]))
    ensures var t := whole + tail;
      SomeDigits(t) && FractionOrEnd(if t[0] == '0' then t[1..] else DropDigits(t))
  {
    var t := whole + tail;
    if whole == "0" {
      assert t[1..] == tail;
    } else {
      DigitsDropped(whole, tail);
    }
  }

  lemma NumberAccepted(s: string, minus: string, whole: string, fraction: string, exponent: string)
    requires NumberParts(s, minus, whole, fraction, exponent)
    ensures IsNumber(s)
  {
    PartsChars(minus, whole, fraction, exponent);
    assert NumberChars(s);
    FractionAccepted(fraction, exponent);
    UnsignedAccepted(whole, fraction + exponent);
    var t := whole + (fraction + exponent);
    assert minus == "" ==> s == t;
    assert minus == "-" ==> s[1..] == t;
  }

  /** The number tokens are those of the grammar. */
  lemma NumberExactly(s: string)
    ensures IsNumber(s) <==> NumberText(s)
  {
    if IsNumber(s) {
      NumberRead(s);
    }
    forall minus, whole, fraction, exponent | NumberParts(s, minus, whole, fraction, exponent) ensures IsNumber(s) {
      NumberAccepted(s, minus, whole, fraction, exponent);
    }
  }
}
