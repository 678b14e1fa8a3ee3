/** Credential identifiers: how they are made, how they are put into the credential's URL, and how
    the verifier takes them out again. */
module CredentialIds {
  import opened Positional

  const URN_UUID := "urn:uuid:"

  // ----- cutting at the last separator

  /** Go's LastIndex idiom: what follows the last separator, or everything if there is none. */
  function AfterLast(sep: char, s: string): (r: string)
    ensures |r| <= |s|
    ensures sep !in r
  {
    if s == "" then ""
    else
      var last := s[|s| - 1];
      if last == sep then "" else AfterLast(sep, s[..|s| - 1]) + [last]
  }

  lemma {:induction false} AfterLastIs(sep: char, head: string, tail: string)
    requires sep !in tail
    ensures AfterLast(sep, head + [sep] + tail) == tail
  {
    var s := head + [sep] + tail;
    if tail == "" {
      assert s[|s| - 1] == sep;
    } else {
      var n := |tail| - 1;
      assert s[..|s| - 1] == head + [sep] + tail[..n];
      AfterLastIs(sep, head, tail[..n]);
      assert s[|s| - 1] == tail[n] && tail[n] in tail;
      assert tail == tail[..n] + [tail[n]];
    }
  }

  // ----- the credential URL

  function ShortId(id: string): string {
    if URN_UUID <= id then id[|URN_UUID|..] else id
  }

  function CredentialURL(server: string, id: string): string {
    server + "/credentials/" + ShortId(id)
  }

  /** The verifier recovers an identifier from its URL exactly when the identifier has no '/' and
      does not start with "urn:uuid:". */
  lemma RecoveredExactly(server: string, id: string)
    ensures AfterLast('/', CredentialURL(server, id)) == id <==> '/' !in id && !(URN_UUID <= id)
  {
    var url := CredentialURL(server, id);
    var short := ShortId(id);
    if '/' !in short {
      assert url == (server + "/credentials") + ['/'] + short;
      AfterLastIs('/', server + "/credentials", short);
    }
    if '/' !in id {
      assert forall c :: c in short ==> c in id;
    }
  }

  // ----- {code}-{category}-{year}{sequence}

  function DigitChars(ds: seq<int>): (s: string)
    requires Digits(10, ds)
    ensures |s| == |ds|
    ensures forall i :: 0 <= i < |ds| ==> s[i] == (48 + ds[i]) as char
  {
    seq(|ds|, i requires 0 <= i < |ds| => (48 + ds[i]) as char)
  }

  function Decimal(n: nat): (s: string)
    ensures '-' !in s && '/' !in s
  {
    DigitChars(Repr(10, n))
  }

  function FormatId(code: string, category: string, year: nat, number: nat): string
    requires 0 < year && 0 < number
  {
    code + "-" + category + "-" + Decimal(year) + Decimal(number)
  }

  lemma DigitCharsInjective(a: seq<int>, b: seq<int>)
    requires Digits(10, a) && Digits(10, b) && DigitChars(a) == DigitChars(b)
    ensures a == b
  {
    assert |a| == |DigitChars(a)| == |DigitChars(b)| == |b|;
    forall i | 0 <= i < |a| ensures a[i] == b[i] {
      assert DigitChars(a)[i] as int == 48 + a[i] && DigitChars(b)[i] as int == 48 + b[i];
    }
  }

  lemma DecimalInjective(m: nat, n: nat)
    requires Decimal(m) == Decimal(n)
    ensures m == n
  {
    DigitCharsInjective(Repr(10, m), Repr(10, n));
    EvalRepr(10, m);
    EvalRepr(10, n);
  }

  lemma FourDigitYear(year: nat)
    requires 1000 <= year <= 9999
    ensures |Decimal(year)| == 4
  {
    var a := year / 10;
    var b := a / 10;
    var c := b / 10;
    assert 1 <= c <= 9 && c / 10 == 0;
    assert |Repr(10, c)| == |Repr(10, 0)| + 1 == 1;
    assert |Repr(10, b)| == 2;
    assert |Repr(10, a)| == 3;
  }

  /** Identifiers made from years of equal length never collide unless they were made from the
      same sequence number, whatever dashes the code and the category contain. */
  lemma IdsDiffer(code: string, category: string, year: nat, number: nat,
                  code': string, category': string, year': nat, number': nat)
    requires 0 < year && 0 < number && 0 < year' && 0 < number'
    requires |Decimal(year)| == |Decimal(year')|
    requires FormatId(code, category, year, number) == FormatId(code', category', year', number')
    ensures number == number' && year == year'
  {
    var y, n, y', n' := Decimal(year), Decimal(number), Decimal(year'), Decimal(number');
    assert FormatId(code, category, year, number) == (code + "-" + category) + ['-'] + (y + n);
    assert FormatId(code', category', year', number') == (code' + "-" + category') + ['-'] + (y' + n');
    AfterLastIs('-', code + "-" + category, y + n);
    AfterLastIs('-', code' + "-" + category', y' + n');
    assert y == (y + n)[..|y|] && y' == (y' + n')[..|y|];
    assert n == (y + n)[|y|..] && n' == (y' + n')[|y|..];
    DecimalInjective(year, year');
    DecimalInjective(number, number');
  }

  /** Exactly when two draws give one identifier, whatever the years: the code and category texts
      agree, and so do the digits of year and number written together. */
  lemma CollideExactly(code: string, category: string, year: nat, number: nat,
                       code': string, category': string, year': nat, number': nat)
    requires 0 < year && 0 < number && 0 < year' && 0 < number'
    ensures FormatId(code, category, year, number) == FormatId(code', category', year', number') <==>
      code + "-" + category == code' + "-" + category' && Decimal(year) + Decimal(number) == Decimal(year') + Decimal(number')
  {
    var head, head' := code + "-" + category, code' + "-" + category';
    var tail, tail' := Decimal(year) + Decimal(number), Decimal(year') + Decimal(number');
    assert FormatId(code, category, year, number) == head + ['-'] + tail;
    assert FormatId(code', category', year', number') == head' + ['-'] + tail';
    CutExactly(head, tail, head', tail');
  }

  lemma CutExactly(head: string, tail: string, head': string, tail': string)
    requires '-' !in tail && '-' !in tail'
    ensures head + ['-'] + tail == head' + ['-'] + tail' <==> head == head' && tail == tail'
  {
    AfterLastIs('-', head, tail);
    AfterLastIs('-', head', tail');
    assert head == (head + ['-'] + tail)[..|head|];
    assert head' == (head' + ['-'] + tail')[..|head'|];
  }

  /** So numbers drawn in years of different length can collide: any year and any number, and the
      year with one digit more and the number with that digit less. */
  lemma LongYearsCollide(code: string, category: string, year: nat, digit: nat, number: nat) returns (more: nat)
    requires 0 < year && 0 < digit < 10 && 0 < number
    ensures number < more && FormatId(code, category, year, more) == FormatId(code, category, 10 * year + digit, number)
  {
    more := MovedDigit(10, year, digit, number);
    SameDigits(year, more, 10 * year + digit, number);
    SameTail(code, category, year, more, 10 * year + digit, number);
  }

  /** Year and longer number have the digits of longer year and number. */
  lemma MovedDigit(base: nat, year: nat, digit: nat, number: nat) returns (more: nat)
    requires 2 <= base && 0 < year && 0 < digit < base
    ensures number < more
    ensures Repr(base, year) + Repr(base, more) == Repr(base, base * year + digit) + Repr(base, number)
  {
    more := Prepended(base, digit, number);
    ReprDigit(base, year, digit);
    assert year * base + digit == base * year + digit;
    Regroup(Repr(base, year), digit, Repr(base, number));
  }

  lemma Prepended(base: nat, digit: nat, number: nat) returns (more: nat)
    requires 2 <= base && 0 < digit < base
    ensures number < more && Repr(base, more) == [digit] + Repr(base, number)
  {
    var ds := Repr(base, number);
    EvalRepr(base, number);
    EvalCons(base, digit, ds);
    PowPositive(base, |ds|);
    MulMonotonic(1, digit, Pow(base, |ds|), Pow(base, |ds|));
    ReprUnique(base, [digit] + ds);
    more := Eval(base, [digit] + ds);
  }

  lemma Regroup(a: seq<int>, d: int, b: seq<int>)
    ensures a + ([d] + b) == (a + [d]) + b
  {
  }

  lemma SameDigits(year: nat, number: nat, year': nat, number': nat)
    requires Repr(10, year) + Repr(10, number) == Repr(10, year') + Repr(10, number')
    ensures Decimal(year) + Decimal(number) == Decimal(year') + Decimal(number')
  {
    DigitCharsAppend(Repr(10, year), Repr(10, number));
    DigitCharsAppend(Repr(10, year'), Repr(10, number'));
  }

  lemma DigitCharsAppend(a: seq<int>, b: seq<int>)
    requires Digits(10, a) && Digits(10, b)
    ensures DigitChars(a + b) == DigitChars(a) + DigitChars(b)
  {
  }

  lemma SameTail(code: string, category: string, year: nat, number: nat, year': nat, number': nat)
    requires 0 < year && 0 < number && 0 < year' && 0 < number'
    requires Decimal(year) + Decimal(number) == Decimal(year') + Decimal(number')
    ensures FormatId(code, category, year, number) == FormatId(code, category, year', number')
  {
    CollideExactly(code, category, year, number, code, category, year', number');
  }

  lemma UrnPrefix(head: string, tail: string)
    requires head != "" && head[|head| - 1] == '-'
    ensures URN_UUID <= head + tail <==> URN_UUID <= head
  {
    if |head| < |URN_UUID| {
      assert (head + tail)[|head| - 1] == '-';
      assert forall i :: 0 <= i < |URN_UUID| ==> URN_UUID[i] != '-';
    } else {
      assert (head + tail)[..|URN_UUID|] == head[..|URN_UUID|];
    }
  }

  lemma FormatSplit(code: string, category: string, year: string, number: string)
    ensures code + "-" + category + "-" + year + number == (code + "-" + category + "-") + (year + number)
  {
  }

  lemma SlashIn(code: string, category: string, tail: string)
    requires '/' !in tail
    ensures '/' in (code + "-" + category + "-") + tail <==> '/' in code || '/' in category
  {
  }

  /** An identifier of this form is recovered from its URL exactly when the code and the category
      contain no '/' and the code does not make it look like a UUID URN. */
  lemma IssuedIdRecovered(server: string, code: string, category: string, year: nat, number: nat)
    requires 0 < year && 0 < number
    ensures AfterLast('/', CredentialURL(server, FormatId(code, category, year, number))) == FormatId(code, category, year, number)
      <==> '/' !in code && '/' !in category && !(URN_UUID <= code + "-" + category + "-")
  {
    var id := FormatId(code, category, year, number);
    var head, tail := code + "-" + category + "-", Decimal(year) + Decimal(number);
    RecoveredExactly(server, id);
    FormatSplit(code, category, Decimal(year), Decimal(number));
    UrnPrefix(head, tail);
    SlashIn(code, category, tail);
  }

  // ----- identifiers in full

  lemma DecimalIs(n: nat, ds: seq<int>)
    requires Repr(10, n) == ds
    ensures |Decimal(n)| == |ds| && forall i :: 0 <= i < |ds| ==> Decimal(n)[i] as int == 48 + ds[i]
  {
  }

  /** The digits of a numeral are those of its number, the highest first. */
  lemma DecimalReads(n: nat)
    ensures forall i :: 0 <= i < |Decimal(n)| ==> '0' <= Decimal(n)[i] <= '9'
    ensures n > 0 ==> |Decimal(n)| > 0 && Decimal(n)[0] != '0' && Decimal(n)[|Decimal(n)| - 1] as int == 48 + n % 10
  {
    ReprNoLeadingZero(10, n);
    DecimalIs(n, Repr(10, n));
  }

  /** A first badge, and where it is found. */
  lemma KnownId()
    ensures FormatId("SNU", "LEADERSHIP", 2026, 1) == "SNU" + "-" + "LEADERSHIP" + "-" + "2026" + "1"
    ensures CredentialURL("https://badge.example.com", "SNU-LEADERSHIP-20261") == "https://badge.example.com" + "/credentials/" + "SNU-LEADERSHIP-20261"
    ensures CredentialURL("https://badge.example.com", "urn:uuid:" + "0a1b") == "https://badge.example.com" + "/credentials/" + "0a1b"
  {
    KnownDigits();
    DecimalIs(2026, [2, 0, 2, 6]);
    DecimalIs(1, [1]);
    assert Decimal(2026) == "2026" && Decimal(1) == "1";
    assert "SNU-LEADERSHIP-20261"[0] == 'S' && URN_UUID[0] == 'u';
    assert URN_UUID <= URN_UUID + "0a1b" && (URN_UUID + "0a1b")[|URN_UUID|..] == "0a1b";
  }

  lemma KnownDigits()
    ensures Repr(10, 2026) == [2, 0, 2, 6] && Repr(10, 1) == [1]
  {
    assert Repr(10, 0) == [];
    ReprDigit(10, 2, 0);
    ReprDigit(10, 20, 2);
    ReprDigit(10, 202, 6);
  }
}
