/** Base58btc (Bitcoin alphabet): the Go encoder, the Go decoder that works in place on a fixed
    buffer, and the Python encoder and decoder that work on whole integers.

    `Encode` and `Decode` are the reference definitions.  Each of the four programs is a method
    proved equal to one of them, so a theorem about `Encode` and `Decode` is about all four. */
module Base58 {
  import opened Positional
  import opened Wrappers

  type byte = x: int | 0 <= x < 256

  // No 0, I, O or l.
  const ALPHABET := "123456789" + "ABCDEFGH" + "JKLMN" + "PQRSTUVWXYZ" + "abcdefghijk" + "mnopqrstuvwxyz"

  /** What a call of the Go decoder ends in.  `IndexOutOfRange` is the run-time panic of indexing
      the 256-entry lookup table with a larger code point; `Overflow` is the error returned when a
      carry leaves the buffer. */
  datatype Decoded =
    | Bytes(bytes: seq<byte>)
    | InvalidCharacter(c: char)
    | Overflow
    | IndexOutOfRange(c: char)

  // ----- the alphabet

  /** The position of c in the alphabet, or -1. */
  function Lookup(c: char): (d: int)
    ensures -1 <= d < 58
  {
    var n := c as int;
    if '1' <= c <= '9' then n - 49
    else if 'A' <= c <= 'H' then n - 56
    else if 'J' <= c <= 'N' then n - 57
    else if 'P' <= c <= 'Z' then n - 58
    else if 'a' <= c <= 'k' then n - 64
    else if 'm' <= c <= 'z' then n - 65
    else -1
  }

  lemma AlphabetLow(d: nat)
    requires d < 22
    ensures |ALPHABET| == 58 && Lookup(ALPHABET[d]) == d && ALPHABET[d] < 256 as char
  {
    assert ALPHABET[d] == if d < 9 then "123456789"[d] else if d < 17 then "ABCDEFGH"[d - 9] else "JKLMN"[d - 17];
  }

  lemma AlphabetMiddle(d: nat)
    requires 22 <= d < 44
    ensures |ALPHABET| == 58 && Lookup(ALPHABET[d]) == d && ALPHABET[d] < 256 as char
  {
    assert ALPHABET[d] == if d < 33 then "PQRSTUVWXYZ"[d - 22] else "abcdefghijk"[d - 33];
  }

  lemma AlphabetHigh(d: nat)
    requires 44 <= d < 58
    ensures |ALPHABET| == 58 && Lookup(ALPHABET[d]) == d && ALPHABET[d] < 256 as char
  {
    assert ALPHABET[d] == "mnopqrstuvwxyz"[d - 44];
  }

  lemma AlphabetAt(d: nat)
    requires d < 58
    ensures |ALPHABET| == 58
    ensures Lookup(ALPHABET[d]) == d
    ensures ALPHABET[d] < 256 as char
  {
    if d < 22 {
      AlphabetLow(d);
    } else if d < 44 {
      AlphabetMiddle(d);
    } else {
      AlphabetHigh(d);
    }
  }

  lemma LookupInverse(c: char)
    requires 0 <= Lookup(c)
    ensures |ALPHABET| == 58 && ALPHABET[Lookup(c)] == c
  {
    AlphabetAt(Lookup(c));
    LookupInjective(c, ALPHABET[Lookup(c)]);
  }

  lemma LookupInjective(a: char, b: char)
    requires 0 <= Lookup(a) == Lookup(b)
    ensures a == b
  {
  }

  lemma LookupMonotonic(a: char, b: char)
    requires 0 <= Lookup(a) < Lookup(b)
    ensures a < b
  {
  }

  lemma LookupAlphanumeric(c: char)
    ensures 0 <= Lookup(c) <==> Alphanumeric(c)
  {
  }

  /** Digits and letters but 0, I, O and l. */
  predicate Alphanumeric(c: char) {
    (('1' <= c <= '9') || ('A' <= c <= 'Z') || ('a' <= c <= 'z')) && c != 'I' && c != 'O' && c != 'l'
  }

  /** The alphabet is exactly these 58 characters in the order of their code points. */
  lemma AlphabetExactly(i: nat, j: nat, c: char)
    requires i < j < 58
    ensures |ALPHABET| == 58 && ALPHABET[i] < ALPHABET[j]
    ensures c in ALPHABET <==> Alphanumeric(c)
  {
    AlphabetAt(i);
    AlphabetAt(j);
    LookupMonotonic(ALPHABET[i], ALPHABET[j]);
    LookupAlphanumeric(c);
    if 0 <= Lookup(c) {
      LookupInverse(c);
    } else if c in ALPHABET {
      var d :| 0 <= d < |ALPHABET| && ALPHABET[d] == c;
      AlphabetAt(d);
    }
  }

  // ----- reference definitions

  ghost predicate ValidUpTo(s: string, n: nat)
    requires n <= |s|
  {
    forall i :: 0 <= i < n ==> 0 <= Lookup(s[i])
  }

  ghost predicate OverAlphabet(s: string) {
    ValidUpTo(s, |s|)
  }

  function Values(s: string): (ds: seq<int>)
    ensures |ds| == |s|
    ensures OverAlphabet(s) ==> Digits(58, ds)
  {
    seq(|s|, i requires 0 <= i < |s| => Lookup(s[i]))
  }

  function Symbols(ds: seq<int>): (s: string)
    requires Digits(58, ds)
    ensures |s| == |ds|
  {
    seq(|ds|, i requires 0 <= i < |ds| => ALPHABET[ds[i]])
  }

  function Encode(b: seq<byte>): string {
    TranscodeShape(256, 58, b);
    Symbols(Transcode(256, 58, b))
  }

  /** The position of the first character outside the alphabet, or the length. */
  function FirstInvalid(s: string): (n: nat)
    ensures n <= |s|
    ensures ValidUpTo(s, n)
    ensures n < |s| ==> Lookup(s[n]) < 0
    ensures n == |s| <==> OverAlphabet(s)
  {
    if s == [] || Lookup(s[0]) < 0 then 0 else
      var n := 1 + FirstInvalid(s[1..]);
      assert forall i :: 1 <= i < |s| ==> s[i] == s[1..][i - 1];
      n
  }

  function Decode(s: string): Decoded {
    var n := FirstInvalid(s);
    if n < |s| then
      if s[n] as int < 256 then InvalidCharacter(s[n]) else IndexOutOfRange(s[n])
    else
      TranscodeShape(58, 256, Values(s));
      Bytes(Transcode(58, 256, Values(s)))
  }

  // ----- the codec is a bijection

  lemma ValuesOfSymbols(ds: seq<int>)
    requires Digits(58, ds)
    ensures OverAlphabet(Symbols(ds))
    ensures Values(Symbols(ds)) == ds
  {
    forall i | 0 <= i < |ds| ensures Lookup(Symbols(ds)[i]) == ds[i] {
      AlphabetAt(ds[i]);
    }
  }

  lemma SymbolsOfValues(s: string)
    requires OverAlphabet(s)
    ensures Symbols(Values(s)) == s
  {
    forall i | 0 <= i < |s| ensures Symbols(Values(s))[i] == s[i] {
      LookupInverse(s[i]);
    }
  }

  /** Decoding an encoding gives the bytes back, for every byte string. */
  lemma DecodeEncode(b: seq<byte>)
    ensures OverAlphabet(Encode(b))
    ensures Decode(Encode(b)) == Bytes(b)
  {
    TranscodeShape(256, 58, b);
    ValuesOfSymbols(Transcode(256, 58, b));
    TranscodeInverse(256, 58, b);
  }

  /** Decoding succeeds exactly on the strings over the alphabet, and encoding the result gives
      the string back. */
  lemma EncodeDecode(s: string)
    ensures Decode(s).Bytes? <==> OverAlphabet(s)
    ensures Decode(s).Bytes? ==> Encode(Decode(s).bytes) == s
  {
    if OverAlphabet(s) {
      TranscodeInverse(58, 256, Values(s));
      SymbolsOfValues(s);
    }
  }

  // ----- the Go decoder's buffer always suffices

  /** b squared k times over. */
  function Tower(b: nat, k: nat): nat {
    if k == 0 then b else Tower(b, k - 1) * Tower(b, k - 1)
  }

  lemma {:induction false} PowTower(b: nat, k: nat)
    ensures Pow(b, Pow(2, k)) == Tower(b, k)
  {
    if k == 0 {
      assert Pow(b, 1) == b * Pow(b, 0);
    } else {
      PowTower(b, k - 1);
      PowAdd(b, Pow(2, k - 1), Pow(2, k - 1));
    }
  }

  function Tower71(b: nat): nat { Tower(b, 6) * Tower(b, 2) * Tower(b, 1) * Tower(b, 0) }
  function Tower52(b: nat): nat { Tower(b, 5) * Tower(b, 4) * Tower(b, 2) }

  // Exponents are passed as variables so that the powers are not unfolded factor by factor.
  lemma PowTower71(b: nat, m: nat)
    requires m == 71
    ensures Pow(b, m) == Tower71(b)
  {
    PowTower(b, 6); PowTower(b, 2); PowTower(b, 1); PowTower(b, 0);
    PowAdd(b, Pow(2, 6), Pow(2, 2));
    PowAdd(b, Pow(2, 6) + Pow(2, 2), Pow(2, 1));
    PowAdd(b, Pow(2, 6) + Pow(2, 2) + Pow(2, 1), Pow(2, 0));
  }

  lemma PowTower52(b: nat, n: nat)
    requires n == 52
    ensures Pow(b, n) == Tower52(b)
  {
    PowTower(b, 5); PowTower(b, 4); PowTower(b, 2);
    PowAdd(b, Pow(2, 5), Pow(2, 4));
    PowAdd(b, Pow(2, 5) + Pow(2, 4), Pow(2, 2));
  }

  lemma Tower71Of58()
    ensures Tower71(58) == 0xf1a10f76073f997e1af0b37f5c795ecf145633452837a5de3fa17ac74b86f60a0ebe5446f358940a4ca12a800000000000000000
  {
    var square6: nat := Tower(58, 6);
    assert square6 == 0x7853026ae25f4ce0c69893e6f1f86f67aef4db69563516064adeb967a9d66f4fe64b09ec94e5010000000000000000;
    assert Tower(58, 2) == 11316496;
    assert Tower(58, 1) == 3364;
  }

  lemma Tower52Of256()
    ensures Tower52(256) == 0x100000000000000000000000000000000000000000000000000000000000000000000000000000000000000000000000000000000
  {
    var square5: nat := Tower(256, 5);
    assert square5 == 0x10000000000000000000000000000000000000000000000000000000000000000;
    assert Tower(256, 4) == 0x100000000000000000000000000000000;
    assert Tower(256, 2) == 0x100000000;
  }

  /** 58^71 <= 256^52: the two literals behind the factor 733/1000. */
  lemma PowerLiterals(b: nat, c: nat, m: nat, n: nat)
    requires b == 58 && c == 256 && m == 71 && n == 52
    ensures Pow(b, m) <= Pow(c, n)
  {
    PowTower71(b, m);
    PowTower52(c, n);
    Tower71Of58();
    Tower52Of256();
  }

  /** The number of bytes Go's buffer holds for an input of `len` bytes. */
  function BufferSize(len: nat): nat {
    len * 733 / 1000 + 1
  }

  /** Every number of n base-58 digits fits a buffer sized for n or more input bytes. */
  lemma BufferSuffices(n: nat, len: nat)
    requires n <= len
    ensures Pow(58, n) <= Pow(256, BufferSize(len))
  {
    RootBound(58, 256, 71, 52, n, BufferSize(len));
  }

  lemma RootBound(b: nat, c: nat, m: nat, k: nat, n: nat, size: nat)
    requires b == 58 && c == 256 && m == 71 && k == 52
    requires k * n <= size * m
    ensures Pow(b, n) <= Pow(c, size)
  {
    PowerLiterals(b, c, m, k);
    PowMultiply(b, n, m);
    PowMultiply(b, m, n);
    PowMultiply(c, size, m);
    PowMultiply(c, k, n);
    PowMonotonicBase(Pow(b, m), Pow(c, k), n);
    PowMonotonicExponent(c, k * n, size * m);
    if Pow(c, size) < Pow(b, n) {
      PowStrict(Pow(c, size), Pow(b, n), m);
    }
  }

  // ----- the Go encoder

  function Reversed<T>(s: seq<T>): (r: seq<T>)
    ensures |r| == |s|
    ensures forall i :: 0 <= i < |s| ==> r[i] == s[|s| - 1 - i]
  {
    seq(|s|, i requires 0 <= i < |s| => s[|s| - 1 - i])
  }

  lemma SymbolsAppend(ds: seq<int>, d: int)
    requires Digits(58, ds) && 0 <= d < 58
    ensures Symbols(ds + [d]) == Symbols(ds) + [ALPHABET[d]]
  {
  }

  lemma SymbolsOfZeros(n: nat, ds: seq<int>)
    requires Digits(58, ds)
    ensures Symbols(Zeros(n) + ds) == seq(n, _ => '1') + Symbols(ds)
  {
  }

  /** The encoding as both encoders build it: ones for the leading zeros, then the digits. */
  lemma EncodeIs(data: seq<byte>, zeros: nat)
    requires zeros == Lead(data)
    ensures 0 <= Eval(256, data) && Encode(data) == seq(zeros, _ => '1') + Symbols(Repr(58, Eval(256, data)))
  {
    EvalNonNegative(256, data);
    SymbolsOfZeros(zeros, Repr(58, Eval(256, data)));
  }

  /** One division step moves the last digit of x from the number to the text. */
  lemma DivideStep(x: nat, text: string)
    requires 0 < x
    ensures Symbols(Repr(58, x)) + text == Symbols(Repr(58, x / 58)) + ([ALPHABET[x % 58]] + text)
  {
    var head, last := Repr(58, x / 58), x % 58;
    assert Repr(58, x) == head + [last];
    SymbolsAppend(head, last);
    Reassociate(Symbols(head), ALPHABET[last], text);
  }

  lemma Reassociate(a: string, c: char, b: string)
    ensures (a + [c]) + b == a + ([c] + b)
  {
  }

  method CountLeadingZeros(input: seq<byte>) returns (n: nat)
    ensures n == Lead(input)
  {
    n := 0;
    while n < |input| && input[n] == 0
      invariant n <= |input|
      invariant Lead(input) == n + Lead(input[n..])
    {
      n := n + 1;
    }
  }

  method EncodeGo(input: seq<byte>) returns (text: string)
    ensures text == Encode(input)
  {
    if |input| == 0 {
      assert Transcode(256, 58, []) == [];
      return "";
    }
    var leadingZeros := CountLeadingZeros(input);
    EncodeIs(input, leadingZeros);
    var encoded := GoDigits(Eval(256, input));

    ghost var digits := encoded;
    for i := 0 to leadingZeros
      invariant encoded == digits + seq(i, _ => '1')
    {
      encoded := encoded + [ALPHABET[0]];
    }

    var buf := new char[|encoded|](k requires 0 <= k < |encoded| => encoded[k]);
    assert buf[..] == encoded;
    ReverseInPlace(buf);
    assert Reversed(digits + seq(leadingZeros, _ => '1')) == seq(leadingZeros, _ => '1') + Reversed(digits);
    return buf[..];
  }

  /** The digits of a number, the last one first. */
  method GoDigits(number: nat) returns (encoded: string)
    ensures Reversed(encoded) == Symbols(Repr(58, number))
  {
    var x := number;
    encoded := "";
    while x > 0
      invariant 0 <= x
      invariant Symbols(Repr(58, number)) == Symbols(Repr(58, x)) + Reversed(encoded)
    {
      DivideStep(x, Reversed(encoded));
      assert Reversed(encoded + [ALPHABET[x % 58]]) == [ALPHABET[x % 58]] + Reversed(encoded);
      encoded := encoded + [ALPHABET[x % 58]];
      x := x / 58;
    }
  }

  method ReverseInPlace(encoded: array<char>)
    modifies encoded
    ensures encoded[..] == Reversed(old(encoded[..]))
  {
    var i, j := 0, encoded.Length - 1;
    while i < j
      invariant 0 <= i <= j + 1 && i + j == encoded.Length - 1
      invariant forall k :: 0 <= k < i ==> encoded[k] == old(encoded[encoded.Length - 1 - k])
      invariant forall k :: j < k < encoded.Length ==> encoded[k] == old(encoded[encoded.Length - 1 - k])
      invariant forall k :: i <= k <= j ==> encoded[k] == old(encoded[k])
    {
      encoded[i], encoded[j] := encoded[j], encoded[i];
      i, j := i + 1, j - 1;
    }
  }

  // ----- the Python encoder

  lemma OneMoreZero(data: seq<byte>, i: nat)
    requires i < |data| && data[i] == 0 && Lead(data) == i + Lead(data[i..])
    ensures Lead(data) == i + 1 + Lead(data[i + 1..])
  {
    assert data[i..][1..] == data[i + 1..];
  }

  lemma OneMoreOne(i: nat, digits: string)
    ensures ['1'] + (seq(i, _ => '1') + digits) == seq(i + 1, _ => '1') + digits
  {
  }

  method EncodePython(data: seq<byte>) returns (result: string)
    ensures result == Encode(data)
  {
    EvalNonNegative(256, data);
    var n := Eval(256, data);
    var digits := PythonDigits(n);
    result := digits;
    var i := 0;
    while i < |data| && data[i] == 0
      invariant i <= |data|
      invariant Lead(data) == i + Lead(data[i..])
      invariant result == seq(i, _ => '1') + digits
    {
      OneMoreZero(data, i);
      OneMoreOne(i, digits);
      result := [ALPHABET[0]] + result;
      i := i + 1;
    }
    EncodeIs(data, i);
  }

  method PythonDigits(number: nat) returns (result: string)
    ensures result == Symbols(Repr(58, number))
  {
    var n := number;
    result := "";
    while n > 0
      invariant 0 <= n
      invariant Symbols(Repr(58, number)) == Symbols(Repr(58, n)) + result
    {
      DivideStep(n, result);
      result := [ALPHABET[n % 58]] + result;
      n := n / 58;
    }
  }

  // ----- the Go decoder

  /** The length of a text in UTF-8 bytes, which is what Go's len returns. */
  function Utf8Length(s: string): (n: nat)
    ensures |s| <= n
  {
    if s == [] then 0 else
      var c := s[0] as int;
      (if c < 0x80 then 1 else if c < 0x800 then 2 else if c < 0x1_0000 then 3 else 4) + Utf8Length(s[1..])
  }

  method BuildLookup() returns (lookup: array<int>)
    ensures fresh(lookup) && lookup.Length == 256
    ensures forall c: char :: c as int < 256 ==> lookup[c as int] == Lookup(c)
  {
    AlphabetAt(0);
    lookup := new int[256](_ => -1);
    for i := 0 to |ALPHABET|
      invariant |ALPHABET| == 58
      invariant forall c: char :: c as int < 256 ==>
        lookup[c as int] == if Lookup(c) < i then Lookup(c) else -1
    {
      AlphabetAt(i);
      forall c: char | Lookup(c) == i ensures c == ALPHABET[i] {
        LookupInverse(c);
      }
      lookup[ALPHABET[i] as int] := i;
    }
  }

  lemma CarryArithmetic(p: nat, above: int, was: int, d: nat, carry: nat, value: int, high: int, low: int)
    requires above + carry * p == 58 * was + value
    requires carry + 58 * d == 256 * high + low
    ensures low * p + above + high * (256 * p) == 58 * (d * p + was) + value
  {
    assert high * (256 * p) == (256 * high) * p;
    assert (256 * high) * p + low * p == (256 * high + low) * p;
    assert (carry + 58 * d) * p == carry * p + (58 * d) * p;
    assert (58 * d) * p == 58 * (d * p);
  }

  /** One turn of the inner loop: `above` is the part of the buffer already rewritten and `was`
      what stood there before; the byte d in front of it becomes `low`, and `high` is carried. */
  lemma CarryStep(above: seq<int>, was: seq<int>, d: nat, carry: nat, value: int, high: int, low: int)
    requires |above| == |was|
    requires Eval(256, above) + carry * Pow(256, |was|) == 58 * Eval(256, was) + value
    requires carry + 58 * d == 256 * high + low
    ensures Eval(256, [low] + above) + high * Pow(256, |was| + 1) == 58 * Eval(256, [d] + was) + value
  {
    EvalCons(256, low, above);
    EvalCons(256, d, was);
    var x, y := Eval(256, [low] + above), Eval(256, [d] + was);
    var a, w, p := Eval(256, above), Eval(256, was), Pow(256, |was|);
    CarryArithmetic(p, a, w, d, carry, value, high, low);
    assert Pow(256, |was| + 1) == 256 * p;
  }

  /** The value of the buffer times 58 plus the digit, split into the new buffer and the carry. */
  /** One turn of the loop, on the digits it has rewritten and those it has not. */
  lemma CarryTurn(was: seq<int>, above: seq<int>, j: nat, carry: nat, digit: nat, total: nat)
    requires j < |was| && |above| == |was| - 1 - j && was[j] >= 0 && total == carry + 58 * was[j]
    requires Eval(256, above) + carry * Pow(256, |above|) == 58 * Eval(256, was[j + 1..]) + digit
    ensures Eval(256, [total % 256] + above) + total / 256 * Pow(256, |above| + 1) == 58 * Eval(256, was[j..]) + digit
  {
    CarryStep(above, was[j + 1..], was[j], carry, digit, total / 256, total % 256);
    assert was[j..] == [was[j]] + was[j + 1..];
  }

  lemma Overwritten(was: seq<int>, above: seq<int>, j: nat, x: int)
    requires j < |was|
    ensures (was[..j + 1] + above)[j := x] == was[..j] + ([x] + above)
  {
  }

  method MultiplyAdd(buf: array<byte>, digit: nat) returns (carry: nat)
    modifies buf
    ensures Eval(256, buf[..]) + carry * Pow(256, buf.Length) == 58 * old(Eval(256, buf[..])) + digit
  {
    ghost var was: seq<int> := buf[..];
    ghost var above: seq<int> := [];
    carry := digit;
    var j := buf.Length - 1;
    while j >= 0
      invariant -1 <= j < buf.Length == |was|
      invariant buf[..] == was[..j + 1] + above
      invariant |above| == |was| - 1 - j
      invariant Eval(256, above) + carry * Pow(256, |above|) == 58 * Eval(256, was[j + 1..]) + digit
    {
      ghost var before := carry;
      assert buf[j] == was[j];
      carry := carry + 58 * (buf[j] as int);
      CarryTurn(was, above, j, before, digit, carry);
      Overwritten(was, above, j, carry % 256);
      buf[j] := carry % 256;
      above := [carry % 256] + above;
      carry := carry / 256;
      j := j - 1;
    }
    assert was[0..] == was && above == buf[..];
  }

  lemma NoCarry(buf: seq<int>, carry: nat, value: nat)
    requires Digits(256, buf)
    requires Eval(256, buf) + carry * Pow(256, |buf|) == value < Pow(256, |buf|)
    ensures carry == 0 && Eval(256, buf) == value
  {
    EvalNonNegative(256, buf);
    if carry > 0 {
      MulMonotonic(1, carry, Pow(256, |buf|), Pow(256, |buf|));
    }
  }

  lemma EvalPrefix(base: nat, ds: seq<int>, i: nat)
    requires i < |ds|
    ensures Eval(base, ds[..i + 1]) == base * Eval(base, ds[..i]) + ds[i]
  {
    var read := ds[..i + 1];
    assert read[..|read| - 1] == ds[..i];
  }

  lemma ValuesPrefix(s: string, i: nat)
    requires i < |s| && ValidUpTo(s, i + 1)
    ensures Digits(58, Values(s)[..i]) && Digits(58, Values(s)[..i + 1]) && Values(s)[i] == Lookup(s[i])
    ensures i + 1 <= Utf8Length(s)
  {
    var values := Values(s);
    assert forall k :: 0 <= k <= i ==> 0 <= Lookup(s[k]) < 58;
    assert forall k :: 0 <= k <= i ==> values[k] == Lookup(s[k]);
  }

  lemma PrefixFits(read: seq<int>, n: nat)
    requires Digits(58, read) && |read| <= n
    ensures Eval(58, read) < Pow(256, BufferSize(n))
  {
    EvalBound(58, read);
    BufferSuffices(|read|, n);
  }

  /** One turn of the outer loop: the number read so far always fits the buffer. */
  lemma ReadStep(s: string, i: nat)
    requires i < |s| && ValidUpTo(s, i + 1)
    ensures 0 <= Eval(58, Values(s)[..i])
    ensures Eval(58, Values(s)[..i + 1]) == 58 * Eval(58, Values(s)[..i]) + Lookup(s[i])
    ensures Eval(58, Values(s)[..i + 1]) < Pow(256, BufferSize(Utf8Length(s)))
  {
    ValuesPrefix(s, i);
    EvalPrefix(58, Values(s), i);
    EvalNonNegative(58, Values(s)[..i]);
    PrefixFits(Values(s)[..i + 1], Utf8Length(s));
  }

  method CountLeadingOnes(input: string) returns (n: nat)
    ensures n <= |input| && (forall i :: 0 <= i < n ==> input[i] == '1')
    ensures n < |input| ==> input[n] != '1'
  {
    n := 0;
    while n < |input| && input[n] == '1'
      invariant n <= |input|
      invariant forall i :: 0 <= i < n ==> input[i] == '1'
    {
      n := n + 1;
    }
  }

  method SkipZeros(buf: array<byte>) returns (start: nat)
    ensures start <= buf.Length && buf[..] == Zeros(start) + buf[start..]
    ensures start < buf.Length ==> buf[start] != 0
  {
    start := 0;
    while start < buf.Length && buf[start] == 0
      invariant start <= buf.Length
      invariant forall i :: 0 <= i < start ==> buf[i] == 0
    {
      start := start + 1;
    }
  }

  /** The outer loop, on a zeroed buffer: either the whole input is read into the buffer, or the
      call ends early with the outcome of the first character outside the alphabet. */
  method ReadDigits(input: string, lookup: array<int>, buf: array<byte>) returns (failure: Option<Decoded>)
    requires lookup.Length == 256
    requires forall c: char :: c as int < 256 ==> lookup[c as int] == Lookup(c)
    requires buf.Length == BufferSize(Utf8Length(input)) && Eval(256, buf[..]) == 0
    modifies buf
    ensures failure.Some? ==> failure.value == Decode(input) && !failure.value.Overflow?
    ensures failure.None? ==> OverAlphabet(input) && Eval(256, buf[..]) == Eval(58, Values(input))
  {
    for i := 0 to |input|
      invariant ValidUpTo(input, i)
      invariant Eval(256, buf[..]) == Eval(58, Values(input)[..i])
    {
      var c := input[i];
      if c as int >= 256 {
        return Some(IndexOutOfRange(c));
      }
      var digit := lookup[c as int];
      if digit < 0 {
        return Some(InvalidCharacter(c));
      }
      ReadStep(input, i);
      var carry := MultiplyAdd(buf, digit);
      NoCarry(buf[..], carry, Eval(58, Values(input)[..i + 1]));
      if carry != 0 {
        failure := Some(Overflow);
        assert false;
      }
    }
    assert Values(input)[..|input|] == Values(input);
    return None;
  }

  method DecodeGo(input: string) returns (r: Decoded)
    ensures r == Decode(input)
    ensures !r.Overflow?
  {
    var lookup := BuildLookup();
    var leadingZeros := CountLeadingOnes(input);

    var size := Utf8Length(input) * 733 / 1000;
    var buf := new byte[size + 1](_ => 0);
    assert buf[..] == Zeros(size + 1) + [];
    EvalZeros(256, size + 1, []);
    var failure := ReadDigits(input, lookup, buf);
    if failure.Some? {
      return failure.value;
    }

    var start := SkipZeros(buf);
    EvalZeros(256, start, buf[start..]);
    FinishDecode(input, leadingZeros, buf[start..]);
    return Bytes(seq(leadingZeros, _ => 0) + buf[start..]);
  }

  lemma FinishDecode(s: string, leadingZeros: nat, core: seq<byte>)
    requires OverAlphabet(s)
    requires leadingZeros <= |s| && (forall i :: 0 <= i < leadingZeros ==> s[i] == '1')
    requires leadingZeros < |s| ==> s[leadingZeros] != '1'
    requires core != [] ==> core[0] != 0
    requires Eval(256, core) == Eval(58, Values(s))
    ensures Decode(s) == Bytes(seq(leadingZeros, _ => 0) + core)
  {
    LeadIs(Values(s), leadingZeros);
    TranscodeUnique(58, 256, Values(s), core);
    assert Zeros(leadingZeros) == seq(leadingZeros, _ => 0);
  }

  // ----- the Python decoder

  /** Python's int.bit_length. */
  function BitLength(n: nat): nat {
    if n == 0 then 0 else 1 + BitLength(n / 2)
  }

  /** Python's int.to_bytes(length, 'big'), which raises OverflowError when n does not fit. */
  function ToBytes(n: nat, length: nat): (r: Option<seq<byte>>)
    ensures r.Some? ==> |r.value| == length
  {
    if length == 0 then (if n == 0 then Some([]) else None)
    else match ToBytes(n / 256, length - 1)
      case None => None
      case Some(high) => Some(high + [n % 256])
  }

  lemma BitLengthByte(n: nat)
    ensures n < 256 ==> BitLength(n) <= 8
    ensures 256 <= n ==> BitLength(n) == 8 + BitLength(n / 256)
    ensures n > 0 ==> BitLength(n) > 0
  {
    var a := n / 2;
    var b := a / 2;
    var c := b / 2;
    var d := c / 2;
    assert BitLength(n) == if n == 0 then 0 else 1 + BitLength(a);
    assert BitLength(a) == if a == 0 then 0 else 1 + BitLength(b);
    assert BitLength(b) == if b == 0 then 0 else 1 + BitLength(c);
    assert BitLength(c) == if c == 0 then 0 else 1 + BitLength(d);
    var e := d / 2;
    var f := e / 2;
    var g := f / 2;
    var h := g / 2;
    assert BitLength(d) == if d == 0 then 0 else 1 + BitLength(e);
    assert BitLength(e) == if e == 0 then 0 else 1 + BitLength(f);
    assert BitLength(f) == if f == 0 then 0 else 1 + BitLength(g);
    assert BitLength(g) == if g == 0 then 0 else 1 + BitLength(h);
    assert h == n / 256;
  }

  lemma NextByte(n: nat, length: nat, high: seq<byte>)
    requires ToBytes(n / 256, length) == Some(high)
    ensures ToBytes(n, length + 1) == Some(high + [n % 256])
  {
  }

  lemma OneByte(n: nat)
    requires 0 < n < 256
    ensures (BitLength(n) + 7) / 8 == 1 && ToBytes(n, 1) == Some([n]) && Repr(256, n) == [n]
  {
    BitLengthByte(n);
    assert n / 256 == 0 && n % 256 == n;
    assert Repr(256, 0) == [];
    NextByte(n, 0, []);
    assert [] + [n % 256] == [n];
  }

  /** bit_length rounded up to whole bytes is the number of base-256 digits, so to_bytes never
      overflows and writes the shortest string. */
  lemma {:induction false} ToBytesShortest(n: nat)
    ensures ToBytes(n, (BitLength(n) + 7) / 8) == Some(Repr(256, n))
    decreases n
  {
    if n >= 256 {
      BitLengthByte(n);
      ToBytesShortest(n / 256);
      assert (BitLength(n) + 7) / 8 == (BitLength(n / 256) + 7) / 8 + 1;
      NextByte(n, (BitLength(n / 256) + 7) / 8, Repr(256, n / 256));
    } else if n > 0 {
      OneByte(n);
    }
  }

  /** Python raises ValueError at any character outside the alphabet; None stands for it. */
  method DecodePython(s: string) returns (r: Option<seq<byte>>)
    ensures r == match Decode(s) case Bytes(b) => Some(b) case _ => None
  {
    var read := ReadPython(s);
    if read.None? {
      return None;
    }
    var n := read.value;
    var result := ToBytes(n, (BitLength(n) + 7) / 8);
    ToBytesShortest(n);
    var pad := CountLeadingOnes(s);
    ReprNoLeadingZero(256, n);
    EvalRepr(256, n);
    FinishDecode(s, pad, result.value);
    return Some(seq(pad, _ => 0) + result.value);
  }

  method ReadPython(s: string) returns (r: Option<nat>)
    ensures r.Some? <==> OverAlphabet(s)
    ensures r.Some? ==> r.value == Eval(58, Values(s))
  {
    var n := 0;
    for i := 0 to |s|
      invariant ValidUpTo(s, i)
      invariant n == Eval(58, Values(s)[..i])
    {
      if Lookup(s[i]) < 0 {
        return None;
      }
      ReadStep(s, i);
      n := n * 58 + Lookup(s[i]);
    }
    assert Values(s)[..|s|] == Values(s);
    EvalNonNegative(58, Values(s));
    return Some(n);
  }
}
